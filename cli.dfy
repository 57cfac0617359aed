/**
 * The command-line argument loop of the daemon's `main`: it decides between
 * printing the usage text (and exiting with a status) and running the daemon
 * with a socket path and the `--system` flag.
 *
 * The arguments are those after the program name. Printing and exiting are
 * modelled as the result `Usage(status)`.
 */
module Cli {
  import opened Wrappers

  /** What the argument loop decides. */
  datatype Outcome =
    | Usage(status: int)                      // print the usage text, exit with `status`
    | Run(useSdNotify: bool, path: string)    // go on with these settings

  predicate IsHelp(arg: string) {
    arg == "-h" || arg == "--help"
  }

  /** An argument whose first byte is `-`. */
  predicate IsOption(arg: string) {
    |arg| > 0 && arg[0] == '-'
  }

  /** After the loop: a missing path is a usage error. */
  function Finish(useSdNotify: bool, path: Option<string>): Outcome {
    match path
    case None => Usage(1)
    case Some(p) => Run(useSdNotify, p)
  }

  /** The loop over the remaining arguments, from the state reached so far. */
  function Scan(args: seq<string>, useSdNotify: bool, path: Option<string>): (o: Outcome)
    ensures o.Usage? ==> o.status == 0 || o.status == 1
    ensures o.Run? ==> (path.Some? && o.path == path.value) || (o.path in args && !IsOption(o.path))
    decreases |args|
  {
    if args == [] then Finish(useSdNotify, path)
    else
      var arg := args[0];
      if IsHelp(arg) then Usage(0)
      else if arg == "--" then Finish(useSdNotify, path)
      else if arg == "--system" then Scan(args[1..], true, path)
      else if IsOption(arg) then Usage(1)
      else if path.Some? then Usage(1)
      else Scan(args[1..], useSdNotify, Some(arg))
  }

  /** The whole loop, from its initial state. */
  function Parse(args: seq<string>): (o: Outcome)
    ensures o.Usage? ==> o.status == 0 || o.status == 1
    ensures o.Run? ==> o.path in args && !IsOption(o.path)
  {
    Scan(args, false, None)
  }

  /** The argument loop as the program runs it. */
  method ParseArgs(args: seq<string>) returns (o: Outcome)
    ensures o == Parse(args)
  {
    var useSdNotify := false;
    var path: Option<string> := None;
    var i := 0;
    while i < |args|
      invariant 0 <= i <= |args|
      invariant Scan(args[i..], useSdNotify, path) == Parse(args)
    {
      var arg := args[i];
      if IsHelp(arg) {
        return Usage(0);
      }
      if arg == "--" {
        break;
      } else if arg == "--system" {
        useSdNotify := true;
      } else {
        if IsOption(arg) {
          return Usage(1);
        }
        if path.Some? {
          return Usage(1);
        }
        path := Some(arg);
      }
      assert args[i..][1..] == args[i + 1..];
      i := i + 1;
    }
    match path {
      case None => o := Usage(1);
      case Some(p) => o := Run(useSdNotify, p);
    }
  }

  // ---------------------------------------------------------------------
  // An independent description of the loop's decision.

  /** The arguments the loop looks at: those before the first `--`. */
  function Active(args: seq<string>): (a: seq<string>)
    ensures |a| <= |args| && a == args[..|a|]
    ensures "--" !in a
    ensures |a| < |args| ==> args[|a|] == "--"
  {
    if args == [] || args[0] == "--" then []
    else [args[0]] + Active(args[1..])
  }

  /** The positional (non-option) arguments of `s`, in order. */
  function Positionals(s: seq<string>): (ps: seq<string>)
    ensures |ps| <= |s|
    ensures forall k :: 0 <= k < |ps| ==> !IsOption(ps[k]) && ps[k] in s
  {
    if s == [] then []
    else (if IsOption(s[0]) then [] else [s[0]]) + Positionals(s[1..])
  }

  /**
   * `s` holds only `--system` and positional arguments, and at most one
   * positional once a path already taken (`hasPath`) is counted: the loop
   * passes over such a prefix without deciding anything.
   */
  predicate Quiet(s: seq<string>, hasPath: bool) {
    (forall k :: 0 <= k < |s| ==> s[k] == "--system" || !IsOption(s[k])) &&
    |Positionals(s)| + (if hasPath then 1 else 0) <= 1
  }

  /** The path held after a quiet prefix whose positionals are `ps`. */
  function Taken(path: Option<string>, ps: seq<string>): Option<string> {
    if ps == [] then path else Some(ps[0])
  }

  /** Over a quiet prefix the loop only records `--system` and the path. */
  lemma {:induction false} ScanQuietPrefix(pre: seq<string>, rest: seq<string>, sd: bool, path: Option<string>)
    requires Quiet(pre, path.Some?)
    ensures Scan(pre + rest, sd, path)
         == Scan(rest, sd || "--system" in pre, Taken(path, Positionals(pre)))
  {
    if pre == [] {
      assert pre + rest == rest;
    } else {
      var a, tail := pre[0], pre[1..];
      assert pre == [a] + tail;
      assert (pre + rest)[0] == a && (pre + rest)[1..] == tail + rest;
      assert Positionals(pre) == (if IsOption(a) then [] else [a]) + Positionals(tail);
      assert forall k :: 0 <= k < |tail| ==> tail[k] == pre[k + 1];
      assert a == "--system" || !IsOption(a) by { assert pre[0] == a; }
      if a == "--system" {
        assert Quiet(tail, path.Some?);
        ScanQuietPrefix(tail, rest, true, path);
      } else {
        assert path.None? && Positionals(tail) == [];
        assert Quiet(tail, true);
        ScanQuietPrefix(tail, rest, sd, Some(a));
        assert "--system" in pre <==> "--system" in tail;
      }
    }
  }

  /** Whatever precedes a `--`, everything after it is ignored. */
  lemma {:induction false} ScanStopsAtDoubleDash(pre: seq<string>, rest: seq<string>, sd: bool, path: Option<string>)
    ensures Scan(pre + ["--"] + rest, sd, path) == Scan(pre, sd, path)
  {
    if pre == [] {
      assert pre + ["--"] + rest == ["--"] + rest;
    } else {
      var a, tail := pre[0], pre[1..];
      assert (pre + ["--"] + rest)[0] == a;
      assert (pre + ["--"] + rest)[1..] == tail + ["--"] + rest;
      ScanStopsAtDoubleDash(tail, rest, true, path);
      ScanStopsAtDoubleDash(tail, rest, sd, path);
      if !IsOption(a) {
        ScanStopsAtDoubleDash(tail, rest, sd, Some(a));
      }
    }
  }

  /** A run of the loop that ends in `Run` passed over a quiet sequence. */
  lemma {:induction false} ScanRunIsQuiet(s: seq<string>, sd: bool, path: Option<string>)
    requires "--" !in s
    requires Scan(s, sd, path).Run?
    ensures Quiet(s, path.Some?)
  {
    if s != [] {
      var a, tail := s[0], s[1..];
      assert s == [a] + tail;
      assert Positionals(s) == (if IsOption(a) then [] else [a]) + Positionals(tail);
      if a == "--system" {
        ScanRunIsQuiet(tail, true, path);
      } else {
        ScanRunIsQuiet(tail, sd, Some(a));
      }
      forall k | 0 <= k < |s| ensures s[k] == "--system" || !IsOption(s[k]) {
        if k > 0 { assert s[k] == tail[k - 1]; }
      }
    }
  }

  /** Putting `--system` or a first positional in front of a quiet sequence keeps it quiet. */
  lemma QuietCons(a: string, q: seq<string>, hasPath: bool)
    requires a == "--system" || (!IsOption(a) && !hasPath)
    requires Quiet(q, hasPath || !IsOption(a))
    ensures Quiet([a] + q, hasPath)
  {
  }

  /** A run of the loop that ends in `Usage(0)` met a help option after a quiet prefix. */
  lemma {:induction false} ScanHelpIsReached(s: seq<string>, sd: bool, path: Option<string>) returns (i: nat)
    requires "--" !in s
    requires Scan(s, sd, path) == Usage(0)
    ensures i < |s| && IsHelp(s[i]) && Quiet(s[..i], path.Some?)
  {
    var a, tail := s[0], s[1..];
    if IsHelp(a) {
      i := 0;
      assert s[..0] == [];
    } else {
      assert a != "--";
      var path' := if a == "--system" then path else Some(a);
      var j := ScanHelpIsReached(tail, a == "--system" || sd, path');
      i := j + 1;
      assert s[..i] == [a] + tail[..j];
      QuietCons(a, tail[..j], path.Some?);
    }
  }

  // ---------------------------------------------------------------------
  // What the loop decides, stated over the whole argument list.

  /** Arguments from the first `--` on are never looked at. */
  lemma ParseIgnoresAfterDoubleDash(args: seq<string>)
    ensures Parse(args) == Parse(Active(args))
  {
    var a := Active(args);
    if |a| < |args| {
      assert args == a + ["--"] + args[|a| + 1..];
      ScanStopsAtDoubleDash(a, args[|a| + 1..], false, None);
    } else {
      assert a == args;
    }
  }

  /**
   * The loop runs the daemon exactly when the arguments before `--` are
   * `--system` flags and a single positional argument; that argument is the
   * path, and `--system` among them turns on readiness notification.
   */
  lemma ParseRunsExactly(args: seq<string>)
    ensures Parse(args).Run?
        <==> Quiet(Active(args), false) && |Positionals(Active(args))| == 1
    ensures Parse(args).Run? ==>
              Parse(args) == Run("--system" in Active(args), Positionals(Active(args))[0])
  {
    var a := Active(args);
    ParseIgnoresAfterDoubleDash(args);
    if Parse(args).Run? {
      ScanRunIsQuiet(a, false, None);
    }
    if Quiet(a, false) {
      ScanQuietPrefix(a, [], false, None);
      assert a + [] == a;
    }
  }

  /**
   * The loop exits with status 0 exactly when a help option comes before any
   * `--`, and everything before it is `--system` or a single positional.
   */
  lemma ParseHelpExactly(args: seq<string>)
    ensures Parse(args) == Usage(0)
        <==> exists i :: 0 <= i < |Active(args)| && IsHelp(args[i]) && Quiet(args[..i], false)
  {
    var a := Active(args);
    ParseIgnoresAfterDoubleDash(args);
    if Parse(args) == Usage(0) {
      var i := ScanHelpIsReached(a, false, None);
      assert a[i] == args[i] && a[..i] == args[..i];
    }
    if exists i :: 0 <= i < |a| && IsHelp(args[i]) && Quiet(args[..i], false) {
      var i :| 0 <= i < |a| && IsHelp(args[i]) && Quiet(args[..i], false);
      assert args == args[..i] + args[i..];
      ScanQuietPrefix(args[..i], args[i..], false, None);
    }
  }

  /** An unknown option before `--`, after a quiet prefix, is a usage error. */
  lemma ParseRejectsUnknownOption(args: seq<string>, i: nat)
    requires i < |args| && Quiet(args[..i], false)
    requires IsOption(args[i]) && !IsHelp(args[i]) && args[i] != "--" && args[i] != "--system"
    ensures Parse(args) == Usage(1)
  {
    assert args == args[..i] + args[i..];
    ScanQuietPrefix(args[..i], args[i..], false, None);
  }

  /** A second positional argument before `--` is a usage error. */
  lemma ParseRejectsSecondPath(args: seq<string>, i: nat)
    requires i < |args| && Quiet(args[..i], false) && |Positionals(args[..i])| == 1
    requires !IsOption(args[i])
    ensures Parse(args) == Usage(1)
  {
    assert args == args[..i] + args[i..];
    ScanQuietPrefix(args[..i], args[i..], false, None);
  }

  /** Without a positional argument before `--` the loop ends in a usage error. */
  lemma ParseNeedsPath(args: seq<string>)
    requires Quiet(Active(args), false) && Positionals(Active(args)) == []
    ensures Parse(args) == Usage(1)
  {
    var a := Active(args);
    ParseIgnoresAfterDoubleDash(args);
    ScanQuietPrefix(a, [], false, None);
    assert a + [] == a;
  }
}
