/**
 * The proxy message buffer of the seccomp notification proxy.
 *
 * The lxc monitor forwards every seccomp user notification as one packet:
 * a fixed header (`ProxyMsg`), the kernel's `struct seccomp_notif` and
 * `struct seccomp_notif_resp`, then a cookie of `cookieLen` bytes, with two
 * file descriptors (a pidfd and a handle on the process memory) passed
 * alongside. The buffer receives such a packet, validates it against the
 * structure sizes the running kernel reports, and prepares a fail-closed
 * default response.
 *
 * The module first states the behaviour on values (`Validate`,
 * `SetLenSpec`, `RecvSpec`, ...) and proves what it promises; the class
 * `ProxyMessageBuffer` then updates its fields in place and is proved to
 * follow those functions.
 */
module LxcSeccomp {
  import opened Wrappers

  // Fixed-width integers of the wire format.
  type u8 = x: int | 0 <= x < 0x100
  type u16 = x: int | 0 <= x < 0x1_0000
  type u32 = x: int | 0 <= x < 0x1_0000_0000
  type u64 = x: int | 0 <= x < 0x1_0000_0000_0000_0000
  type i32 = x: int | -0x8000_0000 <= x < 0x8000_0000
  type i64 = x: int | -0x8000_0000_0000_0000 <= x < 0x8000_0000_0000_0000

  /** An open file descriptor, as an opaque token. */
  type Fd = nat

  /**
   * `ENOSYS`, "function not implemented", as numbered by Linux's generic
   * errno table (x86, arm, arm64, ...); MIPS, SPARC and Alpha use other numbers.
   */
  const ENOSYS: i32 := 38

  /** The sizes of the kernel's seccomp structures (`struct seccomp_notif_sizes`). */
  datatype NotifSizes = NotifSizes(notif: u16, notifResp: u16, data: u16)

  /** The header the lxc monitor sends ahead of the kernel structures. */
  datatype ProxyMsg = ProxyMsg(
    reserved0: u64,     // must be zero
    monitorPid: i32,    // the lxc monitor's pid
    initPid: i32,       // the container's init pid
    sizes: NotifSizes,  // the structure sizes the monitor assumes
    cookieLen: u64)     // the length of the trailing cookie

  /** The six system-call arguments of `struct seccomp_data`. */
  type SyscallArgs = a: seq<u64> | |a| == 6 witness [0, 0, 0, 0, 0, 0]

  /** `struct seccomp_data`: the intercepted system call. */
  datatype SeccompData = SeccompData(nr: i32, arch: u32, instructionPointer: u64, args: SyscallArgs)

  /** `struct seccomp_notif`: the request. */
  datatype SeccompNotif = SeccompNotif(id: u64, pid: u32, flags: u32, data: SeccompData)

  /** `struct seccomp_notif_resp`: the verdict sent back. */
  datatype SeccompNotifResp = SeccompNotifResp(id: u64, val: i64, error: i32, flags: u32)

  // The zero-filled structures a new buffer starts with.
  const ZeroMsg := ProxyMsg(0, 0, 0, NotifSizes(0, 0, 0), 0)
  const ZeroNotif := SeccompNotif(0, 0, 0, SeccompData(0, 0, 0, [0, 0, 0, 0, 0, 0]))
  const ZeroResp := SeccompNotifResp(0, 0, 0, 0)

  /** Why receiving or validating a packet failed. */
  datatype Error =
    | TooShort                    // fewer bytes than header and kernel structures
    | ProtocolMismatch            // the reserved field is not zero
    | SizeValidationFailed        // the monitor assumes other structure sizes
    | TooLong                     // the cookie would not fit the buffer
    | CookieLenOverflow           // the cookie length does not fit a usize
    | UnexpectedCookieLen(packetSize: nat, cookieLen: nat, len: nat)
    | MissingFds                  // fewer than two descriptors came with the packet
    | Io                          // the socket read itself failed

  /**
   * What stays fixed for the lifetime of one buffer: the kernel's structure
   * sizes, the fixed packet size (header plus both kernel structures), the
   * cookie capacity, and the largest value of the platform's `usize`.
   */
  datatype Limits = Limits(sizes: NotifSizes, packetSize: nat, capacity: nat, usizeMax: nat)

  // ---------------------------------------------------------------------
  // Validation of a received packet.

  /**
   * The checks on a packet of `len` bytes whose header is `msg`, in the
   * order the buffer makes them; on success the cookie length.
   */
  function Validate(lim: Limits, msg: ProxyMsg, len: nat): (r: Result<nat, Error>)
    ensures r.Ok? <==>
              && msg.reserved0 == 0
              && msg.sizes == lim.sizes
              && msg.cookieLen <= lim.capacity
              && msg.cookieLen <= lim.usizeMax
              && len == lim.packetSize + msg.cookieLen
    ensures r.Ok? ==> r.value == msg.cookieLen
  {
    if len < lim.packetSize then Err(TooShort)
    else if msg.reserved0 != 0 then Err(ProtocolMismatch)
    else if msg.sizes != lim.sizes then Err(SizeValidationFailed)
    else if len - lim.packetSize > lim.capacity then Err(TooLong)
    else if msg.cookieLen > lim.usizeMax then Err(CookieLenOverflow)
    else if len != lim.packetSize + msg.cookieLen then
      Err(UnexpectedCookieLen(lim.packetSize, msg.cookieLen, len))
    else Ok(msg.cookieLen)
  }

  /** A packet shorter than the fixed packet size is too short, whatever its header says. */
  lemma ValidateChecksLengthFirst(lim: Limits, msg: ProxyMsg, other: ProxyMsg, len: nat)
    requires len < lim.packetSize
    ensures Validate(lim, msg, len) == Validate(lim, other, len) == Err(TooShort)
  {
  }

  /** Which error a packet of sufficient length is rejected with. */
  lemma ValidateReportsFirstFailure(lim: Limits, msg: ProxyMsg, len: nat)
    requires len >= lim.packetSize
    ensures msg.reserved0 != 0 ==> Validate(lim, msg, len) == Err(ProtocolMismatch)
    ensures msg.reserved0 == 0 &&
            (msg.sizes.notif != lim.sizes.notif ||
             msg.sizes.notifResp != lim.sizes.notifResp ||
             msg.sizes.data != lim.sizes.data)
            ==> Validate(lim, msg, len) == Err(SizeValidationFailed)
    ensures msg.reserved0 == 0 && msg.sizes == lim.sizes && len - lim.packetSize > lim.capacity
            ==> Validate(lim, msg, len) == Err(TooLong)
    ensures msg.reserved0 == 0 && msg.sizes == lim.sizes && len - lim.packetSize <= lim.capacity &&
            msg.cookieLen > lim.usizeMax
            ==> Validate(lim, msg, len) == Err(CookieLenOverflow)
    ensures msg.reserved0 == 0 && msg.sizes == lim.sizes && len - lim.packetSize <= lim.capacity &&
            msg.cookieLen <= lim.usizeMax && len != lim.packetSize + msg.cookieLen
            ==> Validate(lim, msg, len)
                == Err(UnexpectedCookieLen(lim.packetSize, msg.cookieLen, len))
  {
  }

  /**
   * `packet_size + cookie_len` is a `usize` sum that wraps around in a
   * release build; the wrapped sum equals `len` exactly when the true sum
   * does, so the wrap-around cannot let a wrong length through.
   */
  lemma WrappedSumAgrees(packetSize: nat, cookieLen: nat, len: nat, usizeMax: nat)
    requires packetSize <= len <= usizeMax && cookieLen <= usizeMax
    ensures (packetSize + cookieLen) % (usizeMax + 1) == len <==> packetSize + cookieLen == len
  {
  }

  // ---------------------------------------------------------------------
  // The buffer's contents, as a value.

  /**
   * Everything a buffer holds that its operations change: the header, both
   * kernel structures, the cookie storage (all `capacity` bytes) with the
   * cookie vector's logical length, and the two passed descriptors.
   */
  datatype BufferState = BufferState(
    proxyMsg: ProxyMsg,
    seccompNotif: SeccompNotif,
    seccompResp: SeccompNotifResp,
    cookieBuf: seq<u8>,
    cookieLength: nat,
    pidFd: Option<Fd>,
    memFd: Option<Fd>)

  /** A state a buffer with these limits can be in: never exactly one descriptor held. */
  predicate WellFormed(lim: Limits, s: BufferState) {
    && |s.cookieBuf| == lim.capacity
    && s.cookieLength <= lim.capacity
    && (s.pidFd.Some? <==> s.memFd.Some?)
  }

  /** The cookie as the handler sees it: the first `cookieLength` bytes. */
  function CookieOf(s: BufferState): (c: seq<u8>)
    requires s.cookieLength <= |s.cookieBuf|
    ensures |c| == s.cookieLength
    ensures forall k :: 0 <= k < |c| ==> c[k] == s.cookieBuf[k]
  {
    s.cookieBuf[..s.cookieLength]
  }

  /** The response is paired with the request it answers. */
  predicate Answers(resp: SeccompNotifResp, req: SeccompNotif) {
    resp.id == req.id
  }

  /**
   * The response denies the call: the kernel does not let it continue and
   * makes it fail with the (negated) error code.
   */
  predicate Denies(resp: SeccompNotifResp) {
    resp.flags == 0 && resp.error < 0
  }

  /** The fail-closed default verdict for `req`: the call fails with ENOSYS. */
  function DefaultResponse(req: SeccompNotif): (resp: SeccompNotifResp)
    ensures Answers(resp, req) && Denies(resp)
    ensures resp.error == -ENOSYS && resp.val == -1
  {
    SeccompNotifResp(req.id, -1, -ENOSYS, 0)
  }

  /** Both descriptors released, nothing else changed. */
  function Released(s: BufferState): (t: BufferState)
    ensures t.pidFd.None? && t.memFd.None?
    ensures t.(pidFd := s.pidFd, memFd := s.memFd) == s
  {
    s.(pidFd := None, memFd := None)
  }

  /** Releasing the descriptors a second time changes nothing. */
  lemma ReleasedIsIdempotent(s: BufferState)
    ensures Released(Released(s)) == Released(s)
  {
  }

  /** The state after an operation, with the operation's result. */
  datatype Step<T> = Step(state: BufferState, result: Result<T, Error>)

  /**
   * Validation of a packet of `len` bytes already read into `s`: on success
   * the cookie gets its length and the default response is prepared; on a
   * cookie length that does not fit a usize the header's cookie length is
   * cleared; on every other failure nothing changes.
   */
  function SetLenSpec(lim: Limits, s: BufferState, len: nat): (r: Step<()>)
    ensures r.result.Ok? <==> Validate(lim, s.proxyMsg, len).Ok?
    ensures r.result.Err? ==> r.result.error == Validate(lim, s.proxyMsg, len).error
    ensures r.result.Ok? ==>
              && r.state.cookieLength == s.proxyMsg.cookieLen <= lim.capacity
              && len == lim.packetSize + r.state.cookieLength
              && r.state.seccompResp == DefaultResponse(s.seccompNotif)
              && r.state.(seccompResp := s.seccompResp, cookieLength := s.cookieLength) == s
    ensures r.result.Err? ==>
              && r.state.seccompResp == s.seccompResp
              && r.state.cookieLength == s.cookieLength
              && r.state.(proxyMsg := s.proxyMsg) == s
              && r.state.proxyMsg == (if r.result.error == CookieLenOverflow
                                      then s.proxyMsg.(cookieLen := 0) else s.proxyMsg)
  {
    match Validate(lim, s.proxyMsg, len)
    case Ok(cookieLen) =>
      var t := s.(cookieLength := cookieLen);
      Step(t.(seccompResp := DefaultResponse(t.seccompNotif)), Ok(()))
    case Err(e) =>
      if e == CookieLenOverflow then Step(s.(proxyMsg := s.proxyMsg.(cookieLen := 0)), Err(e))
      else Step(s, Err(e))
  }

  /** What one socket read delivered. */
  datatype Reception =
    | ReadFailed              // the read reported an I/O error
    | Received(
        size: nat,            // the byte count; 0 at end of stream
        header: ProxyMsg,     // the header after the read
        notif: SeccompNotif,  // the request after the read
        resp: SeccompNotifResp,
        cookieRegion: seq<u8>,  // the cookie storage after the read
        fds: seq<Fd>)         // the descriptors that came with it

  /** The descriptor at position `k` of what arrived, if that many arrived. */
  function FdAt(fds: seq<Fd>, k: nat): (fd: Option<Fd>)
    ensures fd.Some? <==> k < |fds|
    ensures fd.Some? ==> fd.value == fds[k]
  {
    if k < |fds| then Some(fds[k]) else None
  }

  /**
   * One receive: reset the cookie lengths, read, validate, then take over
   * the two descriptors. Returns `Ok(false)` at end of stream.
   */
  function RecvSpec(lim: Limits, s: BufferState, rx: Reception): (r: Step<bool>)
    ensures r.result == Ok(false) <==> rx.Received? && rx.size == 0
    ensures r.result == Err(Io) <==> rx.ReadFailed?
    ensures r.result.Err? && r.result.error != MissingFds ==> r.state.cookieLength == 0
  {
    var s0 := s.(proxyMsg := s.proxyMsg.(cookieLen := 0), cookieLength := 0);
    match rx
    case ReadFailed => Step(s0, Err(Io))
    case Received(size, header, notif, resp, region, fds) =>
      if size == 0 then Step(s0, Ok(false))
      else
        var s1 := s0.(proxyMsg := header, seccompNotif := notif, seccompResp := resp,
                      cookieBuf := region);
        var v := SetLenSpec(lim, s1, size);
        if v.result.Err? then Step(v.state, Err(v.result.error))
        else
          var s2 := v.state.(pidFd := FdAt(fds, 0), memFd := FdAt(fds, 1));
          if s2.memFd.None? then Step(Released(s2), Err(MissingFds))
          else Step(s2, Ok(true))
  }

  /** A failed read: only the two cookie lengths were reset; the descriptors stay. */
  lemma RecvReadFailure(lim: Limits, s: BufferState)
    ensures RecvSpec(lim, s, ReadFailed).result == Err(Io)
    ensures RecvSpec(lim, s, ReadFailed).state
         == s.(proxyMsg := s.proxyMsg.(cookieLen := 0), cookieLength := 0)
  {
  }

  /** End of stream: only the two cookie lengths are reset; the descriptors stay. */
  lemma RecvAtEndOfStream(lim: Limits, s: BufferState, rx: Reception)
    requires rx.Received? && rx.size == 0
    ensures RecvSpec(lim, s, rx).result == Ok(false)
    ensures RecvSpec(lim, s, rx).state
         == s.(proxyMsg := s.proxyMsg.(cookieLen := 0), cookieLength := 0)
  {
  }

  /**
   * A receive succeeds exactly when a non-empty packet validates and at
   * least two descriptors came with it; then the buffer holds the packet,
   * the first two descriptors, a cookie of the announced length and the
   * default response to the request.
   */
  lemma RecvSucceedsExactly(lim: Limits, s: BufferState, rx: Reception)
    requires rx.Received? ==> |rx.cookieRegion| == lim.capacity
    ensures RecvSpec(lim, s, rx).result == Ok(true) <==>
              && rx.Received? && rx.size > 0
              && Validate(lim, rx.header, rx.size).Ok?
              && |rx.fds| >= 2
    ensures RecvSpec(lim, s, rx).result == Ok(true) ==>
              var t := RecvSpec(lim, s, rx).state;
              && t.proxyMsg == rx.header
              && t.seccompNotif == rx.notif
              && t.seccompResp == DefaultResponse(rx.notif)
              && t.cookieLength == rx.header.cookieLen
              && rx.size == lim.packetSize + t.cookieLength
              && CookieOf(t) == rx.cookieRegion[..rx.header.cookieLen]
              && t.pidFd == Some(rx.fds[0]) && t.memFd == Some(rx.fds[1])
  {
  }

  /**
   * A packet that fails validation is reported with that check's error
   * before any descriptor is taken over: the previous ones stay, and the
   * response is the one read, not a prepared one.
   */
  lemma RecvRejectedKeepsDescriptors(lim: Limits, s: BufferState, rx: Reception)
    requires rx.Received? && rx.size > 0 && Validate(lim, rx.header, rx.size).Err?
    ensures RecvSpec(lim, s, rx).result == Err(Validate(lim, rx.header, rx.size).error)
    ensures RecvSpec(lim, s, rx).state.pidFd == s.pidFd
    ensures RecvSpec(lim, s, rx).state.memFd == s.memFd
    ensures RecvSpec(lim, s, rx).state.seccompResp == rx.resp
    ensures RecvSpec(lim, s, rx).state.cookieLength == 0
  {
  }

  /** A valid packet with fewer than two descriptors fails and leaves none held. */
  lemma RecvMissingDescriptors(lim: Limits, s: BufferState, rx: Reception)
    requires rx.Received? && rx.size > 0 && Validate(lim, rx.header, rx.size).Ok?
    requires |rx.fds| < 2
    ensures RecvSpec(lim, s, rx).result == Err(MissingFds)
    ensures RecvSpec(lim, s, rx).state.pidFd.None? && RecvSpec(lim, s, rx).state.memFd.None?
  {
  }

  /** Receiving keeps a buffer well formed: in particular it never holds a single descriptor. */
  lemma RecvPreservesWellFormed(lim: Limits, s: BufferState, rx: Reception)
    requires WellFormed(lim, s)
    requires rx.Received? ==> |rx.cookieRegion| == lim.capacity
    ensures WellFormed(lim, RecvSpec(lim, s, rx).state)
  {
  }

  // ---------------------------------------------------------------------
  // The buffer itself.

  /** Receives and validates proxy messages; one per connection, reused for every message. */
  class ProxyMessageBuffer {
    var proxyMsg: ProxyMsg
    var seccompNotif: SeccompNotif
    var seccompResp: SeccompNotifResp
    const cookieBuf: array<u8>       // the cookie vector's storage; its length is the capacity
    var cookieLength: nat            // the cookie vector's logical length

    const sizes: NotifSizes          // the kernel's structure sizes
    const seccompPacketSize: nat     // header plus both kernel structures
    const usizeMax: nat              // the largest usize of the platform

    var pidFd: Option<Fd>
    var memFd: Option<Fd>

    /** The buffer's fixed limits. */
    function Fixed(): Limits {
      Limits(sizes, seccompPacketSize, cookieBuf.Length, usizeMax)
    }

    /** The buffer's contents as a value. */
    ghost function State(): BufferState
      reads this, cookieBuf
    {
      BufferState(proxyMsg, seccompNotif, seccompResp, cookieBuf[..], cookieLength, pidFd, memFd)
    }

    ghost predicate Valid()
      reads this, cookieBuf
    {
      && seccompPacketSize <= usizeMax
      && cookieBuf.Length <= usizeMax
      && WellFormed(Fixed(), State())
    }

    /**
     * A buffer for cookies of up to `maxCookie` bytes. `kernelSizes` are
     * the sizes the kernel reported at start-up and `headerSize` is the
     * size of the header structure.
     */
    constructor (maxCookie: nat, kernelSizes: NotifSizes, headerSize: nat, usizeMax: nat)
      requires maxCookie <= usizeMax
      requires headerSize + kernelSizes.notif + kernelSizes.notifResp <= usizeMax
      ensures Valid() && fresh(cookieBuf)
      ensures sizes == kernelSizes && this.usizeMax == usizeMax
      ensures seccompPacketSize == headerSize + kernelSizes.notif + kernelSizes.notifResp
      ensures cookieBuf.Length == maxCookie && cookieLength == maxCookie
      ensures proxyMsg == ZeroMsg && seccompNotif == ZeroNotif && seccompResp == ZeroResp
      ensures pidFd.None? && memFd.None?
    {
      proxyMsg := ZeroMsg;
      seccompNotif := ZeroNotif;
      seccompResp := ZeroResp;
      cookieBuf := new u8[maxCookie];
      cookieLength := maxCookie;
      sizes := kernelSizes;
      seccompPacketSize := headerSize + kernelSizes.notif + kernelSizes.notifResp;
      this.usizeMax := usizeMax;
      pidFd := None;
      memFd := None;
    }

    /**
     * Reads one packet as `rx` describes it and validates it. The read can
     * fill at most the storage it is given, so a cookie region has exactly
     * the buffer's capacity.
     */
    method Recv(rx: Reception) returns (r: Result<bool, Error>)
      requires Valid()
      requires rx.Received? ==> rx.size <= usizeMax && |rx.cookieRegion| == cookieBuf.Length
      modifies this, cookieBuf
      ensures Valid()
      ensures Step(State(), r) == RecvSpec(Fixed(), old(State()), rx)
    {
      proxyMsg := proxyMsg.(cookieLen := 0);
      // The whole storage is lent to the read; the vector's length is 0 meanwhile.
      cookieLength := 0;

      if rx.ReadFailed? {
        return Err(Io);
      }
      if rx.size == 0 {
        return Ok(false);
      }
      proxyMsg, seccompNotif, seccompResp := rx.header, rx.notif, rx.resp;
      forall k | 0 <= k < cookieBuf.Length {
        cookieBuf[k] := rx.cookieRegion[k];
      }
      assert cookieBuf[..] == rx.cookieRegion;

      var v := SetLen(rx.size);
      if v.Err? {
        return Err(v.error);
      }

      pidFd := if |rx.fds| > 0 then Some(rx.fds[0]) else None;
      memFd := if |rx.fds| > 1 then Some(rx.fds[1]) else None;
      if memFd.None? {
        DropFds();
        return Err(MissingFds);
      }
      return Ok(true);
    }

    /** Releases both descriptors; nothing else changes. */
    method DropFds()
      modifies this`pidFd, this`memFd
      ensures State() == Released(old(State()))
    {
      pidFd := None;
      memFd := None;
    }

    /** Answers the current request with the fail-closed default verdict. */
    method PrepareResponse()
      requires Valid()
      modifies this`seccompResp
      ensures Valid()
      ensures seccompResp == DefaultResponse(seccompNotif)
    {
      var id := Request().id;
      seccompResp := seccompResp.(id := id, val := -1, error := -ENOSYS, flags := 0);
    }

    /**
     * Validates a packet of `len` bytes that has just been read and, on
     * success, sets the cookie's length and prepares the default response.
     */
    method SetLen(len: nat) returns (r: Result<(), Error>)
      requires Valid() && len <= usizeMax
      modifies this`proxyMsg, this`cookieLength, this`seccompResp
      ensures Valid()
      ensures Step(State(), r) == SetLenSpec(Fixed(), old(State()), len)
    {
      if len < seccompPacketSize {
        return Err(TooShort);
      }
      if proxyMsg.reserved0 != 0 {
        return Err(ProtocolMismatch);
      }
      if !CheckSizes() {
        return Err(SizeValidationFailed);
      }
      if len - seccompPacketSize > cookieBuf.Length {
        return Err(TooLong);
      }
      if proxyMsg.cookieLen > usizeMax {
        proxyMsg := proxyMsg.(cookieLen := 0);
        return Err(CookieLenOverflow);
      }
      var cookieLen: nat := proxyMsg.cookieLen;
      // usize addition, wrapping around as in a release build
      var expected := (seccompPacketSize + cookieLen) % (usizeMax + 1);
      WrappedSumAgrees(seccompPacketSize, cookieLen, len, usizeMax);
      if len != expected {
        return Err(UnexpectedCookieLen(seccompPacketSize, cookieLen, len));
      }
      cookieLength := cookieLen;
      PrepareResponse();
      return Ok(());
    }

    /** The monitor agrees with the kernel on all three structure sizes. */
    function CheckSizes(): (ok: bool)
      reads this
      ensures ok <==> proxyMsg.sizes == sizes
    {
      var got := proxyMsg.sizes;
      got.notif == sizes.notif && got.notifResp == sizes.notifResp && got.data == sizes.data
    }

    /** The monitor pid the header claims; nothing guarantees it is valid. */
    function MonitorPid(): (pid: i32)
      reads this
      ensures pid == State().proxyMsg.monitorPid
    {
      proxyMsg.monitorPid
    }

    /** The container's init pid the header claims; nothing guarantees it is valid. */
    function InitPid(): (pid: i32)
      reads this
      ensures pid == State().proxyMsg.initPid
    {
      proxyMsg.initPid
    }

    /** The request of the current message. */
    function Request(): (req: SeccompNotif)
      reads this
      ensures req == State().seccompNotif
    {
      seccompNotif
    }

    /** The handler's write access to the response: only the response changes. */
    method SetResponse(resp: SeccompNotifResp)
      requires Valid()
      modifies this`seccompResp
      ensures Valid()
      ensures State() == old(State()).(seccompResp := resp)
    {
      seccompResp := resp;
    }

    /** The header's cookie length; a length beyond usize is a panic, so callers must rule it out. */
    function CookieLen(): (n: nat)
      reads this
      requires proxyMsg.cookieLen <= usizeMax
      ensures n == State().proxyMsg.cookieLen
    {
      proxyMsg.cookieLen
    }

    /** The cookie of the current message. */
    function Cookie(): (c: seq<u8>)
      reads this, cookieBuf
      requires Valid()
      ensures c == CookieOf(State())
    {
      cookieBuf[..cookieLength]
    }
  }

  /**
   * A buffer with room for a 32-byte
   * cookie receives a packet announcing a 10-byte cookie, with matching
   * sizes, a zero reserved field and two descriptors.
   */
  method ReceiveOneMessage(kernelSizes: NotifSizes, req: SeccompNotif, region: seq<u8>, pidFd: Fd, memFd: Fd)
    requires |region| == 32
  {
    var buffer := new ProxyMessageBuffer(32, kernelSizes, 32, 0xFFFF_FFFF_FFFF_FFFF);
    var size := buffer.seccompPacketSize + 10;
    var header := ProxyMsg(0, 100, 200, kernelSizes, 10);
    var rx := Received(size, header, req, ZeroResp, region, [pidFd, memFd]);
    RecvSucceedsExactly(buffer.Fixed(), buffer.State(), rx);
    var r := buffer.Recv(rx);
    assert r == Ok(true);
    assert |buffer.Cookie()| == 10 && buffer.CookieLen() == 10;
    assert Answers(buffer.seccompResp, buffer.Request()) && Denies(buffer.seccompResp);
    assert buffer.pidFd == Some(pidFd) && buffer.memFd == Some(memFd);

    var bad := Received(size, header.(reserved0 := 1), req, ZeroResp, region, [pidFd, memFd]);
    r := buffer.Recv(bad);
    assert r == Err(ProtocolMismatch) && buffer.cookieLength == 0;

    // A 5-byte cookie announced, 7 bytes sent.
    var longer := Received(buffer.seccompPacketSize + 7, header.(cookieLen := 5), req, ZeroResp, region, [pidFd, memFd]);
    r := buffer.Recv(longer);
    assert r == Err(UnexpectedCookieLen(buffer.seccompPacketSize, 5, buffer.seccompPacketSize + 7));

    // The monitor's request size is off by one.
    var skewed := header.(sizes := kernelSizes.(notif := (kernelSizes.notif + 1) % 0x1_0000));
    r := buffer.Recv(Received(size, skewed, req, ZeroResp, region, [pidFd, memFd]));
    assert r == Err(SizeValidationFailed);
    assert buffer.pidFd == Some(pidFd) && buffer.memFd == Some(memFd);
  }
}
