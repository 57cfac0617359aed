# Seccomp notification proxy: the proxy message buffer

This project models the protocol core of a seccomp user-notification proxy for
LXC containers. When a process in a container makes a system call that the
container's seccomp policy forwards, the kernel notifies the lxc monitor, and
the monitor sends the proxy one packet over a sequenced-packet socket. The
packet holds:

- a fixed header (`SeccompNotifyProxyMsg`) with a reserved field, the monitor and
  container-init pids, the monitor's view of the kernel's seccomp structure
  sizes, and a cookie length;
- the kernel's `struct seccomp_notif` (the request);
- the kernel's `struct seccomp_notif_resp` (the response);
- a cookie of `cookie_len` bytes.

Two file descriptors come with the packet: a pidfd and a handle on the
process's memory.

`ProxyMessageBuffer` receives such a packet and validates it. It checks, in
this order:

1. the length against the fixed packet size;
2. that the reserved field is zero;
3. the sizes against those the running kernel reports;
4. that the cookie fits the buffer;
5. that the cookie length fits a `usize`;
6. that the length is exactly the fixed packet size plus the cookie length.

On success the buffer sets the cookie's length and prepares a fail-closed
default response: the response echoes the request id and makes the call fail
with `ENOSYS`.

The second part is the daemon's command-line argument loop. It decides between
printing usage (exit status 0 for help, 1 for any error) and running with a
socket path and the `--system` flag.

Files:

- `wrappers.dfy`: `Option` and `Result`.
- `lxcseccomp.dfy` (module `LxcSeccomp`): the wire structures as datatypes and
  the buffer's behaviour as functions on a `BufferState` value (`Validate`,
  `SetLenSpec`, `RecvSpec`, `Released`, `DefaultResponse`), with lemmas about
  those functions. It also holds the class `ProxyMessageBuffer`, whose methods
  update its fields in place and are proved to follow those functions.
- `cli.dfy` (module `Cli`): the argument loop as a method with a `while` loop,
  its specification `Parse`, and lemmas that describe `Parse`'s decision from
  the argument list.

Modelling choices:

- The socket read is a parameter of `Recv`, of type `Reception`. It is either
  an I/O failure, or a byte count with the header, request, response and cookie
  storage as they stand after the read, plus the descriptors that arrived.
- Descriptors are opaque tokens.
- The platform's `usize` bound (`usizeMax`) is a constructor parameter, so the
  overflow branch of the cookie-length conversion is reachable.
- `size_of::<SeccompNotifyProxyMsg>()` is also a constructor parameter
  (`headerSize`). The kernel sizes are passed in as a parameter too.

Behaviour of the code worth noting:

- A packet that fails validation is reported before the new descriptors are
  stored. The buffer keeps the previous message's descriptors; they are not
  released (`RecvRejectedKeepsDescriptors`).
- A zero-byte read still resets the header's cookie length and the cookie's
  length to 0 before returning `false` (`RecvAtEndOfStream`).
- After construction the cookie vector's length is the full capacity, not 0.
  The vector is created by `tools::vec::uninitialized(max_cookie)`, and
  `tools` is not part of this model. The model takes that helper to return
  `max_cookie` bytes, with length and capacity both `max_cookie` and the
  contents unspecified.

## Model

| member | source | states |
|---|---|---|
| `LxcSeccomp.Validate` | src/lxcseccomp.rs:171-203 | a packet is accepted exactly when the reserved field is 0, the three sizes equal the kernel's, the cookie length fits both the capacity and a usize, and the byte count is the fixed packet size plus the cookie length; the accepted value is the cookie length |
| `LxcSeccomp.ValidateChecksLengthFirst` | src/lxcseccomp.rs:172-174 | a byte count below the fixed packet size fails with "too short" whatever the header holds |
| `LxcSeccomp.ValidateReportsFirstFailure` | src/lxcseccomp.rs:176-203 | once the length suffices: a nonzero reserved field is a protocol mismatch; a difference in any one of the three sizes is a size-validation failure; then "too long"; then the usize overflow; then a byte count other than packet size plus cookie length fails with an error naming the packet size, the cookie length and the byte count |
| `LxcSeccomp.WrappedSumAgrees` | src/lxcseccomp.rs:196 | the usize sum `packet_size + cookie_len`, wrapping around, equals the byte count exactly when the true sum does, so the wrap-around never accepts a wrong length |
| `LxcSeccomp.SetLenSpec` | src/lxcseccomp.rs:171-212 | succeeds exactly when `Validate` does; on success the cookie length equals the header's, is at most the capacity, the byte count is packet size plus cookie length, and the response is the default answer to the request, nothing else changing; on failure the response and cookie length are untouched and only the usize-overflow case clears the header's cookie length |
| `LxcSeccomp.DefaultResponse` | src/lxcseccomp.rs:160-167 | the default response carries the request's id, does not let the call continue, and fails it with `-ENOSYS` and value -1 |
| `LxcSeccomp.Released` | src/lxcseccomp.rs:144-147 | both descriptors are gone and nothing else in the buffer changed |
| `LxcSeccomp.ReleasedIsIdempotent` | src/lxcseccomp.rs:144-147 | releasing twice is the same as releasing once |
| `LxcSeccomp.CookieOf` | src/lxcseccomp.rs:250-253 | the cookie is the first `cookieLength` bytes of the storage |
| `LxcSeccomp.FdAt` | src/lxcseccomp.rs:133-135 | the k-th descriptor slot is filled exactly when at least k+1 descriptors arrived, and holds that descriptor |
| `LxcSeccomp.RecvSpec` | src/lxcseccomp.rs:105-142 | a receive returns `false` exactly at end of stream and the I/O error exactly when the read fails; on every failure other than missing descriptors the cookie length is left at 0 |
| `LxcSeccomp.RecvReadFailure` | src/lxcseccomp.rs:109-126 | a failed read returns the I/O error after resetting the header's cookie length and the cookie's length to 0; nothing else, descriptors included, changes |
| `LxcSeccomp.RecvAtEndOfStream` | src/lxcseccomp.rs:105-129 | a zero-byte read returns `false`, resets the header's cookie length and the cookie's length to 0, and leaves everything else (descriptors included) as it was |
| `LxcSeccomp.RecvSucceedsExactly` | src/lxcseccomp.rs:105-142 | a receive returns `true` exactly when a non-empty packet validates and at least two descriptors arrived; the buffer then holds the packet, the first two descriptors, a cookie of the announced length taken from the read, and the default response to the request |
| `LxcSeccomp.RecvRejectedKeepsDescriptors` | src/lxcseccomp.rs:131 | a packet that fails validation is reported with that check's error; the previous descriptors stay, the response is the one read and the cookie length stays 0 |
| `LxcSeccomp.RecvMissingDescriptors` | src/lxcseccomp.rs:133-139 | a valid packet with fewer than two descriptors fails with "missing file descriptors" and leaves no descriptor held |
| `LxcSeccomp.RecvPreservesWellFormed` | src/lxcseccomp.rs:105-147 | a receive keeps the cookie length within the capacity and never leaves exactly one descriptor held |
| `LxcSeccomp.ProxyMessageBuffer.constructor` | src/lxcseccomp.rs:85-102 | the fixed packet size is header size plus request size plus response size, the kernel sizes are captured, the structures are zeroed, the cookie storage has `max_cookie` bytes, and no descriptor is held |
| `LxcSeccomp.ProxyMessageBuffer.Recv` | src/lxcseccomp.rs:105-142 | the new state and result are those of `RecvSpec` applied to the old state and the read |
| `LxcSeccomp.ProxyMessageBuffer.DropFds` | src/lxcseccomp.rs:144-147 | the new state is `Released` of the old one |
| `LxcSeccomp.ProxyMessageBuffer.PrepareResponse` | src/lxcseccomp.rs:160-167 | the response becomes the default answer to the current request |
| `LxcSeccomp.ProxyMessageBuffer.SetLen` | src/lxcseccomp.rs:171-212 | with the wrapping usize sum of the source, the new state and result are those of `SetLenSpec` |
| `LxcSeccomp.ProxyMessageBuffer.CheckSizes` | src/lxcseccomp.rs:214-219 | the field-wise comparison holds exactly when the header's sizes equal the captured kernel sizes |
| `LxcSeccomp.ProxyMessageBuffer.MonitorPid` | src/lxcseccomp.rs:224-226 | the monitor pid as the header claims it, unchecked |
| `LxcSeccomp.ProxyMessageBuffer.InitPid` | src/lxcseccomp.rs:231-233 | the container init pid as the header claims it, unchecked |
| `LxcSeccomp.ProxyMessageBuffer.Request` | src/lxcseccomp.rs:236-238 | the request structure of the current message |
| `LxcSeccomp.ProxyMessageBuffer.SetResponse` | src/lxcseccomp.rs:241-243 | the handler's write to the response changes the response and nothing else |
| `LxcSeccomp.ProxyMessageBuffer.CookieLen` | src/lxcseccomp.rs:246-248 | the header's cookie length, callable only when it fits a usize |
| `LxcSeccomp.ProxyMessageBuffer.Cookie` | src/lxcseccomp.rs:251-253 | the cookie bytes up to the cookie vector's logical length |
| `Cli.Scan` | src/main.rs:58-91 | from any state, the loop ends in usage with status 0 or 1, or runs with the path already held or a positional argument from the list |
| `Cli.Parse` | src/main.rs:55-91 | from the initial state, a usage status is 0 or 1 and a run's path is one of the arguments and does not start with `-` |
| `Cli.ParseArgs` | src/main.rs:51-91 | the loop's outcome is `Parse` of the arguments |
| `Cli.Active` | src/main.rs:63-64 | the arguments looked at are the prefix before the first `--`, which contains no `--` |
| `Cli.ScanQuietPrefix` | src/main.rs:58-83 | over a prefix of `--system` flags and at most one positional argument, the loop only records the flag and the path |
| `Cli.ScanStopsAtDoubleDash` | src/main.rs:63-64 | whatever precedes a `--`, the arguments after it do not change the outcome |
| `Cli.ScanRunIsQuiet` | src/main.rs:58-91 | a loop that ends by running passed only over `--system` flags and a single positional argument |
| `Cli.ScanHelpIsReached` | src/main.rs:59-61 | a loop that ends with status 0 met a help option after only `--system` flags and at most one positional argument |
| `Cli.ParseIgnoresAfterDoubleDash` | src/main.rs:63-64 | the outcome depends only on the arguments before the first `--` |
| `Cli.ParseRunsExactly` | src/main.rs:58-91 | the daemon runs exactly when the arguments before `--` are `--system` flags and one positional argument; that argument is the path, and `use_sd_notify` is set exactly when `--system` is among them |
| `Cli.ParseHelpExactly` | src/main.rs:59-61 | the outcome is usage with status 0 exactly when `-h` or `--help` comes before `--` and is preceded only by `--system` flags and at most one positional argument |
| `Cli.ParseRejectsUnknownOption` | src/main.rs:68-73 | an argument starting with `-` that is not help, `--` or `--system`, reached after such a prefix, is usage with status 1 |
| `Cli.ParseRejectsSecondPath` | src/main.rs:75-79 | a second positional argument before `--` is usage with status 1 |
| `Cli.ParseNeedsPath` | src/main.rs:85-91 | without a positional argument before `--` (and no error earlier) the outcome is usage with status 1 |

## Left out

- `respond` (src/lxcseccomp.rs:150-157) is a socket write. It sends the header, the request and the response, and never the cookie. It is not modelled.
- The socket read `recv_fds_vectored` and the async runtime are left out. The read's outcome is the `Reception` parameter of `Recv`.
- A short read overwrites the header and the kernel structures only in part. The model takes their contents after the read as given. Any short read fails as "too short" anyway.
- The raw byte views of the structures (`io_vec`, `io_vec_mut`) and the zeroed or uninitialized allocations are left out. The structures are typed fields.
- The cookie region a read fills always has the buffer's full capacity. This is the `Recv` requirement `|cookieRegion| == cookieBuf.Length`.
- The kernel query for the structure sizes (`SECCOMP_SIZES`, `SeccompNotifSizes::get_checked`) is not part of this model. The sizes are a constructor parameter. The three sizes are taken to be 16-bit, as in the kernel's `struct seccomp_notif_sizes`.
- `size_of::<SeccompNotifyProxyMsg>()` is the constructor parameter `headerSize`. The constructor requires the packet-size sum to fit a usize.
- The capacity of the cookie vector is modelled as exactly `max_cookie`.
- Closing a descriptor is left out. Descriptors are tokens, and release is setting a slot to `None`.
- `LxcSeccomp.ProxyMessageBuffer.SetLen`: the sum at src/lxcseccomp.rs:196 wraps around, as in a release build. A debug build would panic instead. `WrappedSumAgrees` shows that both builds reject the same packets.
- `LxcSeccomp.ProxyMessageBuffer.CookieLen`: the panic of `expect` on a cookie length beyond usize is stated as a precondition, not modelled as a panic.
- `LxcSeccomp.ProxyMessageBuffer.SetResponse` stands for `response_mut`. The mutable reference is modelled as one write of a whole response.
- The syscall handlers (`sys_mknod`, `sys_quotactl` and the other modules listed in src/main.rs) are not part of this model.
- In src/main.rs, the following are I/O and process control and are left out: `do_main` (socket removal, bind, accept loop, task spawning), `notify_systemd`, the runtime, the text `usage` prints, and `process::exit`. Usage is the result `Usage(status)`.
- Arguments are strings after the program name. An `OsString` holding bytes that are not valid Unicode is not distinguished.
