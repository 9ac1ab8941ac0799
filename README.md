# runas: a Dafny model of the framed pipe, the sudo proxy and its launchers

`runas` runs methods of a Python object with root privileges. `SudoProxy(target).start(user, password)` starts a helper interpreter through `sudo` (or through another sudo-like agent). The helper unpickles the proxy and runs `proxy.run(pipe)`. From then on, every attribute looked up on the proxy is a wrapper that does two things:

- it sends `(method name, args)` over a length-framed pipe;
- it returns or raises whatever the helper's copy of the target answered.

This project models that machinery and proves properties of it.

- **Framing** (`Bytes`, `Framing`): the four-byte length word of `struct "I"` and the frame format. This is `read()` and `write()` of both pipe base classes, as pure functions of the bytes on a stream. It covers:
  - the round trip;
  - FIFO order over many frames;
  - truncated frames reading as end of stream;
  - the empty frame.
- **Pipe classes** (`Base`, `SudoBase`, `SudoPosix.StdPipe`): imperative classes over byte buffers.
  - A read stream is a byte sequence with a cursor, and a write stream is a byte sequence that is appended to.
  - Each method is proved against `ReadFrame` and `EncodeFrame`.
  - I/O on a closed stream gives the `ValueError` outcome.
- **Serialization** (`Envelope`): a concrete, invertible stand-in for `pickle`. It covers the messages that cross the pipe: `"CLOSE"`, `"CLOSING"`, `(name, args)` and `(success, result)`.
- **Protocol** (`Protocol`): the helper's session as a function `Serve` of the bytes it reads, and how the caller interprets one reply. Its proved properties are:
  - "CLOSE" ends the session with exactly one "CLOSING";
  - end of stream, or an empty request, ends it silently;
  - every call frame gets exactly one reply, and the loop goes on;
  - a remote call has the outcome of a direct call.
- **SudoProxy** (`Proxy`): the class with `start`, `close`, `terminate`, attribute lookup with wrapper caching, and `run`. The `while True` loop of `run` is proved to write exactly the replies `Serve` gives, one frame each, and to close the pipe on every way out once "READY" is written.
- **Launchers**:
  - `find_exe` (`PathSearch`);
  - `has_root` and `can_get_root`, the password line and the argv check of `run_proxy_startup` (`Launcher`);
  - the sudo command lines of `sudo_posix.py` and `posix.py`, and the one-byte `@` handshake of `posix.py` (`SudoPosix`, `Posix`);
  - the FIFO pipe of `sudo_unix.py`, with its role swap, its open order and its close (a no-op once both descriptors were closed, `EBADF` when a half-open end is closed again) over a modelled file system, plus the ordered choice of a sudo-like agent (`SudoUnix`);
  - the AppleScript quoting and the `osascript` command line of `sudo_osx.py` (`SudoOsx`).

Where the code and its documentation disagree, the model follows the code:

- A second `close()` on a proxy does not succeed quietly. It sends another "CLOSE" to a helper that has gone. In the model the read then meets end of stream and `EOFError` escapes; the program may fail one step earlier, with `BrokenPipeError` when the frame is flushed, which the model does not distinguish.
- When `start` reads end of stream instead of "READY", it calls `close()`. In the model that call's read hits end of stream too, so `EOFError` escapes, not the `RuntimeError("failed to spawn helper app")` the code goes on to raise; here too the program may already fail with `BrokenPipeError` on the flush.
- `start` pickles the proxy before looking for `sudo`. A proxy that has cached a wrapper, or still holds the pipe or process of an earlier start, cannot be pickled, so looking up a proxied method before `start`, or starting twice, makes `start` fail.
- `posix.py` and `base.py` form a second launcher that `__init__.py` does not wire in. It is modelled as written, next to the wired `sudo_posix.py`.

## Model

| member | source | states |
|---|---|---|
| Bytes.Pack32 | src/runas/base.py:80 | `struct.pack("I", n)` of a length below 2^32 is exactly four bytes |
| Bytes.Unpack32 | src/runas/base.py:69 | unpacking four bytes gives an unsigned 32-bit length |
| Bytes.UnpackPack | src/runas/base.py:69-80 | unpacking a packed length gives the length back |
| Bytes.PackUnpack | src/runas/base.py:69-80 | every four-byte word is the packing of the length it unpacks to |
| Bytes.PackInjective | src/runas/base.py:80 | distinct lengths have distinct length words |
| Bytes.Take | src/runas/base.py:47-48 | `_read(n)` returns the first min(n, remaining) unread bytes |
| Framing.ReadFrame | src/runas/base.py:61-73 | `read()` consumes no more than the stream holds; a payload consumes its length word and exactly the announced bytes; end of stream consumes the rest |
| Framing.FrameRoundTrip | src/runas/base.py:61-81 | reading the bytes `write(d)` produced, whatever follows them, returns `d` and consumes exactly 4 + \|d\| bytes |
| Framing.ReadFrameIsEncoded | src/runas/base.py:61-81 | every payload `read()` returns was framed exactly as `write` frames it |
| Framing.ShortPrefixIsEnd | src/runas/base.py:66-68 | fewer than four bytes left gives `EOFError` |
| Framing.ShortBodyIsEnd | src/runas/base.py:69-72 | a length word announcing more bytes than remain gives `EOFError` and no partial data |
| Framing.TruncatedFrameIsEnd | src/runas/base.py:61-73 | any strict prefix of a frame reads as end of stream |
| Framing.EmptyPayloadIsNotEnd | src/runas/base.py:69-73 | a zero-length payload is read as empty bytes, not as end of stream |
| Framing.FramesCons | src/runas/base.py:75-81 | the bytes of a run of writes are the first frame followed by the rest |
| Framing.ReadAllFrames | src/runas/base.py:61-81 | k writes read back until end of stream give the k payloads in order |
| Base.StdPipe.constructor | src/runas/base.py:43-45 | a new pipe holds an unread read stream and the given write stream, both open |
| Base.StdPipe.RawRead | src/runas/base.py:47-48 | `_read(size)` returns `Take` of the unread bytes and advances the cursor by as many |
| Base.StdPipe.RawWrite | src/runas/base.py:50-52 | `_write` appends the data and flushes it, so nothing stays buffered |
| Base.StdPipe.Read | src/runas/base.py:61-73 | `read()` yields what `ReadFrame` gives of the unread bytes and advances by its count; a closed stream gives the closed-file error and reads nothing |
| Base.StdPipe.Write | src/runas/base.py:75-81 | `write(d)` appends exactly `EncodeFrame(d)`; an oversize `d` or a closed stream appends nothing |
| Base.StdPipe.Close | src/runas/base.py:54-56 | `close()` closes both streams |
| Base.Transfer | src/runas/base.py:61-81 | one frame written on one pipe and carried to another is read back as `d`, and then end of stream follows |
| SudoBase.StringPipe.constructor | src/runas/sudo_base.py:47-48 | a new pipe is not connected |
| SudoBase.StringPipe.Over | src/runas/sudo_posix.py:42-44 | a subclass that skips the base initialiser starts over its streams with `connected` unset |
| SudoBase.StringPipe.RawRead | src/runas/sudo_posix.py:46-47 | the read hook, as the pipe over the child's streams defines it, returns `Take` of the unread bytes |
| SudoBase.StringPipe.RawWrite | src/runas/sudo_posix.py:49-51 | the write hook, as the pipe over the child's streams defines it, appends the data and flushes it |
| SudoBase.StringPipe.Close | src/runas/sudo_base.py:59-60 | `close()` clears `connected`, whatever it was |
| SudoBase.StringPipe.Read | src/runas/sudo_base.py:62-74 | `read()` yields what `ReadFrame` gives of the unread bytes |
| SudoBase.StringPipe.Write | src/runas/sudo_base.py:76-82 | `write(d)` appends exactly the length word and `d`; an oversize `d` appends nothing |
| SudoPosix.StdPipe.constructor | src/runas/sudo_posix.py:42-44 | the pipe reads the given stream and writes the other, both open |
| SudoPosix.StdPipe.Read | src/runas/sudo_base.py:62-74 | the inherited `read()` over `_read` on the read stream: `ReadFrame` while it is open, the closed-file error once it is closed |
| SudoPosix.StdPipe.Write | src/runas/sudo_base.py:76-82 | the inherited `write(d)`: the frame when it fits and the stream is open, nothing otherwise |
| SudoPosix.StdPipe.Close | src/runas/sudo_posix.py:53-56 | `close()` clears `connected` through the base class, then closes both streams |
| SudoPosix.SpawnSudo | src/runas/sudo_posix.py:59-84 | no `sudo` on the search path spawns nothing; otherwise the command is `sudo -k -u user -S interp -c code FLAG pathBlob proxyBlob`, the password line goes to the helper's stdin, and the pipe reads its stdout and writes that stdin |
| SudoPosix.SpawnedHelperStarts | src/runas/sudo_posix.py:87-94 | the interpreter started by `spawn_sudo` sees the flag and reads back the two blobs |
| Launcher.HasRoot | src/runas/sudo_posix.py:16-18 | `has_root()` holds exactly when the effective user id is 0 |
| Launcher.CanGetRoot | src/runas/sudo_posix.py:21-27 | `can_get_root()` is always true |
| Launcher.EncodeChar | src/runas/sudo_posix.py:82 | UTF-8 uses one to four bytes, one byte for ASCII and only high bytes otherwise |
| Launcher.Utf8 | src/runas/sudo_posix.py:82 | `encode("utf8")` is at least as long as the text |
| Launcher.FirstLine | src/runas/sudo_posix.py:82 | the line `sudo -S` reads is a newline-free prefix of its input |
| Launcher.Utf8Newline | src/runas/sudo_posix.py:82 | the encoded password holds a newline byte exactly when the password holds a newline |
| Launcher.FirstLineOfLine | src/runas/sudo_posix.py:82 | the line of a newline-free text followed by a newline is that text |
| Launcher.PasswordIsFirstLine | src/runas/sudo_posix.py:82 | the agent reads back exactly the password when it has no newline, and something else when it has one |
| Launcher.StartupAction | src/runas/sudo_posix.py:89-93 | the helper runs exactly when `argv[1]` is the flag; it then reads the blobs at `argv[2..]`, and a missing blob is an error |
| Launcher.HelperCommandRecognised | src/runas/sudo_posix.py:61-94 | the argv of `agent + [interp, "-c", code, FLAG] + blobs` is recognised with those blobs |
| Text.Split | src/runas/sudo_posix.py:31 | `split(":")` gives one separator-free piece more than there are separators |
| Text.JoinSplit | src/runas/sudo_posix.py:31 | joining the pieces of a split gives the string back |
| Text.SplitJoin | src/runas/sudo_posix.py:31 | splitting a join of separator-free pieces gives the pieces back |
| Text.SplitWord | src/runas/sudo_osx.py:19-20 | a separator-free word in front joins the first piece of the rest |
| PathSearch.JoinPath | src/runas/sudo_posix.py:35 | `os.path.join` with an absolute name is that name |
| PathSearch.AfterLastSlash | src/runas/sudo_posix.py:33 | the split point of `dirname` follows the last separator, with none after it |
| PathSearch.StripTrailingSlashes | src/runas/sudo_posix.py:33 | stripping gives a prefix that does not end with a separator |
| PathSearch.DirNameJoinPath | src/runas/sudo_posix.py:33-35 | `dirname(join(dir, name))` is `dir` for a plain name |
| PathSearch.LastSlashBeforeName | src/runas/sudo_posix.py:33 | in `dir/ + name` the last separator is the one before the name |
| PathSearch.DefaultDirs | src/runas/sudo_posix.py:31 | the default `PATH` is `/bin` then `/usr/bin` |
| PathSearch.SearchDirs | src/runas/sudo_posix.py:31-33 | at least one directory is searched |
| PathSearch.FirstHitIsFirst | src/runas/sudo_posix.py:34-38 | nothing is found exactly when no directory holds the name; otherwise the hit is that of the first directory holding it |
| PathSearch.FrozenDirLast | src/runas/sudo_posix.py:31-33 | when frozen, the interpreter's directory comes last, after the split `PATH` |
| PathSearch.FindExe | src/runas/posix.py:28-36 | the loop returns `[first hit] + args`, or `None` when there is no hit |
| Posix.Process.constructor | src/runas/posix.py:59-63 | the spawned agent has the command line and three open pipes, and has not been killed |
| Posix.AcceptedIsFirstByte | src/runas/posix.py:67-69 | the handshake accepts exactly when the first stderr byte is `@` |
| Posix.SpawnSudo | src/runas/posix.py:39-75 | no `sudo` gives "no sudo found" before spawning; the command is `sudo -p "" -k -u user -S interp -c code FLAG blobs`; stdin gets the password line and stderr is closed; without `@`, stdin and stdout are closed, the agent is killed and "wrong password" results; with `@`, the pipe reads stdout and writes stdin |
| Posix.ProxyStartup | src/runas/posix.py:78-87 | `@` is written whatever the argv, then the argv check of two blobs |
| Posix.HelperPassesHandshake | src/runas/posix.py:67-81 | a started helper's stderr passes the handshake whatever follows the `@`; an agent that starts nothing fails it |
| Posix.SpawnedHelperStarts | src/runas/posix.py:41-87 | the helper started by `spawn_sudo` recognises itself and reads the two blobs |
| Envelope.Pickle | src/runas/__init__.py:87 | a pickled message is never empty |
| Envelope.PickleRoundTrip | src/runas/__init__.py:105 | unpickling a pickled message gives the message back |
| Envelope.PickleInjective | src/runas/__init__.py:105-106 | distinct messages pickle to distinct bytes |
| Protocol.Handle | src/runas/__init__.py:105-119 | a reply the helper writes fits its frame; a call is answered with a `(success, result)` pair; "CLOSE" is answered with "CLOSING"; the loop stops quietly exactly when the payload is empty, since unpickling it raises `EOFError` |
| Protocol.ServeBounds | src/runas/__init__.py:98-121 | every reply of a session fits its frame, and the helper never reads past its input |
| Protocol.OutputIsTranscript | src/runas/__init__.py:103-117 | the bytes the loop writes are the session's replies, one frame each, in order |
| Protocol.HandleCall | src/runas/__init__.py:110-117 | a decoded call is answered with the dispatched method's result or exception |
| Protocol.ServeStep | src/runas/__init__.py:103-117 | an answered frame is followed by the session over the bytes after it |
| Protocol.CallThenContinue | src/runas/__init__.py:110-117 | a call frame gets exactly one reply, and the loop goes on over the bytes after it |
| Protocol.RemoteCallMatchesDirectCall | src/runas/__init__.py:110-138 | the helper's reply to a call, read back by the wrapper, has the outcome of calling the method directly |
| Protocol.CloseEndsSession | src/runas/__init__.py:106-108 | "CLOSE" is answered with one "CLOSING", nothing after it is read, and the session ends |
| Protocol.EndOfStreamEndsSilently | src/runas/__init__.py:118-119 | end of stream ends the session without a reply |
| Protocol.EmptyFrameEndsSilently | src/runas/__init__.py:105-119 | a zero-length request frame ends the session like end of stream: no reply, nothing written, nothing read after the frame |
| Protocol.ClosingOnlyAtEnd | src/runas/__init__.py:103-108 | whatever the input, "CLOSING" is the last reply exactly when the session ends by "CLOSE", and it is never written earlier |
| Proxy.SudoProxy.constructor | src/runas/__init__.py:65-70 | a new proxy is not closed and has no pipe, no process and no cached wrapper |
| Proxy.SudoProxy.Close | src/runas/__init__.py:86-89 | `close()` writes the "CLOSE" frame and reads one frame. It is closed only when a frame arrives. With no pipe, a closed stream, or end of stream it fails with `AttributeError`, `ValueError` or `EOFError` |
| Proxy.SudoProxy.Terminate | src/runas/__init__.py:91-96 | `terminate()` closes first only if not closed, and a failing close stops it; each way `close()` can fail (no pipe, a closed stream, end of stream) is propagated with the pipe kept and nothing waited for; otherwise it closes the pipe, drops it, and waits for the process, failing with `AttributeError` only when there is no process |
| Proxy.SudoProxy.GetAttr | src/runas/__init__.py:123-141 | the proxy's own attributes are found directly; a cached wrapper is returned again; a `_` name or one the target lacks raises `AttributeError` and nothing is cached; otherwise a wrapper over the current pipe is made and cached |
| Proxy.SudoProxy.Start | src/runas/__init__.py:72-84 | a proxy that cannot be pickled (a cached wrapper, a pipe or a process) fails before anything is spawned; no `sudo` gives `RuntimeError`; an exited process gives `RuntimeError` before reading; a first frame other than "READY" (end of stream counting as empty) makes it call `close()` and fail; `closed` changes only when that `close()` succeeds |
| Proxy.SudoProxy.Run | src/runas/__init__.py:98-121 | `run` writes "READY" first, then exactly the frames of `Serve`'s replies; it reads exactly the bytes `Serve` consumes, ends as `Serve` ends, and leaves the pipe closed on every path after "READY" is written; a failed "READY" write leaves the pipe as it was |
| Proxy.SudoProxy.ServeLoop | src/runas/__init__.py:103-119 | the `while True` loop ends as `Serve` says, reads what it consumes, and writes its replies' frames |
| Proxy.SudoProxy.HandleNext | src/runas/__init__.py:104-119 | one pass reads one request; end of stream or an empty request ends the loop quietly; otherwise it either ends the session as `Serve` does, or answers it and leaves the rest of `Serve` to the bytes after the frame |
| Proxy.SudoProxy.AnswerRequest | src/runas/__init__.py:106-117 | a decoded request gets the reply `Respond` gives; "CLOSE" stops the loop, and an undecodable request or an oversize reply escapes |
| Proxy.ServeOutput | src/runas/__init__.py:103-119 | the first step of the session: end of stream or an empty request (a quiet end), an escaping error, "CLOSING" and stop, or one reply followed by the rest |
| Proxy.Invoke | src/runas/__init__.py:132-138 | a wrapper call writes one `(name, args)` frame and reads one reply; it returns the result or raises the exception, and an empty reply raises `EOFError` as `pickle.loads(b"")` does; no pipe, an oversize call or a closed stream fail without reading |
| Proxy.LookupBlocksStart | src/runas/sudo_posix.py:62 | a wrapper looked up before `start` is cached, so `start` fails to pickle the proxy; the wrapper, holding no pipe, fails with `AttributeError` |
| Proxy.RestartFails | src/runas/sudo_posix.py:62 | after a successful start the proxy holds its pipe and process, so a second `start` fails to pickle it |
| SudoUnix.FileSystem.MakeDir | src/runas/sudo_unix.py:44 | the private directory is created unless the path exists |
| SudoUnix.FileSystem.MakeFifo | src/runas/sudo_unix.py:47-48 | a FIFO with the given mode is created unless the path exists |
| SudoUnix.FileSystem.Open | src/runas/sudo_unix.py:69-73 | opening a missing path fails; otherwise it gives a new descriptor and records it as open |
| SudoUnix.FileSystem.CloseFd | src/runas/sudo_unix.py:88-89 | closing an open descriptor releases it; closing one that is not open fails with `EBADF`; the call is recorded either way |
| SudoUnix.FileSystem.Unlink | src/runas/sudo_unix.py:74 | unlinking removes the path, and fails on a missing path or a directory |
| SudoUnix.FileSystem.ListDir | src/runas/sudo_unix.py:95 | listing gives a directory's entries, and fails on a missing path or a non-directory |
| SudoUnix.FileSystem.RemoveDir | src/runas/sudo_unix.py:96 | removing a directory deletes it, and fails on a missing path or a non-directory |
| SudoUnix.MasterRoles | src/runas/sudo_unix.py:44-46 | the launcher's end reads `tdir/master` and writes `tdir/slave` |
| SudoUnix.Swap | src/runas/sudo_unix.py:58-59 | `connect` keeps the directory and exchanges the read and write names |
| SudoUnix.OpenPlan | src/runas/sudo_unix.py:67-74 | `_open` makes three calls and ends by unlinking its write name |
| SudoUnix.OpensPairUp | src/runas/sudo_unix.py:67-74 | the two ends open "master" first (one reading, one writing), then "slave" the other way round, and between them unlink both FIFOs |
| SudoUnix.FifoPaths | src/runas/sudo_unix.py:44-46 | both FIFOs are distinct entries of the directory |
| SudoUnix.SecureStringPipe.constructor | src/runas/sudo_unix.py:39-50 | a new pipe has no descriptors and reads "master"; it makes the directory and two 0o600 FIFOs, in that order |
| SudoUnix.SecureStringPipe.Over | src/runas/sudo_unix.py:49-50 | a pipe over given names takes them as they are, without descriptors |
| SudoUnix.SecureStringPipe.Connect | src/runas/sudo_unix.py:58-59 | the peer end has the same token and the names swapped |
| SudoUnix.SecureStringPipe.Open | src/runas/sudo_unix.py:67-74 | `_open` makes a prefix of its plan; it succeeds exactly when both names exist and the write name can be unlinked, and then holds two descriptors and has removed its write FIFO |
| SudoUnix.SecureStringPipe.Close | src/runas/sudo_unix.py:86-100 | without a read descriptor nothing happens; a descriptor that is no longer open (`EBADF`) or a missing write descriptor (`TypeError`) stops it with both descriptors kept; otherwise it closes both descriptors, clears them, unlinks the write name only if it is a regular file, and removes the directory if it is empty; `ENOENT` is ignored and other errors raise |
| SudoUnix.Unfiled | src/runas/sudo_unix.py:92-93 | the write name is removed exactly when it is a regular file |
| SudoUnix.Tidied | src/runas/sudo_unix.py:94-96 | the directory is removed exactly when it is an empty directory |
| SudoUnix.CloseBoth | src/runas/sudo_unix.py:86-100 | once both ends have opened, closing one end and then the other raises nothing, removes the directory (the second close finds it gone), releases all four descriptors and leaves neither end with one |
| SudoUnix.CloseTwice | src/runas/sudo_unix.py:87-89 | an end without a write descriptor keeps its read descriptor after the `TypeError`, so a second `close()` closes it again and fails with `EBADF` |
| SudoUnix.Agents | src/runas/sudo_unix.py:123-135 | with a display there are five candidates, `sudo` last; without one only `sudo` |
| SudoUnix.Lookup | src/runas/sudo_unix.py:103-111 | `find_exe` finds nothing exactly when no directory holds the name |
| SudoUnix.FirstAgentIsFirst | src/runas/sudo_unix.py:123-135 | the chosen agent is empty exactly when no candidate is found; otherwise it is the command of the first candidate found |
| SudoUnix.NoDisplayMeansSudo | src/runas/sudo_unix.py:124-135 | without `DISPLAY` the agent is `sudo` if found and empty otherwise |
| SudoUnix.ChooseAgent | src/runas/sudo_unix.py:123-135 | the chain of `if sudo is None` fallbacks picks the first candidate found |
| SudoUnix.SpawnSudo | src/runas/sudo_unix.py:114-144 | the command is the chosen agent, the interpreter and the four arguments; the launcher keeps a fresh "master"-reading end, with no descriptors yet, after exactly the private directory and its two FIFOs are made |
| SudoUnix.SpawnedHelperStarts | src/runas/sudo_unix.py:147-153 | the helper started by `spawn_sudo` recognises itself and reads the three blobs |
| SudoOsx.Escape | src/runas/sudo_osx.py:24-30 | the five special characters become a backslash pair, and every other character stays as it is |
| SudoOsx.QuoteApplescript | src/runas/sudo_osx.py:23-31 | the result begins and ends with `"` |
| SudoOsx.EscapeAllLength | src/runas/sudo_osx.py:23-31 | each special character adds one character |
| SudoOsx.QuoteLength | src/runas/sudo_osx.py:23-31 | the quoted length is \|s\| + 2 plus the number of special characters |
| SudoOsx.NoRawControl | src/runas/sudo_osx.py:23-31 | no raw newline, carriage return or tab is left between the quotes |
| SudoOsx.ReadEscaped | src/runas/sudo_osx.py:23-31 | AppleScript reads the escaped text back as `s`, ending at the closing quote |
| SudoOsx.QuotedLiteral | src/runas/sudo_osx.py:23-31 | the quoted string is read back as `s` whatever follows it |
| SudoOsx.QuoteEach | src/runas/sudo_osx.py:19-20 | each argument is quoted separately, in order |
| SudoOsx.QuoteShellWords | src/runas/sudo_osx.py:19-20 | when no quoted argument holds a space, splitting on spaces gives the quoted arguments back |
| SudoOsx.OsascriptArgv | src/runas/sudo_osx.py:48-56 | the command is `osascript -e text` |
| SudoOsx.ScriptReadsBack | src/runas/sudo_osx.py:48-56 | AppleScript reads the shell command back exactly, whatever the display name |
| SudoOsx.PromptText | src/runas/sudo_osx.py:51-56 | after the prompt's opening quote comes the display name as it is, then a quote and "with" with no space |
| SudoOsx.PlainPromptReadsBack | src/runas/sudo_osx.py:51-56 | a display name without special characters is read back as the prompt |
| SudoOsx.QuoteInNameEndsPrompt | src/runas/sudo_osx.py:51-56 | a `"` in the unescaped display name ends the prompt early |
| SudoOsx.SpawnSudo | src/runas/sudo_osx.py:34-63 | the script file holds the space-joined helper command with the code in single quotes; `osascript` gets the AppleScript that runs `sh script`; the launcher keeps the "master"-reading FIFO end, with no descriptors yet, after the private directory and both FIFOs are made |

## Left out

- `pickle` and `base64` (`b64pickle`, `b64unpickle`, `pickle.dumps`/`loads`) serialise arbitrary object graphs. They are replaced by the `Envelope` encoding of the messages the protocol sends. The blobs on the command line are opaque strings.
- Values and exceptions crossing the pipe are opaque byte blobs or an (exception class, message) pair. `raise result` on a non-exception is the `TypeError` outcome. Other Python exceptions, and exceptions from `BaseException` that are not `Exception`, are not modelled.
- The target's methods are total functions from arguments to a result or an exception. Their side effects, including the `target.sudo_proxy` back-reference `run` sets, are not modelled.
- `struct "I"` uses the host's native byte order and size. It is modelled as four little-endian bytes, since both ends of the pipe run on one host.
- The following are parameters: `subprocess.Popen`, what the child writes, `proc.poll()` (the `exited` flag), `sys.executable`, `sys.argv`, `os.environ` and the set of existing paths.
  - `proc.wait()` is a flag.
  - `os.geteuid()` is an argument.
  - In `sudo_unix.py` and `sudo_osx.py` the spawned process is its command line only.
- `sys.exit`, `os.fdopen`, `flush` failures and partial writes are not modelled.
- Blocking and deadlock of FIFO opens, concurrency between the two processes, and `__del__` finalisers are not modelled. Only the order of the opens is recorded, and `OpensPairUp` shows the orders match.
- `base.SecureStringPipe`, the superclass `sudo_unix.py` names, is not defined in `sudo_base.py`. `token` is kept as an opaque value, the superclass `close` does nothing, and `_read`/`_write` over the descriptors are not modelled. `_recover` is not modelled either.
- SudoBase.StringPipe.RawRead: in `sudo_base.py` the hook raises `NotImplementedError`; the model gives it the reading of the only subclass, `StdPipe` in `sudo_posix.py`, and never uses the base class on its own.
- SudoBase.StringPipe.RawWrite: likewise, the base hook raises `NotImplementedError`, and the model gives it the subclass's write-and-flush.
- Proxy.SudoProxy.Start: every way `pickle.dumps` of the proxy can fail (`PicklingError` for a cached wrapper, `TypeError` for the pipe's files or the process) is the one outcome `PicklingError`, and the target itself is taken to be picklable.
- `BrokenPipeError` when a frame is flushed to a helper that has exited is not modelled; the model's next read meets end of stream instead.
- `tempfile.mkdtemp` is a given fresh absolute directory. `tempfile.NamedTemporaryFile` in `sudo_osx.py` is a given file name, with its contents returned.
- `shlex.quote` is a parameter (an uninterpreted function). How the shell and AppleScript then run the script is not modelled, beyond AppleScript's reading of a string literal.
- The darwin import guard of `sudo_osx.py` is left out, and so is `src/runas/win32.py` (foreign Windows calls).
- `functools.wraps` (the wrapper's `__name__` and docstring), dunder attribute lookup, and attributes set on the proxy other than by `__getattr__` are not modelled.
- `SudoPosix.StdPipe.constructor` leaves `connected` unset, as `sudo_posix.py` does, since its initialiser never calls the base one. Reading that unset field, which Python would reject with `AttributeError`, is not modelled.
- Dafny integers are unbounded. The only width the source relies on, 32 bits for the length word, is modelled as the `Oversize` and `StructError` outcomes.
- `setup.py` and `test/test_runas.py` are packaging and a manual test, and are left out.
