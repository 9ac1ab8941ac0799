/** src/runas/sudo_posix.py, the launcher `__init__.py` wires in on every
    platform but Windows: a `StringPipe` over the helper's standard streams,
    the `sudo` command line, and the helper's start-up check. */
module SudoPosix {
  import opened Bytes
  import opened Wrappers
  import opened Framing
  import opened SudoBase
  import opened PathSearch
  import opened Launcher

  /** `StdPipe(base.StringPipe)`: the inherited framing over a read stream
      and a write stream. The base-class part is `base`; the streams' open
      state is kept here. Its initialiser never calls the base class's, so
      `connected` is unset until `close`. */
  class StdPipe {
    const base: StringPipe
    var readOpen: bool
    var writeOpen: bool

    ghost predicate Valid()
      reads this, base
    {
      base.Valid()
    }

    /** A pipe over a read stream that will deliver `read` and a write stream
        that already carries `written`. */
    constructor (read: seq<uint8>, written: seq<uint8>)
      ensures Valid() && fresh(base)
      ensures base.input == read && base.cursor == 0 && base.output == written
      ensures readOpen && writeOpen
    {
      base := new StringPipe.Over(read, written);
      readOpen := true;
      writeOpen := true;
    }

    /** `read()`: the base class's framing over `_read`, which reads the
        read stream; reading a closed stream raises `ValueError` at the first
        `_read` and consumes nothing. */
    method Read() returns (r: Received)
      requires Valid()
      modifies base`cursor
      ensures Valid()
      ensures !readOpen ==> r == ClosedFile && base.cursor == old(base.cursor)
      ensures readOpen ==> (r, base.cursor - old(base.cursor)) == ReadFrame(old(base.Unread()))
    {
      if !readOpen {
        return ClosedFile;
      }
      r := base.Read();
    }

    /** `write(d)`: the length word is packed first, so an oversize payload
        writes nothing; on a closed write stream the first `_write` raises
        `ValueError`; otherwise `_write` writes and flushes the length word,
        then `d`. */
    method Write(d: seq<uint8>) returns (r: Sent)
      requires Valid()
      modifies base`output
      ensures Valid()
      ensures r == (if !Fits(d) then Oversize else if !writeOpen then WriteOnClosed else Written)
      ensures base.output == old(base.output) + (if r == Written then EncodeFrame(d) else [])
    {
      if !Fits(d) {
        return Oversize;
      }
      if !writeOpen {
        return WriteOnClosed;
      }
      r := base.Write(d);
    }

    /** `close()`: the base class clears `connected`, then both streams are
        closed; calling it again leaves the same state. */
    method Close()
      requires Valid()
      modifies this`readOpen, this`writeOpen, base`connected
      ensures Valid()
      ensures !base.connected && !readOpen && !writeOpen
    {
      base.Close();
      readOpen := false;
      writeOpen := false;
    }
  }

  /** The spawned process: the command line it was started with. */
  datatype Proc = Proc(argv: seq<string>)

  /** The `sudo` part of the command line: the agent's path, then "-k"
      (forget cached credentials), "-u user", and "-S" (password on stdin). */
  function SudoPrefix(sudo: string, user: string): seq<string>
  {
    [sudo, "-k", "-u", user, "-S"]
  }

  /** `spawn_sudo(proxy, user, password)`. The interpreter path and the two
      pickled blobs are parameters; `output` is what the helper will write
      on its standard output. No `sudo` on the search path raises
      `RuntimeError("no sudo found")` before anything is spawned (`None`
      here). Otherwise the process runs `sudo ... -S interp -c code FLAG
      pathBlob proxyBlob`, the password line goes to its standard input, and
      the returned pipe reads the process's standard output and writes to
      that same standard input. */
  method SpawnSudo(user: string, password: string, interp: string, pathBlob: string, proxyBlob: string,
                   env: Env, existing: set<string>, output: seq<uint8>)
    returns (proc: Option<Proc>, pipe: StdPipe?)
    ensures proc.None? <==> FirstHit(SearchDirs(env), "sudo", existing).None?
    ensures proc.Some? ==>
              proc.value.argv == SudoPrefix(FirstHit(SearchDirs(env), "sudo", existing).value, user)
                                 + [interp, "-c", STARTUP_CODE] + [FLAG, pathBlob, proxyBlob]
    ensures (pipe != null) == proc.Some?
    ensures pipe != null ==>
              fresh(pipe) && fresh(pipe.base) && pipe.Valid() && pipe.readOpen && pipe.writeOpen
              && pipe.base.input == output && pipe.base.cursor == 0
              && pipe.base.output == PasswordLine(password)
  {
    var exe := [interp, "-c", STARTUP_CODE];
    var args := [FLAG, pathBlob, proxyBlob];
    var found := FindExe("sudo", [], env, existing);
    if found.None? {
      return None, null;
    }
    ghost var hit := FirstHit(SearchDirs(env), "sudo", existing).value;
    var sudo := found.value;
    sudo := sudo + ["-k"];
    sudo := sudo + ["-u"];
    sudo := sudo + [user];
    sudo := sudo + ["-S"];
    assert sudo == SudoPrefix(hit, user);
    proc := Some(Proc(sudo + exe + args));
    pipe := new StdPipe(output, PasswordLine(password));
  }

  /** `run_proxy_startup()` on `sys.argv`: run the helper only when the first
      argument is the flag; it then reads the two blobs after it. */
  function ProxyStartup(argv: seq<string>): (r: Startup)
  {
    StartupAction(argv, 2)
  }

  /** The helper started by `spawn_sudo` recognises itself: the agent runs
      `interp -c code FLAG pathBlob proxyBlob`, whose argv after `-c` is
      accepted and yields the two blobs in order. */
  lemma SpawnedHelperStarts(sudo: string, user: string, interp: string, pathBlob: string, proxyBlob: string)
    ensures var argv := SudoPrefix(sudo, user) + [interp, "-c", STARTUP_CODE] + [FLAG, pathBlob, proxyBlob];
            ProxyStartup(InterpreterArgv(argv[|SudoPrefix(sudo, user)| + 3..])) == RunHelper([pathBlob, proxyBlob])
  {
    var argv := SudoPrefix(sudo, user) + [interp, "-c", STARTUP_CODE] + [FLAG, pathBlob, proxyBlob];
    assert [FLAG, pathBlob, proxyBlob] == [FLAG] + [pathBlob, proxyBlob];
    HelperCommandRecognised(argv, SudoPrefix(sudo, user), interp, [pathBlob, proxyBlob]);
  }
}
