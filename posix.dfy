/** src/runas/posix.py, the newer launcher built on src/runas/base.py: the
    same search for `sudo`, a command line that also silences the agent's
    prompt, and a one-byte handshake on the agent's standard error that tells
    a started helper from a rejected password. */
module Posix {
  import opened Bytes
  import opened Wrappers
  import opened Framing
  import Base
  import opened PathSearch
  import opened Launcher

  /** `b"@"`, the byte a started helper writes first on its standard error. */
  const AT: uint8 := 64

  /** The spawned agent process as the launcher sees it: its command line,
      what was written to its standard input, which of its three streams the
      launcher still holds open, and whether it was killed. */
  class Process {
    const argv: seq<string>
    var stdin: seq<uint8>
    var stdinOpen: bool
    var stdoutOpen: bool
    var stderrOpen: bool
    var killed: bool

    /** `subprocess.Popen(argv, stdin=PIPE, stdout=PIPE, stderr=PIPE)`. */
    constructor (argv: seq<string>)
      ensures this.argv == argv && stdin == []
      ensures stdinOpen && stdoutOpen && stderrOpen && !killed
    {
      this.argv := argv;
      stdin := [];
      stdinOpen := true;
      stdoutOpen := true;
      stderrOpen := true;
      killed := false;
    }
  }

  /** How `spawn_sudo` ends: `RuntimeError("no sudo found")` before anything
      is spawned, `RuntimeError("wrong password")` after killing the agent,
      or the process and a pipe to the helper. */
  datatype Launch = NoSudo | WrongPassword | Started

  /** The agent's part of the command line: its path, then `-p ""` (an empty
      prompt), `-k`, `-u user` and `-S`, in that order. */
  function SudoPrefix(sudo: string, user: string): seq<string>
  {
    [sudo, "-p", "", "-k", "-u", user, "-S"]
  }

  /** The handshake: the one byte `proc.stderr.read(1)` returns when the
      agent's standard error will deliver `errors`. */
  predicate Accepted(errors: seq<uint8>)
  {
    Take(errors, 1) == [AT]
  }

  lemma AcceptedIsFirstByte(errors: seq<uint8>)
    ensures Accepted(errors) <==> |errors| >= 1 && errors[0] == AT
  {
    if |errors| >= 1 {
      assert Take(errors, 1) == [errors[0]];
    }
  }

  /** `spawn_sudo(proxy, user, password, domain)`. `domain` is accepted and
      unused. The interpreter path and the two pickled blobs are parameters;
      `errors` and `output` are what the agent's standard error and standard
      output will deliver. */
  method SpawnSudo(user: string, password: string, domain: string, interp: string,
                   pathBlob: string, proxyBlob: string, env: Env, existing: set<string>,
                   errors: seq<uint8>, output: seq<uint8>)
    returns (r: Launch, proc: Process?, pipe: Base.StdPipe?)
    ensures r == NoSudo <==> FirstHit(SearchDirs(env), "sudo", existing).None?
    ensures r == NoSudo ==> proc == null && pipe == null
    ensures r != NoSudo ==>
              proc != null && fresh(proc)
              && proc.argv == SudoPrefix(FirstHit(SearchDirs(env), "sudo", existing).value, user)
                              + [interp, "-c", STARTUP_CODE] + [FLAG, pathBlob, proxyBlob]
              && proc.stdin == PasswordLine(password)
              && !proc.stderrOpen
    ensures r != NoSudo ==> (r == Started <==> Accepted(errors))
    ensures r == WrongPassword ==>
              pipe == null && !proc.stdinOpen && !proc.stdoutOpen && proc.killed
    ensures r == Started ==>
              proc.stdinOpen && proc.stdoutOpen && !proc.killed
              && pipe != null && fresh(pipe) && pipe.Valid() && pipe.readOpen && pipe.writeOpen
              && pipe.input == output && pipe.cursor == 0 && pipe.output == proc.stdin
  {
    var exe := [interp, "-c", STARTUP_CODE];
    var args := [FLAG, pathBlob, proxyBlob];
    var found := FindExe("sudo", [], env, existing);
    if found.None? {
      return NoSudo, null, null;
    }
    ghost var hit := FirstHit(SearchDirs(env), "sudo", existing).value;
    var sudo := found.value;
    sudo := sudo + ["-p"];
    sudo := sudo + [""];
    sudo := sudo + ["-k"];
    sudo := sudo + ["-u"];
    sudo := sudo + [user];
    sudo := sudo + ["-S"];
    assert sudo == SudoPrefix(hit, user);
    proc := new Process(sudo + exe + args);
    proc.stdin := proc.stdin + PasswordLine(password);
    var result := Take(errors, 1);
    proc.stderrOpen := false;
    if result != [AT] {
      proc.stdinOpen := false;
      proc.stdoutOpen := false;
      proc.killed := true;
      return WrongPassword, proc, null;
    }
    pipe := new Base.StdPipe(output, proc.stdin);
    r := Started;
  }

  /** `run_proxy_startup()`: "@" goes to standard error before the argv is
      looked at, so it is written whatever the argv holds. */
  function ProxyStartup(argv: seq<string>): (r: (seq<uint8>, Startup))
    ensures r.0 == [AT]
    ensures r.1 == StartupAction(argv, 2)
  {
    ([AT], StartupAction(argv, 2))
  }

  /** The two halves of the handshake agree: once the agent has accepted
      the password and started the helper, the first byte the launcher reads
      from the agent's standard error is the helper's "@", whatever the
      helper writes after it. A helper that is never started writes nothing,
      and the launcher then reports a wrong password. */
  lemma HelperPassesHandshake(argv: seq<string>, later: seq<uint8>)
    ensures Accepted(ProxyStartup(argv).0 + later)
    ensures !Accepted([])
  {
    assert (ProxyStartup(argv).0 + later)[..1] == [AT];
  }

  /** The helper started by `spawn_sudo` recognises itself and reads the two
      blobs in order. */
  lemma SpawnedHelperStarts(sudo: string, user: string, interp: string, pathBlob: string, proxyBlob: string)
    ensures var argv := SudoPrefix(sudo, user) + [interp, "-c", STARTUP_CODE] + [FLAG, pathBlob, proxyBlob];
            ProxyStartup(InterpreterArgv(argv[|SudoPrefix(sudo, user)| + 3..])).1 == RunHelper([pathBlob, proxyBlob])
  {
    var argv := SudoPrefix(sudo, user) + [interp, "-c", STARTUP_CODE] + [FLAG, pathBlob, proxyBlob];
    assert [FLAG, pathBlob, proxyBlob] == [FLAG] + [pathBlob, proxyBlob];
    HelperCommandRecognised(argv, SudoPrefix(sudo, user), interp, [pathBlob, proxyBlob]);
  }
}
