/** What the launchers of src/runas/posix.py, src/runas/sudo_posix.py and
    src/runas/sudo_unix.py share: the command-line flag that marks a helper,
    the interpreter code that starts it, the password line written to the
    privilege agent, the root checks, and the helper's argv check. */
module Launcher {
  import opened Bytes

  /** The flag that tells `run_proxy_startup` it is a helper. */
  const FLAG: string := "--runas-spawn-sudo"

  /** The code the helper's interpreter runs (`-c`). */
  const STARTUP_CODE: string := "import runas; runas.run_proxy_startup()"

  /** `has_root()`: the effective user id is root's. */
  function HasRoot(euid: int): (r: bool)
    ensures r <==> euid == 0
  {
    euid == 0
  }

  /** `can_get_root()`: the sudoers file cannot be inspected, so the answer
      is always yes. */
  function CanGetRoot(): (r: bool)
    ensures r
  {
    true
  }

  /** The UTF-8 encoding of one Unicode scalar value. */
  function EncodeChar(c: char): (b: seq<uint8>)
    ensures 1 <= |b| <= 4
    ensures c as int < 0x80 ==> b == [c as int as uint8]
    ensures c as int >= 0x80 ==> forall i :: 0 <= i < |b| ==> b[i] >= 0x80
  {
    var n := c as int;
    if n < 0x80 then [n as uint8]
    else if n < 0x800 then [(0xC0 + n / 0x40) as uint8, (0x80 + n % 0x40) as uint8]
    else if n < 0x1_0000 then
      [(0xE0 + n / 0x1000) as uint8, (0x80 + n / 0x40 % 0x40) as uint8, (0x80 + n % 0x40) as uint8]
    else
      [(0xF0 + n / 0x4_0000) as uint8, (0x80 + n / 0x1000 % 0x40) as uint8,
       (0x80 + n / 0x40 % 0x40) as uint8, (0x80 + n % 0x40) as uint8]
  }

  /** `s.encode("utf8")`. */
  function Utf8(s: string): (b: seq<uint8>)
    ensures |b| >= |s|
  {
    if s == [] then [] else EncodeChar(s[0]) + Utf8(s[1..])
  }

  /** `password.encode("utf8") + b"\n"`: what the launcher writes to the
      agent's standard input before anything else. */
  function PasswordLine(password: string): seq<uint8>
  {
    Utf8(password) + [10]
  }

  /** The bytes before the first newline: what a reader of one line (the
      agent reading its password with `-S`) takes. */
  function FirstLine(b: seq<uint8>): (line: seq<uint8>)
    ensures |line| <= |b| && line == b[..|line|]
    ensures 10 !in line
  {
    if b == [] || b[0] == 10 then [] else [b[0]] + FirstLine(b[1..])
  }

  /** A newline in the text is the only source of a newline byte in its
      encoding. */
  lemma {:induction false} Utf8Newline(s: string)
    ensures 10 in Utf8(s) <==> '\n' in s
  {
    if s != [] {
      Utf8Newline(s[1..]);
      assert Utf8(s) == EncodeChar(s[0]) + Utf8(s[1..]);
      assert 10 in EncodeChar(s[0]) <==> s[0] == '\n';
      assert '\n' in s <==> s[0] == '\n' || '\n' in s[1..];
    }
  }

  lemma {:induction false} FirstLineOfLine(b: seq<uint8>, rest: seq<uint8>)
    requires 10 !in b
    ensures FirstLine(b + [10] + rest) == b
  {
    if b != [] {
      assert (b + [10] + rest)[1..] == b[1..] + [10] + rest;
      FirstLineOfLine(b[1..], rest);
    }
  }

  /** The agent reads back exactly the password, whatever the launcher
      writes after the password line, unless the password itself contains
      a newline, in which case it reads only the part before it. */
  lemma PasswordIsFirstLine(password: string, rest: seq<uint8>)
    ensures '\n' !in password ==> FirstLine(PasswordLine(password) + rest) == Utf8(password)
    ensures '\n' in password ==> FirstLine(PasswordLine(password) + rest) != Utf8(password)
  {
    Utf8Newline(password);
    if '\n' !in password {
      FirstLineOfLine(Utf8(password), rest);
    }
  }

  /** What `run_proxy_startup` does with its argv once any side effects
      before the check are done. */
  datatype Startup =
    | NotHelper                     // argv[1] is not the flag: return None
    | MissingArgument               // the flag without its blobs: IndexError
    | RunHelper(blobs: seq<string>) // unpickle the blobs, run the proxy, exit(0)

  /** The check `len(sys.argv) > 1 and sys.argv[1] == FLAG`, followed by
      reading the `count` blobs after the flag. */
  function StartupAction(argv: seq<string>, count: nat): (r: Startup)
    ensures r.RunHelper? ==> |argv| >= 2 + count && r.blobs == argv[2..2 + count]
    ensures r.NotHelper? <==> !(|argv| > 1 && argv[1] == FLAG)
    ensures r.MissingArgument? <==> |argv| > 1 && argv[1] == FLAG && |argv| < 2 + count
  {
    if |argv| > 1 && argv[1] == FLAG then
      if |argv| < 2 + count then MissingArgument else RunHelper(argv[2..2 + count])
    else NotHelper
  }

  /** `sys.argv` of an interpreter started as `interp -c code a1 ... an`:
      `["-c", a1, ..., an]`. */
  function InterpreterArgv(args: seq<string>): seq<string>
  {
    ["-c"] + args
  }

  /** The interpreter run by the agent gets the flag and the blobs as its
      arguments, so the helper recognises the command line the launcher
      built, whatever the agent's own part in front of it. */
  lemma HelperCommandRecognised(argv: seq<string>, agent: seq<string>, interp: string, blobs: seq<string>)
    requires argv == agent + [interp, "-c", STARTUP_CODE] + [FLAG] + blobs
    ensures StartupAction(InterpreterArgv(argv[|agent| + 3..]), |blobs|) == RunHelper(blobs)
  {
    assert argv[|agent| + 3..] == [FLAG] + blobs;
    assert InterpreterArgv([FLAG] + blobs)[2..2 + |blobs|] == blobs;
  }
}
