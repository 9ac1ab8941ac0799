/** src/runas/sudo_osx.py: on macOS the helper is started through
    `osascript`, whose "do shell script ... with administrator privileges"
    asks for the password itself. The command the helper runs is written to
    a script file; the AppleScript text names that file, quoted first for
    the shell and then as an AppleScript string literal. */
module SudoOsx {
  import opened Wrappers
  import opened Text
  import opened PathSearch
  import opened Launcher
  import SudoUnix

  /** The five characters `quote_applescript` escapes. */
  predicate Special(c: char)
  {
    c == '\n' || c == '\r' || c == '\t' || c == '"' || c == '\\'
  }

  /** `charmap.get(c, c)`: a backslash and a letter for the three control
      characters, a backslash before `"` and `\`, anything else as is. */
  function Escape(c: char): (e: string)
    ensures Special(c) ==> |e| == 2 && e[0] == '\\'
    ensures !Special(c) ==> e == [c]
  {
    if c == '\n' then "\\n"
    else if c == '\r' then "\\r"
    else if c == '\t' then "\\t"
    else if c == '"' then "\\\""
    else if c == '\\' then "\\\\"
    else [c]
  }

  /** The characters' escapes, joined in order. */
  function EscapeAll(s: string): string
  {
    if s == [] then [] else Escape(s[0]) + EscapeAll(s[1..])
  }

  /** `quote_applescript(s)`. */
  function QuoteApplescript(s: string): (q: string)
    ensures |q| >= 2 && q[0] == '"' && q[|q| - 1] == '"'
  {
    "\"" + EscapeAll(s) + "\""
  }

  function Specials(s: string): nat
  {
    if s == [] then 0 else (if Special(s[0]) then 1 else 0) + Specials(s[1..])
  }

  /** Each special character costs one more character; nothing else changes
      length. */
  lemma {:induction false} EscapeAllLength(s: string)
    ensures |EscapeAll(s)| == |s| + Specials(s)
  {
    if s != [] {
      EscapeAllLength(s[1..]);
    }
  }

  lemma QuoteLength(s: string)
    ensures |QuoteApplescript(s)| == |s| + 2 + Specials(s)
  {
    EscapeAllLength(s);
  }

  /** No raw newline, carriage return or tab survives quoting. */
  lemma {:induction false} NoRawControl(s: string)
    ensures forall i :: 0 <= i < |EscapeAll(s)| ==> EscapeAll(s)[i] !in "\n\r\t"
  {
    if s != [] {
      NoRawControl(s[1..]);
      var e := Escape(s[0]);
      forall i | 0 <= i < |EscapeAll(s)|
        ensures EscapeAll(s)[i] !in "\n\r\t"
      {
        if i >= |e| {
          assert EscapeAll(s)[i] == EscapeAll(s[1..])[i - |e|];
        }
      }
    }
  }

  /** The character a backslash followed by `c` stands for inside an
      AppleScript string literal; AppleScript rejects other escapes. */
  function Unescape(c: char): Option<char>
  {
    if c == 'n' then Some('\n')
    else if c == 'r' then Some('\r')
    else if c == 't' then Some('\t')
    else if c == '"' then Some('"')
    else if c == '\\' then Some('\\')
    else None
  }

  /** How AppleScript reads a string literal whose opening quote it has just
      passed: the text up to the first `"` not taken by a backslash, with
      the escapes decoded, and how many characters the literal took,
      closing quote included. */
  function ReadLiteral(t: string): (r: Option<(string, nat)>)
    ensures r.Some? ==> 0 < r.value.1 <= |t| && t[r.value.1 - 1] == '"'
  {
    if t == [] then None
    else if t[0] == '"' then Some(("", 1))
    else if t[0] == '\\' then
      if |t| < 2 then None
      else match (Unescape(t[1]), ReadLiteral(t[2..]))
        case (Some(c), Some((body, n))) => Some(([c] + body, n + 2))
        case _ => None
    else match ReadLiteral(t[1..])
      case Some((body, n)) => Some(([t[0]] + body, n + 1))
      case None => None
  }

  /** One escaped character in front of a literal's remaining text is read
      back as that character. */
  lemma ReadEscapedChar(c: char, tail: string, body: string, n: nat)
    requires ReadLiteral(tail) == Some((body, n))
    ensures ReadLiteral(Escape(c) + tail) == Some(([c] + body, n + |Escape(c)|))
  {
    var t := Escape(c) + tail;
    if Special(c) {
      assert t[0] == '\\' && t[2..] == tail;
      assert Unescape(t[1]) == Some(c);
    } else {
      assert t[0] == c && t[1..] == tail;
    }
  }

  /** Quoting round-trips: AppleScript reads back exactly the quoted text,
      and the literal ends at the closing quote `quote_applescript` put
      there, whatever text follows it. */
  lemma {:induction false} ReadEscaped(s: string, rest: string)
    ensures ReadLiteral(EscapeAll(s) + "\"" + rest) == Some((s, |EscapeAll(s)| + 1))
  {
    var t := EscapeAll(s) + "\"" + rest;
    if s == [] {
      assert t == "\"" + rest;
    } else {
      var tail := EscapeAll(s[1..]) + "\"" + rest;
      assert ReadLiteral(tail) == Some((s[1..], |EscapeAll(s[1..])| + 1)) by {
        ReadEscaped(s[1..], rest);
      }
      assert t == Escape(s[0]) + tail;
      ReadEscapedChar(s[0], tail, s[1..], |EscapeAll(s[1..])| + 1);
      assert [s[0]] + s[1..] == s;
    }
  }

  lemma QuotedLiteral(s: string, rest: string)
    ensures ReadLiteral((QuoteApplescript(s) + rest)[1..]) == Some((s, |QuoteApplescript(s)| - 1))
  {
    assert (QuoteApplescript(s) + rest)[1..] == EscapeAll(s) + "\"" + rest;
    ReadEscaped(s, rest);
  }

  /** `[quote(a) for a in args]`. */
  function QuoteEach(args: seq<string>, quote: string -> string): (qs: seq<string>)
    ensures |qs| == |args|
    ensures forall i :: 0 <= i < |args| ==> qs[i] == quote(args[i])
  {
    if args == [] then [] else [quote(args[0])] + QuoteEach(args[1..], quote)
  }

  /** `quote_shell(args)`: each argument quoted by `shlex.quote` (here the
      parameter `quote`), joined by single spaces; no arguments give the
      empty string. */
  function QuoteShell(args: seq<string>, quote: string -> string): string
  {
    if args == [] then "" else Join(QuoteEach(args, quote), ' ')
  }

  /** When no quoted argument holds a space, splitting the result on spaces
      gives back the quoted arguments one by one, in order. */
  lemma QuoteShellWords(args: seq<string>, quote: string -> string)
    requires args != []
    requires forall i :: 0 <= i < |args| ==> ' ' !in quote(args[i])
    ensures Split(QuoteShell(args, quote), ' ') == QuoteEach(args, quote)
  {
    SplitJoin(QuoteEach(args, quote), ' ');
  }

  const SCRIPT_HEAD: string := "do shell script "
  const PROMPT_HEAD: string := " with prompt \""
  const PROMPT_REST: string := "with administrator privileges without altering line endings"
  const PROMPT_TAIL: string := "\"" + PROMPT_REST

  /** The AppleScript text: the script command quoted twice, then the
      prompt with `display_name` put between quotes as it is. There is no
      space between the prompt's closing quote and "with". */
  function AppleScriptText(command: string, displayName: string): string
  {
    SCRIPT_HEAD + QuoteApplescript(command) + Prompt(displayName)
  }

  /** `with prompt "{msg}"with ...`. */
  function Prompt(displayName: string): string
  {
    PROMPT_HEAD + displayName + PROMPT_TAIL
  }

  /** The `osascript` command line. */
  function OsascriptArgv(scriptName: string, displayName: string, quote: string -> string): (argv: seq<string>)
    ensures |argv| == 3 && argv[0] == "osascript" && argv[1] == "-e"
  {
    ["osascript", "-e", AppleScriptText(QuoteShell(["sh", scriptName], quote), displayName)]
  }

  /** A literal after any `head` is read back whatever follows it. */
  lemma ReadAfter(head: string, s: string, rest: string)
    ensures ReadLiteral((head + QuoteApplescript(s) + rest)[|head| + 1..]) == Some((s, |QuoteApplescript(s)| - 1))
  {
    assert (head + QuoteApplescript(s) + rest)[|head| + 1..] == EscapeAll(s) + "\"" + rest;
    ReadEscaped(s, rest);
  }

  /** The shell command AppleScript is asked to run is exactly the one
      given, whatever it and the display name hold. */
  lemma ScriptReadsBack(command: string, displayName: string)
    ensures ReadLiteral(AppleScriptText(command, displayName)[|SCRIPT_HEAD| + 1..])
         == Some((command, |QuoteApplescript(command)| - 1))
  {
    ReadAfter(SCRIPT_HEAD, command, Prompt(displayName));
  }

  /** Text without special characters is its own escape. */
  lemma {:induction false} PlainUnescaped(s: string)
    requires forall i :: 0 <= i < |s| ==> !Special(s[i])
    ensures EscapeAll(s) == s
  {
    if s != [] {
      PlainUnescaped(s[1..]);
      assert [s[0]] + s[1..] == s;
    }
  }

  /** Where the prompt literal's text starts. */
  function PromptStart(command: string): nat
  {
    |SCRIPT_HEAD| + |QuoteApplescript(command)| + |PROMPT_HEAD|
  }

  lemma PromptText(command: string, displayName: string)
    ensures var text := AppleScriptText(command, displayName);
            PromptStart(command) <= |text| && text[PromptStart(command)..] == displayName + PROMPT_TAIL
  {
    var head := SCRIPT_HEAD + QuoteApplescript(command) + PROMPT_HEAD;
    assert AppleScriptText(command, displayName) == head + (displayName + PROMPT_TAIL);
  }

  /** The display name is put between quotes unescaped. A name without
      special characters is read back as the prompt. */
  lemma PlainPromptReadsBack(command: string, displayName: string)
    requires forall i :: 0 <= i < |displayName| ==> !Special(displayName[i])
    ensures ReadLiteral(AppleScriptText(command, displayName)[PromptStart(command)..])
         == Some((displayName, |displayName| + 1))
  {
    PlainUnescaped(displayName);
    var t := AppleScriptText(command, displayName)[PromptStart(command)..];
    assert t == EscapeAll(displayName) + "\"" + PROMPT_REST by {
      PromptText(command, displayName);
    }
    ReadEscaped(displayName, PROMPT_REST);
  }

  /** But a name holding a `"` ends the prompt literal early, and the rest
      of the name is read as AppleScript: for `a"b` the prompt is `a`. */
  lemma QuoteInNameEndsPrompt(command: string)
    ensures ReadLiteral(AppleScriptText(command, "a\"b")[PromptStart(command)..]) == Some(("a", 2))
  {
    PromptText(command, "a\"b");
    var t := "a\"b" + PROMPT_TAIL;
    assert t[0] == 'a';
    assert t[1..] == "\"b" + PROMPT_TAIL;
    assert ReadLiteral(t[1..]) == Some(("", 1));
    assert ReadLiteral(t) == Some((['a'] + "", 2));
    assert ['a'] + "" == "a";
  }

  /** The interpreter command the script runs. The startup code is wrapped
      in single quotes for the shell that runs the script. */
  const QUOTED_STARTUP_CODE: string := "'" + STARTUP_CODE + "'"

  /** `spawn_sudo(proxy)`: a new FIFO pipe and its peer end as on other
      Unix systems; the command `interp -c 'code' FLAG pathBlob proxyBlob
      pipeBlob` joined by spaces is what the script file holds; and
      `osascript` is run on the AppleScript text that runs the script.
      The file name, the display name and `shlex.quote` are parameters. */
  method SpawnSudo(interp: string, pathBlob: string, proxyBlob: string, pipeBlob: string,
                   scriptName: string, displayName: string, quote: string -> string,
                   token: seq<int>, tdir: string, fs: SudoUnix.FileSystem)
    returns (script: string, argv: seq<string>, pipe: SudoUnix.SecureStringPipe)
    requires tdir != [] && tdir[0] == '/' && tdir[|tdir| - 1] != '/'
    requires tdir !in fs.nodes && SudoUnix.Children(fs.nodes, tdir) == {}
    modifies fs
    ensures script == Join([interp, "-c", QUOTED_STARTUP_CODE, FLAG, pathBlob, proxyBlob, pipeBlob], ' ')
    ensures argv == OsascriptArgv(scriptName, displayName, quote)
    ensures fresh(pipe) && pipe.token == token && pipe.Roles() == SudoUnix.MasterRoles(tdir)
    ensures pipe.rfd.None? && pipe.wfd.None?
    ensures fs.nodes == old(fs.nodes)[tdir := SudoUnix.Directory]
                        [JoinPath(tdir, "master") := SudoUnix.Fifo(SudoUnix.FIFO_MODE)]
                        [JoinPath(tdir, "slave") := SudoUnix.Fifo(SudoUnix.FIFO_MODE)]
    ensures fs.calls == old(fs.calls) + [SudoUnix.SysCall.MakeDir(tdir),
                                         SudoUnix.SysCall.MakeFifo(JoinPath(tdir, "master"), SudoUnix.FIFO_MODE),
                                         SudoUnix.SysCall.MakeFifo(JoinPath(tdir, "slave"), SudoUnix.FIFO_MODE)]
  {
    pipe := new SudoUnix.SecureStringPipe(token, tdir, fs);
    var peer := pipe.Connect();
    var exe := [interp, "-c", QUOTED_STARTUP_CODE];
    exe := exe + [FLAG, pathBlob, proxyBlob, pipeBlob];
    assert exe == [interp, "-c", QUOTED_STARTUP_CODE, FLAG, pathBlob, proxyBlob, pipeBlob];
    script := Join(exe, ' ');
    var args := ["sh", scriptName];
    argv := ["osascript", "-e", AppleScriptText(QuoteShell(args, quote), displayName)];
  }
}
