/** `find_exe(name, *args)`, defined identically in src/runas/posix.py,
    src/runas/sudo_posix.py and src/runas/sudo_unix.py: split `PATH` on
    colons (default "/bin:/usr/bin"), append the interpreter's directory when
    running frozen, and return `[dir/name] + args` for the first directory
    where that path exists. The file system is the set of paths for which
    `os.path.exists` holds. */
module PathSearch {
  import opened Wrappers
  import opened Text

  /** The value used when `PATH` is not set. */
  const DEFAULT_PATH: string := "/bin:/usr/bin"

  /** What the default splits into. */
  const DEFAULT_DIRS: seq<string> := ["/bin", "/usr/bin"]

  /** What `find_exe` reads from the process: `os.environ.get("PATH")`,
      `getattr(sys, "frozen", False)` and `sys.executable`. */
  datatype Env = Env(path: Option<string>, frozen: bool, executable: string)

  /** `os.path.join(dir, name)` (posixpath): an absolute `name` replaces
      `dir`; otherwise a separator is inserted unless `dir` is empty or
      already ends with one. */
  function JoinPath(dir: string, name: string): (p: string)
    ensures |name| > 0 && name[0] == '/' ==> p == name
  {
    if |name| > 0 && name[0] == '/' then name
    else if dir == [] || dir[|dir| - 1] == '/' then dir + name
    else dir + "/" + name
  }

  /** Index just past the last separator, or 0 if there is none
      (`p.rfind("/") + 1`). */
  function AfterLastSlash(p: string): (i: nat)
    ensures i <= |p|
    ensures i > 0 ==> p[i - 1] == '/'
    ensures forall j :: i <= j < |p| ==> p[j] != '/'
  {
    if p == [] then 0
    else if p[|p| - 1] == '/' then |p|
    else AfterLastSlash(p[..|p| - 1])
  }

  function StripTrailingSlashes(s: string): (r: string)
    ensures |r| <= |s| && r == s[..|r|]
    ensures r == [] || r[|r| - 1] != '/'
  {
    if s != [] && s[|s| - 1] == '/' then StripTrailingSlashes(s[..|s| - 1]) else s
  }

  predicate AllSlashes(s: string)
  {
    forall i :: 0 <= i < |s| ==> s[i] == '/'
  }

  /** `os.path.dirname(p)` (posixpath): everything up to the last separator,
      with trailing separators removed unless it consists only of them. */
  function DirName(p: string): string
  {
    var head := p[..AfterLastSlash(p)];
    if head != [] && !AllSlashes(head) then StripTrailingSlashes(head) else head
  }

  /** `dirname` undoes `join` for a directory without a trailing separator
      and a plain file name. */
  lemma DirNameJoinPath(dir: string, name: string)
    requires dir != [] && dir[|dir| - 1] != '/'
    requires name != [] && '/' !in name
    ensures DirName(JoinPath(dir, name)) == dir
  {
    var p := JoinPath(dir, name);
    assert p == dir + "/" + name;
    LastSlashBeforeName(dir + "/", name);
    var head := p[..|dir| + 1];
    assert head == dir + "/";
    assert !AllSlashes(head) by {
      assert head[|dir| - 1] != '/';
    }
    assert StripTrailingSlashes(head) == StripTrailingSlashes(dir);
  }

  lemma {:induction false} LastSlashBeforeName(d: string, name: string)
    requires d != [] && d[|d| - 1] == '/'
    requires '/' !in name
    ensures AfterLastSlash(d + name) == |d|
    decreases |name|
  {
    if name == [] {
      assert d + name == d;
    } else {
      var p := d + name;
      assert p[..|p| - 1] == d + name[..|name| - 1];
      assert name[|name| - 1] in name;
      LastSlashBeforeName(d, name[..|name| - 1]);
    }
  }

  lemma DefaultDirs()
    ensures Split(DEFAULT_PATH, ':') == DEFAULT_DIRS
  {
    assert Join(DEFAULT_DIRS, ':') == DEFAULT_PATH;
    SplitJoin(DEFAULT_DIRS, ':');
  }

  /** The directories searched, in order: `PATH` (or its default) split on
      colons, then, when frozen, the interpreter's directory. */
  function SearchDirs(env: Env): (dirs: seq<string>)
    ensures |dirs| >= 1
  {
    var path := if env.path.Some? then Split(env.path.value, ':') else DEFAULT_DIRS;
    if env.frozen then path + [DirName(env.executable)] else path
  }

  /** The first candidate `dir/name` that exists. */
  function FirstHit(dirs: seq<string>, name: string, existing: set<string>): Option<string>
  {
    if dirs == [] then None
    else if JoinPath(dirs[0], name) in existing then Some(JoinPath(dirs[0], name))
    else FirstHit(dirs[1..], name, existing)
  }

  /** `FirstHit` finds a path exactly when some directory holds the name, and
      the path it finds is that of the first such directory. */
  lemma {:induction false} FirstHitIsFirst(dirs: seq<string>, name: string, existing: set<string>)
    ensures FirstHit(dirs, name, existing).None? <==>
            forall i :: 0 <= i < |dirs| ==> JoinPath(dirs[i], name) !in existing
    ensures FirstHit(dirs, name, existing).Some? ==>
            exists i :: 0 <= i < |dirs| && FirstHit(dirs, name, existing).value == JoinPath(dirs[i], name)
                        && JoinPath(dirs[i], name) in existing
                        && forall j :: 0 <= j < i ==> JoinPath(dirs[j], name) !in existing
  {
    if dirs != [] && JoinPath(dirs[0], name) !in existing {
      FirstHitIsFirst(dirs[1..], name, existing);
      var r := FirstHit(dirs, name, existing);
      if r.Some? {
        var i :| 0 <= i < |dirs| - 1 && r.value == JoinPath(dirs[1..][i], name)
                 && JoinPath(dirs[1..][i], name) in existing
                 && forall j :: 0 <= j < i ==> JoinPath(dirs[1..][j], name) !in existing;
        assert forall j :: 0 <= j < i + 1 ==> JoinPath(dirs[j], name) !in existing by {
          forall j | 0 <= j < i + 1
            ensures JoinPath(dirs[j], name) !in existing
          {
            if j > 0 {
              assert dirs[j] == dirs[1..][j - 1];
            }
          }
        }
        assert dirs[i + 1] == dirs[1..][i];
      } else {
        forall i | 0 <= i < |dirs|
          ensures JoinPath(dirs[i], name) !in existing
        {
          if i > 0 {
            assert dirs[i] == dirs[1..][i - 1];
          }
        }
      }
    }
  }

  /** The frozen interpreter's directory is searched last, after every
      directory of `PATH`. */
  lemma FrozenDirLast(env: Env)
    requires env.frozen
    ensures SearchDirs(env)[|SearchDirs(env)| - 1] == DirName(env.executable)
    ensures SearchDirs(env)[..|SearchDirs(env)| - 1]
         == Split(if env.path.Some? then env.path.value else DEFAULT_PATH, ':')
  {
    DefaultDirs();
  }

  /** `find_exe(name, *args)`: the loop over the search directories. */
  method FindExe(name: string, args: seq<string>, env: Env, existing: set<string>) returns (r: Option<seq<string>>)
    ensures r.None? <==> FirstHit(SearchDirs(env), name, existing).None?
    ensures r.Some? ==> r.value == [FirstHit(SearchDirs(env), name, existing).value] + args
  {
    var path := if env.path.Some? then Split(env.path.value, ':') else DEFAULT_DIRS;
    if env.frozen {
      path := path + [DirName(env.executable)];
    }
    var i := 0;
    while i < |path|
      invariant 0 <= i <= |path|
      invariant FirstHit(path[i..], name, existing) == FirstHit(SearchDirs(env), name, existing)
    {
      var exe := JoinPath(path[i], name);
      if exe in existing {
        return Some([exe] + args);
      }
      assert path[i..][1..] == path[i + 1..];
      i := i + 1;
    }
    return None;
  }
}
