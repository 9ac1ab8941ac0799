/** src/runas/sudo_unix.py: a launcher that talks to its helper through a
    pair of named FIFOs in a private temporary directory instead of the
    agent's standard streams, and that picks the first graphical or
    terminal privilege agent it can find. The operating system's file
    system is the `FileSystem` object below; every call the pipe makes on
    it is recorded in order. */
module SudoUnix {
  import opened Wrappers
  import opened PathSearch
  import opened Launcher

  /** What a path names. */
  datatype Node = Directory | Fifo(mode: int) | RegularFile

  /** The errors the calls below can raise, by `errno` (`ENOENT`,
      `ENOTDIR`, `EISDIR`, `EEXIST`, `EBADF`), and the `TypeError` of
      `os.close(None)`. */
  datatype OsError = NotFound | NotADirectory | IsADirectory | AlreadyExists | BadDescriptor | NotAnInteger

  /** The system calls the pipe makes. */
  datatype SysCall =
    | MakeDir(path: string)
    | MakeFifo(path: string, mode: int)
    | Open(path: string, forWriting: bool)
    | CloseFd(fd: nat)
    | Unlink(path: string)
    | ListDir(path: string)
    | RemoveDir(path: string)

  /** The entries of a directory: the paths whose parent it is. */
  function Children(nodes: map<string, Node>, dir: string): set<string>
  {
    set p | p in nodes && DirName(p) == dir
  }

  class FileSystem {
    var nodes: map<string, Node>
    /** Every call made so far, in order. */
    var calls: seq<SysCall>
    /** The descriptor the next successful `open` returns. */
    var nextFd: nat
    /** The descriptors opened and not yet closed. */
    var openFds: set<nat>

    /** `os.mkdir(path)`. */
    method MakeDir(path: string) returns (e: Option<OsError>)
      modifies this
      ensures calls == old(calls) + [SysCall.MakeDir(path)] && nextFd == old(nextFd) && openFds == old(openFds)
      ensures e == (if path in old(nodes) then Some(AlreadyExists) else None)
      ensures nodes == (if e.None? then old(nodes)[path := Directory] else old(nodes))
    {
      calls := calls + [SysCall.MakeDir(path)];
      if path in nodes {
        return Some(AlreadyExists);
      }
      nodes := nodes[path := Directory];
      e := None;
    }

    /** `os.mkfifo(path, mode)`. */
    method MakeFifo(path: string, mode: int) returns (e: Option<OsError>)
      modifies this
      ensures calls == old(calls) + [SysCall.MakeFifo(path, mode)] && nextFd == old(nextFd) && openFds == old(openFds)
      ensures e == (if path in old(nodes) then Some(AlreadyExists) else None)
      ensures nodes == (if e.None? then old(nodes)[path := Fifo(mode)] else old(nodes))
    {
      calls := calls + [SysCall.MakeFifo(path, mode)];
      if path in nodes {
        return Some(AlreadyExists);
      }
      nodes := nodes[path := Fifo(mode)];
      e := None;
    }

    /** `os.open(path, os.O_WRONLY if forWriting else os.O_RDONLY)`: a new
        descriptor, or an error for a missing path or a directory opened for
        writing. */
    method Open(path: string, forWriting: bool) returns (r: Result<nat, OsError>)
      modifies this
      ensures calls == old(calls) + [SysCall.Open(path, forWriting)] && nodes == old(nodes)
      ensures r == (if path !in old(nodes) then Failure(NotFound)
                    else if forWriting && old(nodes)[path].Directory? then Failure(IsADirectory)
                    else Success(old(nextFd)))
      ensures nextFd == (if r.Success? then old(nextFd) + 1 else old(nextFd))
      ensures openFds == (if r.Success? then old(openFds) + {old(nextFd)} else old(openFds))
    {
      calls := calls + [SysCall.Open(path, forWriting)];
      if path !in nodes {
        return Failure(NotFound);
      }
      if forWriting && nodes[path].Directory? {
        return Failure(IsADirectory);
      }
      r := Success(nextFd);
      openFds := openFds + {nextFd};
      nextFd := nextFd + 1;
    }

    /** `os.close(fd)`: `EBADF` for a descriptor that is not open. */
    method CloseFd(fd: nat) returns (e: Option<OsError>)
      modifies this`calls, this`openFds
      ensures calls == old(calls) + [SysCall.CloseFd(fd)]
      ensures e == (if fd in old(openFds) then None else Some(BadDescriptor))
      ensures openFds == old(openFds) - {fd}
    {
      calls := calls + [SysCall.CloseFd(fd)];
      if fd !in openFds {
        return Some(BadDescriptor);
      }
      openFds := openFds - {fd};
      e := None;
    }

    /** `os.unlink(path)`. */
    method Unlink(path: string) returns (e: Option<OsError>)
      modifies this`calls, this`nodes
      ensures calls == old(calls) + [SysCall.Unlink(path)]
      ensures e == (if path !in old(nodes) then Some(NotFound)
                    else if old(nodes)[path].Directory? then Some(IsADirectory)
                    else None)
      ensures nodes == (if e.None? then old(nodes) - {path} else old(nodes))
    {
      calls := calls + [SysCall.Unlink(path)];
      if path !in nodes {
        return Some(NotFound);
      }
      if nodes[path].Directory? {
        return Some(IsADirectory);
      }
      nodes := nodes - {path};
      e := None;
    }

    /** `os.listdir(path)`. */
    method ListDir(path: string) returns (r: Result<set<string>, OsError>)
      modifies this`calls
      ensures calls == old(calls) + [SysCall.ListDir(path)]
      ensures r == (if path !in nodes then Failure(NotFound)
                    else if !nodes[path].Directory? then Failure(NotADirectory)
                    else Success(Children(nodes, path)))
    {
      calls := calls + [SysCall.ListDir(path)];
      if path !in nodes {
        return Failure(NotFound);
      }
      if !nodes[path].Directory? {
        return Failure(NotADirectory);
      }
      r := Success(Children(nodes, path));
    }

    /** `os.rmdir(path)` of a directory the caller has just seen empty. */
    method RemoveDir(path: string) returns (e: Option<OsError>)
      modifies this`calls, this`nodes
      ensures calls == old(calls) + [SysCall.RemoveDir(path)]
      ensures e == (if path !in old(nodes) then Some(NotFound)
                    else if !old(nodes)[path].Directory? then Some(NotADirectory)
                    else None)
      ensures nodes == (if e.None? then old(nodes) - {path} else old(nodes))
    {
      calls := calls + [SysCall.RemoveDir(path)];
      if path !in nodes {
        return Some(NotFound);
      }
      if !nodes[path].Directory? {
        return Some(NotADirectory);
      }
      nodes := nodes - {path};
      e := None;
    }
  }

  /** The names a pipe end works with: its directory, the FIFO it reads and
      the FIFO it writes. */
  datatype FifoNames = FifoNames(tdir: string, rnm: string, wnm: string)

  /** `0o600`: read and write for the owner only. */
  const FIFO_MODE: int := 0x180

  /** The roles of the launcher's end: read "master", write "slave". */
  function MasterRoles(tdir: string): (r: FifoNames)
    ensures r.tdir == tdir
  {
    FifoNames(tdir, JoinPath(tdir, "master"), JoinPath(tdir, "slave"))
  }

  /** `connect()` as a function of the roles: same directory, the two FIFOs
      exchanged. */
  function Swap(r: FifoNames): (s: FifoNames)
    ensures s.tdir == r.tdir && s.rnm == r.wnm && s.wnm == r.rnm
  {
    FifoNames(r.tdir, r.wnm, r.rnm)
  }

  predicate EndsWith(s: string, suffix: string)
  {
    |suffix| <= |s| && s[|s| - |suffix|..] == suffix
  }

  /** The calls `_open` makes when none of them fails: the end that reads
      "master" opens it for reading and then its write FIFO; the other end
      opens its write FIFO first and its read FIFO second. Each end then
      unlinks the FIFO it writes. */
  function OpenPlan(r: FifoNames): (calls: seq<SysCall>)
    ensures |calls| == 3 && calls[2] == SysCall.Unlink(r.wnm)
  {
    if EndsWith(r.rnm, "master") then
      [SysCall.Open(r.rnm, false), SysCall.Open(r.wnm, true), SysCall.Unlink(r.wnm)]
    else
      [SysCall.Open(r.wnm, true), SysCall.Open(r.rnm, false), SysCall.Unlink(r.wnm)]
  }

  /** Opening a FIFO blocks until its other end is opened. The two ends of a
      fresh pipe make their opens on the same FIFO at the same step, one for
      reading and one for writing, "master" first; so each open is met by
      the peer's and neither end waits for ever. Between them they unlink
      both FIFOs. */
  lemma OpensPairUp(tdir: string)
    requires tdir != [] && tdir[|tdir| - 1] != '/'
    ensures var a := OpenPlan(MasterRoles(tdir));
            var b := OpenPlan(Swap(MasterRoles(tdir)));
            a[0].path == b[0].path == JoinPath(tdir, "master")
            && a[1].path == b[1].path == JoinPath(tdir, "slave")
            && !a[0].forWriting && b[0].forWriting
            && a[1].forWriting && !b[1].forWriting
            && {a[2].path, b[2].path} == {JoinPath(tdir, "master"), JoinPath(tdir, "slave")}
  {
    var m := MasterRoles(tdir);
    assert m.rnm == tdir + "/" + "master";
    assert m.rnm[|m.rnm| - 6..] == "master";
    assert m.wnm == tdir + "/" + "slave";
    assert m.wnm[|m.wnm| - 6..] == "/slave";
  }

  /** Both FIFO names are entries of the directory, and distinct. */
  lemma FifoPaths(tdir: string)
    requires tdir != [] && tdir[|tdir| - 1] != '/'
    ensures DirName(JoinPath(tdir, "master")) == tdir && DirName(JoinPath(tdir, "slave")) == tdir
    ensures JoinPath(tdir, "master") != JoinPath(tdir, "slave")
    ensures JoinPath(tdir, "master") != tdir && JoinPath(tdir, "slave") != tdir
  {
    DirNameJoinPath(tdir, "master");
    DirNameJoinPath(tdir, "slave");
    assert |JoinPath(tdir, "master")| == |tdir| + 7;
    assert |JoinPath(tdir, "slave")| == |tdir| + 6;
  }

  predicate IsPrefix<T(==)>(a: seq<T>, b: seq<T>)
  {
    |a| <= |b| && b[..|a|] == a
  }

  /** `SecureStringPipe` of src/runas/sudo_unix.py. `token` is kept by the
      base class, which is not part of this model; so is the framing over
      the two descriptors. */
  class SecureStringPipe {
    const token: seq<int>
    const tdir: string
    const rnm: string
    const wnm: string
    var rfd: Option<nat>
    var wfd: Option<nat>

    function Roles(): FifoNames
    {
      FifoNames(tdir, rnm, wnm)
    }

    /** `SecureStringPipe(token)`: `tempfile.mkdtemp()` makes the private
        directory `tdir` (a new, empty, absolute path, as `mkdtemp`
        guarantees), and the FIFOs "master" (read) and "slave" (write) are
        made in it with mode 0o600. */
    constructor (token: seq<int>, tdir: string, fs: FileSystem)
      requires tdir != [] && tdir[0] == '/' && tdir[|tdir| - 1] != '/'
      requires tdir !in fs.nodes && Children(fs.nodes, tdir) == {}
      modifies fs
      ensures this.token == token && Roles() == MasterRoles(tdir)
      ensures rfd.None? && wfd.None?
      ensures fs.nodes == old(fs.nodes)[tdir := Directory]
                          [JoinPath(tdir, "master") := Fifo(FIFO_MODE)]
                          [JoinPath(tdir, "slave") := Fifo(FIFO_MODE)]
      ensures fs.calls == old(fs.calls) + [SysCall.MakeDir(tdir),
                                           SysCall.MakeFifo(JoinPath(tdir, "master"), FIFO_MODE),
                                           SysCall.MakeFifo(JoinPath(tdir, "slave"), FIFO_MODE)]
      ensures fs.nextFd == old(fs.nextFd) && fs.openFds == old(fs.openFds)
    {
      this.token := token;
      this.tdir := tdir;
      rnm := JoinPath(tdir, "master");
      wnm := JoinPath(tdir, "slave");
      rfd := None;
      wfd := None;
      new;
      assert Roles() == MasterRoles(tdir);
      FifoPaths(tdir);
      assert JoinPath(tdir, "master") !in fs.nodes && JoinPath(tdir, "slave") !in fs.nodes by {
        assert JoinPath(tdir, "master") !in Children(fs.nodes, tdir);
        assert JoinPath(tdir, "slave") !in Children(fs.nodes, tdir);
      }
      ghost var calls0 := fs.calls;
      var e1 := fs.MakeDir(tdir);
      var e2 := fs.MakeFifo(rnm, FIFO_MODE);
      var e3 := fs.MakeFifo(wnm, FIFO_MODE);
      assert e1.None? && e2.None? && e3.None?;
      assert fs.calls == calls0 + [SysCall.MakeDir(tdir), SysCall.MakeFifo(rnm, FIFO_MODE), SysCall.MakeFifo(wnm, FIFO_MODE)];
    }

    /** `SecureStringPipe(token, (tdir, rnm, wnm))`: takes over existing
        names and touches nothing. */
    constructor Over(token: seq<int>, roles: FifoNames)
      ensures this.token == token && Roles() == roles
      ensures rfd.None? && wfd.None?
    {
      this.token := token;
      tdir := roles.tdir;
      rnm := roles.rnm;
      wnm := roles.wnm;
      rfd := None;
      wfd := None;
    }

    /** `connect()`: the peer's end, with the same token and the FIFOs
        exchanged. */
    method Connect() returns (c: SecureStringPipe)
      ensures fresh(c)
      ensures c.token == token && c.Roles() == Swap(Roles())
      ensures c.rfd.None? && c.wfd.None?
    {
      c := new SecureStringPipe.Over(token, FifoNames(tdir, wnm, rnm));
    }

    /** `_open()`: the two opens in the order `OpenPlan` gives, then the
        unlink of the write FIFO. A failing call raises at once: the calls
        made are a prefix of the plan, and a descriptor already obtained
        stays set. */
    method Open(fs: FileSystem) returns (e: Option<OsError>)
      modifies this`rfd, this`wfd, fs
      ensures IsPrefix(old(fs.calls), fs.calls) && IsPrefix(fs.calls[|old(fs.calls)|..], OpenPlan(Roles()))
      ensures e.None? <==> rnm in old(fs.nodes) && wnm in old(fs.nodes) && !old(fs.nodes)[wnm].Directory?
      ensures e.None? ==>
                fs.calls == old(fs.calls) + OpenPlan(Roles())
                && fs.nodes == old(fs.nodes) - {wnm}
                && rfd.Some? && wfd.Some? && rfd != wfd
                && fs.openFds == old(fs.openFds) + {rfd.value, wfd.value}
    {
      ghost var plan := OpenPlan(Roles());
      ghost var before := fs.calls;
      if EndsWith(rnm, "master") {
        var r := fs.Open(rnm, false);
        if r.Failure? {
          return Some(r.error);
        }
        rfd := Some(r.value);
        var w := fs.Open(wnm, true);
        if w.Failure? {
          assert fs.calls[|before|..] == plan[..2];
          return Some(w.error);
        }
        wfd := Some(w.value);
      } else {
        var w := fs.Open(wnm, true);
        if w.Failure? {
          return Some(w.error);
        }
        wfd := Some(w.value);
        var r := fs.Open(rnm, false);
        if r.Failure? {
          assert fs.calls[|before|..] == plan[..2];
          return Some(r.error);
        }
        rfd := Some(r.value);
      }
      e := fs.Unlink(wnm);
      assert fs.calls[|before|..] == plan;
    }

    /** `close()`. Only an end whose read descriptor is set does anything:
        it closes both descriptors and clears them. Closing a descriptor
        that is no longer open raises `EBADF`, and `os.close(None)` raises
        `TypeError` when the write descriptor was never obtained; either
        leaves both descriptors as they were. It then
        unlinks the write FIFO only if `os.path.isfile` holds of it, which
        is never the case for a FIFO, and removes the directory if it is
        empty. A directory that is already gone (`ENOENT`) is ignored; any
        other error is raised. The base class's `close` is taken to do
        nothing. */
    method Close(fs: FileSystem) returns (e: Option<OsError>)
      modifies this`rfd, this`wfd, fs`calls, fs`nodes, fs`openFds
      ensures old(rfd).None? ==> e.None? && rfd.None? && wfd == old(wfd)
                                 && fs.calls == old(fs.calls) && fs.nodes == old(fs.nodes)
                                 && fs.openFds == old(fs.openFds)
      ensures old(rfd).Some? && old(rfd).value !in old(fs.openFds) ==>
                e == Some(BadDescriptor) && rfd == old(rfd) && wfd == old(wfd)
                && fs.calls == old(fs.calls) + [SysCall.CloseFd(old(rfd).value)]
                && fs.nodes == old(fs.nodes) && fs.openFds == old(fs.openFds)
      ensures old(rfd).Some? && old(rfd).value in old(fs.openFds) && old(wfd).None? ==>
                e == Some(NotAnInteger) && rfd == old(rfd) && wfd.None?
                && fs.calls == old(fs.calls) + [SysCall.CloseFd(old(rfd).value)]
                && fs.nodes == old(fs.nodes) && fs.openFds == old(fs.openFds) - {old(rfd).value}
      ensures old(rfd).Some? && old(rfd).value in old(fs.openFds) && old(wfd).Some?
              && old(wfd).value !in old(fs.openFds) - {old(rfd).value} ==>
                e == Some(BadDescriptor) && rfd == old(rfd) && wfd == old(wfd)
                && fs.calls == old(fs.calls) + [SysCall.CloseFd(old(rfd).value), SysCall.CloseFd(old(wfd).value)]
                && fs.nodes == old(fs.nodes) && fs.openFds == old(fs.openFds) - {old(rfd).value}
      ensures old(rfd).Some? && old(wfd).Some?
              && old(rfd).value in old(fs.openFds) && old(wfd).value in old(fs.openFds) - {old(rfd).value} ==>
                rfd.None? && wfd.None?
                && fs.openFds == old(fs.openFds) - {old(rfd).value, old(wfd).value}
                && IsPrefix(old(fs.calls) + [SysCall.CloseFd(old(rfd).value), SysCall.CloseFd(old(wfd).value)], fs.calls)
                && fs.nodes == Tidied(Unfiled(old(fs.nodes), wnm), tdir)
                && var unfiled := Unfiled(old(fs.nodes), wnm);
                   e == (if tdir in unfiled && !unfiled[tdir].Directory? then Some(NotADirectory) else None)
    {
      if rfd.None? {
        return None;
      }
      ghost var calls0 := fs.calls;
      e := fs.CloseFd(rfd.value);
      if e.Some? {
        return;
      }
      if wfd.None? {
        return Some(NotAnInteger);
      }
      e := fs.CloseFd(wfd.value);
      if e.Some? {
        assert fs.calls == calls0 + [SysCall.CloseFd(rfd.value), SysCall.CloseFd(wfd.value)];
        return;
      }
      rfd := None;
      wfd := None;
      if wnm in fs.nodes && fs.nodes[wnm] == RegularFile {
        var u := fs.Unlink(wnm);
      }
      var listing := fs.ListDir(tdir);
      if listing.Failure? {
        return if listing.error == NotFound then None else Some(listing.error);
      }
      if listing.value == {} {
        var r := fs.RemoveDir(tdir);
      }
      e := None;
    }
  }

  /** The nodes after `if os.path.isfile(p): os.unlink(p)`. */
  function Unfiled(nodes: map<string, Node>, p: string): (r: map<string, Node>)
    ensures p in nodes && nodes[p] == RegularFile ==> r == nodes - {p}
    ensures !(p in nodes && nodes[p] == RegularFile) ==> r == nodes
  {
    if p in nodes && nodes[p] == RegularFile then nodes - {p} else nodes
  }

  /** The nodes after the directory is removed if it is an empty
      directory. */
  function Tidied(nodes: map<string, Node>, dir: string): (r: map<string, Node>)
    ensures dir in nodes && nodes[dir].Directory? && Children(nodes, dir) == {} ==> r == nodes - {dir}
    ensures !(dir in nodes && nodes[dir].Directory? && Children(nodes, dir) == {}) ==> r == nodes
  {
    if dir in nodes && nodes[dir].Directory? && Children(nodes, dir) == {} then nodes - {dir} else nodes
  }

  /** Once both ends have opened (so both FIFOs are unlinked), whichever end
      closes first removes the directory, and the other end's close finds
      it gone and still succeeds: the pair leaves nothing behind. */
  method CloseBoth(a: SecureStringPipe, b: SecureStringPipe, fs: FileSystem)
    returns (ea: Option<OsError>, eb: Option<OsError>)
    requires a.tdir == b.tdir && a.tdir in fs.nodes && fs.nodes[a.tdir].Directory?
    requires Children(fs.nodes, a.tdir) == {}
    requires a.wnm !in fs.nodes && b.wnm !in fs.nodes
    requires a.rfd.Some? && a.wfd.Some? && b.rfd.Some? && b.wfd.Some?
    requires |{a.rfd.value, a.wfd.value, b.rfd.value, b.wfd.value}| == 4
    requires {a.rfd.value, a.wfd.value, b.rfd.value, b.wfd.value} <= fs.openFds
    modifies a`rfd, a`wfd, b`rfd, b`wfd, fs`calls, fs`nodes, fs`openFds
    ensures ea.None? && eb.None?
    ensures fs.nodes == old(fs.nodes) - {a.tdir}
    ensures fs.openFds == old(fs.openFds) - {old(a.rfd).value, old(a.wfd).value, old(b.rfd).value, old(b.wfd).value}
    ensures a.rfd.None? && a.wfd.None? && b.rfd.None? && b.wfd.None?
  {
    ea := a.Close(fs);
    eb := b.Close(fs);
  }

  /** An end whose write descriptor was never obtained: the first `close()`
      closes the read descriptor and raises `TypeError` on `os.close(None)`,
      keeping the read descriptor set, so a second `close()` closes it again
      and fails with `EBADF`. */
  method CloseTwice(p: SecureStringPipe, fs: FileSystem)
    returns (first: Option<OsError>, second: Option<OsError>)
    requires p.rfd.Some? && p.wfd.None? && p.rfd.value in fs.openFds
    modifies p`rfd, p`wfd, fs`calls, fs`nodes, fs`openFds
    ensures first == Some(NotAnInteger) && second == Some(BadDescriptor)
    ensures p.rfd == old(p.rfd) && p.rfd.value !in fs.openFds
  {
    first := p.Close(fs);
    second := p.Close(fs);
  }

  /** The agents tried, each with the arguments it is given: with a display,
      `pkexec`, `gksudo -k -D name --`, `kdesudo` and
      `cocoasudo --prompt='name'`; then, display or not, `sudo`. */
  function Agents(display: bool, displayName: string): (cands: seq<(string, seq<string>)>)
    ensures |cands| == (if display then 5 else 1)
    ensures cands[|cands| - 1] == ("sudo", [])
  {
    (if display then
       [("pkexec", []),
        ("gksudo", ["-k", "-D", displayName, "--"]),
        ("kdesudo", []),
        ("cocoasudo", ["--prompt='" + displayName + "'"])]
     else [])
    + [("sudo", [])]
  }

  /** `find_exe(name, *args)` as a function. */
  function Lookup(name: string, args: seq<string>, env: Env, existing: set<string>): (r: Option<seq<string>>)
    ensures r.None? <==> FirstHit(SearchDirs(env), name, existing).None?
  {
    match FirstHit(SearchDirs(env), name, existing)
    case None => None
    case Some(p) => Some([p] + args)
  }

  /** The first candidate found, or the empty prefix when none is. */
  function FirstAgent(cands: seq<(string, seq<string>)>, env: Env, existing: set<string>): seq<string>
  {
    if cands == [] then []
    else match Lookup(cands[0].0, cands[0].1, env, existing)
      case Some(c) => c
      case None => FirstAgent(cands[1..], env, existing)
  }

  /** `FirstAgent` is the ordered choice: empty exactly when no candidate is
      found, and otherwise the command of the first candidate found. */
  lemma {:induction false} FirstAgentIsFirst(cands: seq<(string, seq<string>)>, env: Env, existing: set<string>)
    ensures FirstAgent(cands, env, existing) == [] <==>
            forall i :: 0 <= i < |cands| ==> Lookup(cands[i].0, cands[i].1, env, existing).None?
    ensures FirstAgent(cands, env, existing) != [] ==>
            exists i :: 0 <= i < |cands|
                        && Lookup(cands[i].0, cands[i].1, env, existing) == Some(FirstAgent(cands, env, existing))
                        && forall j :: 0 <= j < i ==> Lookup(cands[j].0, cands[j].1, env, existing).None?
  {
    if cands != [] {
      var l := Lookup(cands[0].0, cands[0].1, env, existing);
      if l.None? {
        FirstAgentIsFirst(cands[1..], env, existing);
        if FirstAgent(cands, env, existing) != [] {
          var i :| 0 <= i < |cands| - 1
                   && Lookup(cands[1..][i].0, cands[1..][i].1, env, existing) == Some(FirstAgent(cands[1..], env, existing))
                   && forall j :: 0 <= j < i ==> Lookup(cands[1..][j].0, cands[1..][j].1, env, existing).None?;
          assert cands[i + 1] == cands[1..][i];
          forall j | 0 <= j < i + 1
            ensures Lookup(cands[j].0, cands[j].1, env, existing).None?
          {
            if j > 0 {
              assert cands[j] == cands[1..][j - 1];
            }
          }
        } else {
          forall i | 0 <= i < |cands|
            ensures Lookup(cands[i].0, cands[i].1, env, existing).None?
          {
            if i > 0 {
              assert cands[i] == cands[1..][i - 1];
            }
          }
        }
      }
    }
  }

  /** The choice at the `k`-th candidate: take it if it is found, else go
      on with the rest. */
  lemma FirstAgentStep(cands: seq<(string, seq<string>)>, k: nat, env: Env, existing: set<string>)
    requires k < |cands|
    ensures FirstAgent(cands[k..], env, existing)
         == match Lookup(cands[k].0, cands[k].1, env, existing)
            case Some(c) => c
            case None => FirstAgent(cands[k + 1..], env, existing)
  {
    assert cands[k..][1..] == cands[k + 1..];
  }

  /** Without a display only `sudo` is considered. */
  lemma NoDisplayMeansSudo(displayName: string, env: Env, existing: set<string>)
    ensures FirstAgent(Agents(false, displayName), env, existing)
         == (match FirstHit(SearchDirs(env), "sudo", existing)
             case Some(p) => [p]
             case None => [])
  {
    assert Agents(false, displayName)[1..] == [];
  }

  /** `spawn_sudo(proxy)`: a new FIFO pipe (`token` and the directory
      `tdir` that `mkdtemp` picks are parameters) and its peer end, then the
      command `agent + [interp, "-c", code] + [FLAG, pathBlob, proxyBlob,
      pipeBlob]`, where `pipeBlob` stands for the pickled peer end. The agent
      is the first candidate found; without one the helper is run directly.
      The launcher keeps the "master"-reading end. */
  method SpawnSudo(display: bool, displayName: string, interp: string,
                   pathBlob: string, proxyBlob: string, pipeBlob: string,
                   env: Env, existing: set<string>, token: seq<int>, tdir: string, fs: FileSystem)
    returns (argv: seq<string>, pipe: SecureStringPipe)
    requires tdir != [] && tdir[0] == '/' && tdir[|tdir| - 1] != '/'
    requires tdir !in fs.nodes && Children(fs.nodes, tdir) == {}
    modifies fs
    ensures argv == FirstAgent(Agents(display, displayName), env, existing)
                    + [interp, "-c", STARTUP_CODE] + [FLAG, pathBlob, proxyBlob, pipeBlob]
    ensures fresh(pipe) && pipe.token == token && pipe.Roles() == MasterRoles(tdir)
    ensures pipe.rfd.None? && pipe.wfd.None?
    ensures fs.nodes == old(fs.nodes)[tdir := Directory]
                        [JoinPath(tdir, "master") := Fifo(FIFO_MODE)]
                        [JoinPath(tdir, "slave") := Fifo(FIFO_MODE)]
    ensures fs.calls == old(fs.calls) + [SysCall.MakeDir(tdir),
                                         SysCall.MakeFifo(JoinPath(tdir, "master"), FIFO_MODE),
                                         SysCall.MakeFifo(JoinPath(tdir, "slave"), FIFO_MODE)]
  {
    pipe := new SecureStringPipe(token, tdir, fs);
    var peer := pipe.Connect();
    var exe := [interp, "-c", STARTUP_CODE];
    var args := [FLAG, pathBlob, proxyBlob, pipeBlob];
    var agent := ChooseAgent(display, displayName, env, existing);
    argv := agent + exe + args;
  }

  /** The search for a sudo-like program in `spawn_sudo`: with a display,
      `pkexec`, `gksudo`, `kdesudo` and `cocoasudo` in that order, then
      `sudo`, and the empty prefix when none of them is found. */
  method ChooseAgent(display: bool, displayName: string, env: Env, existing: set<string>)
    returns (agent: seq<string>)
    ensures agent == FirstAgent(Agents(display, displayName), env, existing)
  {
    ghost var cands := Agents(display, displayName);
    var sudo: Option<seq<string>> := None;
    if display {
      sudo := FindExe("pkexec", [], env, existing);
      FirstAgentStep(cands, 0, env, existing);
      if sudo.None? {
        sudo := FindExe("gksudo", ["-k", "-D", displayName, "--"], env, existing);
        FirstAgentStep(cands, 1, env, existing);
        if sudo.None? {
          sudo := FindExe("kdesudo", [], env, existing);
          FirstAgentStep(cands, 2, env, existing);
          if sudo.None? {
            sudo := FindExe("cocoasudo", ["--prompt='" + displayName + "'"], env, existing);
            FirstAgentStep(cands, 3, env, existing);
          }
        }
      }
    }
    ghost var k := if display then 4 else 0;
    assert sudo.None? ==> FirstAgent(cands, env, existing) == FirstAgent(cands[k..], env, existing);
    assert sudo.Some? ==> sudo.value == FirstAgent(cands, env, existing);
    if sudo.None? {
      sudo := FindExe("sudo", [], env, existing);
      FirstAgentStep(cands, k, env, existing);
      assert cands[k + 1..] == [];
    }
    agent := if sudo.None? then [] else sudo.value;
  }

  /** `run_proxy_startup()`: the same argv check, with three blobs (the last
      one the pickled pipe end). */
  function ProxyStartup(argv: seq<string>): (r: Startup)
  {
    StartupAction(argv, 3)
  }

  /** The helper started by `spawn_sudo` recognises itself and reads its
      three blobs in order, whichever agent (or none) runs it. */
  lemma SpawnedHelperStarts(agent: seq<string>, interp: string, pathBlob: string, proxyBlob: string, pipeBlob: string)
    ensures var argv := agent + [interp, "-c", STARTUP_CODE] + [FLAG, pathBlob, proxyBlob, pipeBlob];
            ProxyStartup(InterpreterArgv(argv[|agent| + 3..])) == RunHelper([pathBlob, proxyBlob, pipeBlob])
  {
    var argv := agent + [interp, "-c", STARTUP_CODE] + [FLAG, pathBlob, proxyBlob, pipeBlob];
    assert [FLAG, pathBlob, proxyBlob, pipeBlob] == [FLAG] + [pathBlob, proxyBlob, pipeBlob];
    HelperCommandRecognised(argv, agent, interp, [pathBlob, proxyBlob, pipeBlob]);
  }
}
