/** Creating a workspace or adding a platform to it, with rollback of what was created
    (fsq_agent/config/_workspace.py:248-396, 484-510). Every file operation may fail; each failure
    is a nondeterministic choice (`*`). */
module WorkspaceRollback {

  type Path = seq<string>

  datatype Node = Directory | File(content: string)

  type Nodes = map<Path, Node>

  predicate ChildOf(q: Path, p: Path) {
    |q| == |p| + 1 && q[..|p|] == p
  }

  predicate InDirectory(nodes: Nodes, p: Path) {
    p != [] && p[..|p| - 1] in nodes && nodes[p[..|p| - 1]] == Directory
  }

  /** Everything that exists lies in an existing directory. */
  ghost predicate WellFormed(nodes: Nodes) {
    forall q | q in nodes && q != [] :: InDirectory(nodes, q)
  }

  /** Nothing that was there is gone or changed. */
  ghost predicate Keeps(was: Nodes, now: Nodes) {
    forall p | p in was :: p in now && now[p] == was[p]
  }

  /** Each created path comes after the directory it lies in. */
  ghost predicate Ordered(created: seq<Path>) {
    forall i, j | 0 <= i < j < |created| :: !ChildOf(created[i], created[j])
  }

  ghost predicate New(was: Nodes, created: seq<Path>) {
    forall i | 0 <= i < |created| :: created[i] !in was
  }

  /** What the source remembers is new and in order, and the initial tree is untouched. */
  ghost predicate Tracked(was: Nodes, now: Nodes, created: seq<Path>) {
    WellFormed(was) && WellFormed(now) && Keeps(was, now) && New(was, created) && Ordered(created)
  }

  ghost predicate Present(now: Nodes, created: seq<Path>) {
    forall i | 0 <= i < |created| :: created[i] in now
  }

  /** Everything that is new is remembered. */
  ghost predicate Accounted(was: Nodes, now: Nodes, created: seq<Path>) {
    forall p | p in now :: p in was || p in created
  }

  lemma WellFormedPut(nodes: Nodes, p: Path, node: Node)
    requires WellFormed(nodes) && InDirectory(nodes, p) && (p in nodes ==> nodes[p] != Directory)
    ensures WellFormed(nodes[p := node])
  {
    var r := nodes[p := node];
    forall q | q in r && q != []
      ensures InDirectory(r, q)
    {
      assert q == p || InDirectory(nodes, q);
    }
  }

  lemma WellFormedWithout(nodes: Nodes, p: Path)
    requires WellFormed(nodes) && forall q | q in nodes :: !ChildOf(q, p)
    ensures WellFormed(nodes - {p})
  {
    var r := nodes - {p};
    forall q | q in r && q != []
      ensures InDirectory(r, q)
    {
      assert InDirectory(nodes, q) && !ChildOf(q, p);
    }
  }

  /** A path that is no directory has nothing in it. */
  lemma NothingBelow(nodes: Nodes, p: Path)
    requires WellFormed(nodes) && (p in nodes ==> nodes[p] != Directory)
    ensures forall q | q in nodes :: !ChildOf(q, p)
  {
    assert forall q | q in nodes && q != [] :: q[..|q| - 1] in nodes && nodes[q[..|q| - 1]] == Directory;
  }

  lemma OrderedMore(now: Nodes, created: seq<Path>, p: Path)
    requires Ordered(created) && Present(now, created) && forall q | q in now :: !ChildOf(q, p)
    ensures Ordered(created + [p])
  {
    var created' := created + [p];
    forall i, j | 0 <= i < j < |created'|
      ensures !ChildOf(created'[i], created'[j])
    {
      assert created[i] in now;
      assert created'[i] == created[i];
      if j < |created| {
        assert created'[j] == created[j];
      }
    }
  }

  lemma AccountedMore(was: Nodes, now: Nodes, created: seq<Path>, p: Path, node: Node)
    requires Accounted(was, now, created)
    ensures Accounted(was, now[p := node], created + [p])
  {
    forall q | q in now[p := node] && q !in was
      ensures q in created + [p]
    {
      assert q == p || q in created;
    }
  }

  lemma MoreIsNewAndPresent(was: Nodes, now: Nodes, created: seq<Path>, p: Path, node: Node)
    requires New(was, created) && Present(now, created) && Keeps(was, now) && p !in was
    ensures New(was, created + [p]) && Present(now[p := node], created + [p]) && Keeps(was, now[p := node])
  {
    forall i | 0 <= i < |created + [p]|
      ensures (created + [p])[i] !in was && (created + [p])[i] in now[p := node]
    {
      if i < |created| {
        assert (created + [p])[i] == created[i];
      }
    }
  }

  /** Creating and remembering one more path. */
  lemma Remember(was: Nodes, now: Nodes, created: seq<Path>, p: Path, node: Node)
    requires Tracked(was, now, created) && Present(now, created) && p !in was
    requires InDirectory(now, p) && (p in now ==> now[p] != Directory)
    ensures Tracked(was, now[p := node], created + [p]) && Present(now[p := node], created + [p])
    ensures Accounted(was, now, created) ==> Accounted(was, now[p := node], created + [p])
  {
    hide WellFormed, InDirectory, Ordered, Accounted, New, Present, Keeps;
    WellFormedPut(now, p, node);
    NothingBelow(now, p);
    OrderedMore(now, created, p);
    MoreIsNewAndPresent(was, now, created, p, node);
    if Accounted(was, now, created) {
      AccountedMore(was, now, created, p, node);
    }
  }

  /** What is in a remembered path comes after it. */
  lemma NothingAfterLast(was: Nodes, now: Nodes, created: seq<Path>)
    requires WellFormed(was) && New(was, created) && Ordered(created) && Accounted(was, now, created) && created != []
    ensures forall q | q in now :: !ChildOf(q, created[|created| - 1])
  {
    var n := |created| - 1;
    NothingBelow(was, created[n]);
    hide WellFormed;
    forall q | q in now
      ensures !ChildOf(q, created[n])
    {
      if q !in was {
        var i :| 0 <= i < |created| && created[i] == q;
        if i == n {
          assert |q| != |created[n]| + 1;
        }
      }
    }
  }

  lemma AccountedLess(was: Nodes, now: Nodes, created: seq<Path>)
    requires Accounted(was, now, created) && created != []
    ensures Accounted(was, now - {created[|created| - 1]}, created[..|created| - 1])
  {
    var n := |created| - 1;
    forall q | q in now - {created[n]} && q !in was
      ensures q in created[..n]
    {
      var i :| 0 <= i < |created| && created[i] == q;
      assert created[..n][i] == q;
    }
  }

  /** The path created last has nothing in it, and the rest is tracked without it. */
  lemma ForgetLast(was: Nodes, now: Nodes, created: seq<Path>)
    requires Tracked(was, now, created) && Accounted(was, now, created) && created != []
    ensures var p, rest := created[|created| - 1], created[..|created| - 1];
            && (forall q | q in now :: !ChildOf(q, p))
            && Tracked(was, now - {p}, rest) && Accounted(was, now - {p}, rest)
  {
    var p := created[|created| - 1];
    NothingAfterLast(was, now, created);
    AccountedLess(was, now, created);
    WellFormedWithout(now, p);
    hide WellFormed, Accounted;
    assert created[|created| - 1] !in was;
  }

  lemma NothingTracked(was: Nodes, now: Nodes)
    requires Tracked(was, now, []) && Accounted(was, now, [])
    ensures now == was
  {}

  function ProjectPath(root: Path, platform: string): Path {
    root + ["knowledge", platform, "project.md"]
  }

  function ConfigPath(root: Path, platform: string): Path {
    root + [".fsq", "config", "config." + platform + ".yaml"]
  }

  class Tree {
    var nodes: Nodes

    constructor (nodes: Nodes)
      ensures this.nodes == nodes
    {
      this.nodes := nodes;
    }

    predicate IsDirectory(p: Path)
      reads this
    {
      p in nodes && nodes[p] == Directory
    }

    // ---- operations that may fail ----

    method MakeDirectory(p: Path) returns (ok: bool)
      modifies this
      ensures ok ==> p !in old(nodes) && InDirectory(old(nodes), p) && nodes == old(nodes)[p := Directory]
      ensures !ok ==> nodes == old(nodes)
    {
      ok := *;
      ok := ok && p !in nodes && InDirectory(nodes, p);
      if ok {
        nodes := nodes[p := Directory];
      }
    }

    /** path.rmdir(): only an empty directory can be removed. `tried` says that the failure, if any,
        is that the directory is not empty. */
    method RemoveDirectory(p: Path) returns (ok: bool, ghost tried: bool)
      modifies this
      ensures nodes == if ok then old(nodes) - {p} else old(nodes)
      ensures tried && p in old(nodes) && (forall q | q in old(nodes) :: !ChildOf(q, p)) ==> ok
    {
      var works: bool := *;
      tried := works;
      ok := works && p in nodes && forall q | q in nodes :: !ChildOf(q, p);
      if ok {
        nodes := nodes - {p};
      }
    }

    method Unlink(p: Path) returns (ok: bool)
      modifies this
      ensures nodes == if ok then old(nodes) - {p} else old(nodes)
    {
      ok := *;
      if ok {
        nodes := nodes - {p};
      }
    }

    /** _atomic_write. A failure leaves nothing, unless (`untidy`) its own clean-up failed: then it
        leaves the file itself or its temporary file. */
    method AtomicWrite(p: Path, content: string, ghost was: Nodes) returns (ok: bool, ghost untidy: bool)
      requires WellFormed(nodes) && Keeps(was, nodes) && p !in was
      modifies this
      ensures WellFormed(nodes) && Keeps(was, nodes) && Keeps(old(nodes) - {p}, nodes)
      ensures (p in old(nodes) ==> p in nodes)
      ensures ok ==> !untidy && InDirectory(old(nodes), p) && (p in old(nodes) ==> old(nodes)[p] != Directory)
                     && nodes == old(nodes)[p := File(content)]
      ensures !ok && !untidy ==> nodes == old(nodes)
    {
      var temporary: string, fails: bool, inPlace: bool, cleaned: bool := *, *, *, *;
      ok, untidy := false, false;
      if !InDirectory(nodes, p) {
        return;
      }
      var t := p[..|p| - 1] + [temporary];
      assert InDirectory(nodes, t);
      if !(p in nodes && nodes[p] == Directory) && (!fails || inPlace) {
        WellFormedPut(nodes, p, File(content));
        nodes := nodes[p := File(content)];
        ok, untidy := !fails, fails;
      } else if !cleaned && t !in nodes {
        WellFormedPut(nodes, t, File(content));
        nodes := nodes[t := File(content)];
        untidy := true;
      }
    }

    // ---- the operations of the source ----

    /** _ensure_managed_directory */
    method EnsureManagedDirectory(root: Path, parts: seq<string>, created: seq<Path>, ghost was: Nodes)
      returns (created': seq<Path>, ok: bool)
      requires Tracked(was, nodes, created) && Present(nodes, created) && Accounted(was, nodes, created)
      modifies this
      ensures Tracked(was, nodes, created') && Present(nodes, created') && Accounted(was, nodes, created')
      ensures Keeps(old(nodes), nodes) && forall q | q in nodes && q !in old(nodes) :: q <= root + parts
    {
      hide Tracked, Present, Accounted;
      created', ok := created, false;
      if !IsDirectory(root) {
        return;
      }
      var current := root;
      assert root + parts[..0] == root;
      for i := 0 to |parts|
        invariant Tracked(was, nodes, created') && Present(nodes, created') && Accounted(was, nodes, created')
        invariant current == root + parts[..i]
        invariant Keeps(old(nodes), nodes) && forall q | q in nodes && q !in old(nodes) :: q <= root + parts
      {
        assert root + parts[..i + 1] == current + [parts[i]];
        current := current + [parts[i]];
        assert current <= root + parts;
        if current in nodes && nodes[current] != Directory {
          return;
        }
        if current !in nodes {
          ghost var before := nodes;
          var made := MakeDirectory(current);
          if !made {
            return;
          }
          assert current !in was by { TrackedFacts(was, before, created'); }
          Remember(was, before, created', current, Directory);
          created' := created' + [current];
        }
      }
      ok := true;
    }

    method EnsureManagedDirectories(root: Path, directories: seq<seq<string>>, created: seq<Path>, ghost was: Nodes)
      returns (created': seq<Path>, ok: bool)
      requires Tracked(was, nodes, created) && Present(nodes, created) && Accounted(was, nodes, created)
      modifies this
      ensures Tracked(was, nodes, created') && Present(nodes, created') && Accounted(was, nodes, created')
      ensures Keeps(old(nodes), nodes) && forall q | q in nodes && q !in old(nodes) :: Below(root, directories, q)
    {
      hide Tracked, Present, Accounted;
      created', ok := created, true;
      for i := 0 to |directories|
        invariant Tracked(was, nodes, created') && Present(nodes, created') && Accounted(was, nodes, created')
        invariant Keeps(old(nodes), nodes) && forall q | q in nodes && q !in old(nodes) :: Below(root, directories, q)
      {
        created', ok := EnsureManagedDirectory(root, directories[i], created', was);
        if !ok {
          return;
        }
      }
    }

    /** One step of the rollback; `done` says that a removal that could be carried out was. */
    method Remove(p: Path) returns (ghost done: bool)
      modifies this
      ensures nodes == old(nodes) || nodes == old(nodes) - {p}
      ensures done && (forall q | q in old(nodes) :: !ChildOf(q, p)) ==> nodes == old(nodes) - {p}
    {
      if IsDirectory(p) {
        var removed;
        removed, done := RemoveDirectory(p);
      } else {
        var removed := Unlink(p);
        done := removed;
      }
    }

    /** _rollback_created_paths: in reverse, going on after a failure. `clean` says that no removal
        failed that the file system could have carried out. */
    method RollBack(created: seq<Path>, ghost was: Nodes) returns (ghost clean: bool)
      requires Tracked(was, nodes, created)
      modifies this
      ensures Keeps(was, nodes)
      ensures clean && Accounted(was, old(nodes), created) ==> nodes == was
      ensures !Accounted(was, old(nodes), created) ==> nodes != was
    {
      ghost var start := nodes;
      hide Tracked, Accounted, Keeps, Rolled;
      clean := true;
      var k := |created|;
      RolledStart(was, start, created);
      while k > 0
        invariant 0 <= k <= |created|
        invariant Rolled(was, start, nodes, created, k, clean)
      {
        k := k - 1;
        ghost var before, clean0 := nodes, clean;
        ghost var done := Remove(created[k]);
        clean := clean && done;
        RolledNext(was, start, before, nodes, created, k, clean0, done);
      }
      RolledEnd(was, start, nodes, created, clean);
    }

    /** The directories and files of one platform. A configuration file whose permissions cannot be
        restricted stays behind: it is remembered only afterwards. */
    method CreatePlatform(root: Path, directories: seq<seq<string>>, platform: string, config: string,
                          writeProject: bool, created: seq<Path>, ghost was: Nodes)
      returns (created': seq<Path>, ok: bool, ghost untidy: bool, ghost unrestricted: bool)
      requires Tracked(was, nodes, created) && Present(nodes, created) && Accounted(was, nodes, created)
      requires ConfigPath(root, platform) !in nodes && (writeProject ==> ProjectPath(root, platform) !in was)
      requires forall i | 0 <= i < |directories| :: !(ConfigPath(root, platform) <= root + directories[i])
      modifies this
      ensures Tracked(was, nodes, created') && Present(nodes, created')
      ensures !untidy && !unrestricted ==> Accounted(was, nodes, created')
      ensures unrestricted ==> !ok && !Accounted(was, nodes, created')
      ensures untidy ==> !ok
      ensures ok ==> forall q | q in nodes && q !in old(nodes) ::
                Below(root, directories, q) || q == ProjectPath(root, platform) || q == ConfigPath(root, platform)
      ensures ok ==> Written(root, platform, config, nodes) && Keeps(old(nodes) - {ProjectPath(root, platform)}, nodes)
    {
      hide Tracked, Present, Accounted, Below, Keeps, ProjectPath, ConfigPath;
      untidy, unrestricted := false, false;
      var project, file := ProjectPath(root, platform), ConfigPath(root, platform);
      NotBelow(root, directories, file);
      PathsDiffer(root, platform, platform);
      ghost var n0 := nodes;
      created', ok := EnsureManagedDirectories(root, directories, created, was);
      if !ok {
        return;
      }
      ghost var n1 := nodes;
      if writeProject || project !in nodes {
        NotThere(was, n1, created', project);
        created', ok, untidy := WriteRemembered(project, "", created', was);
        if !ok {
          return;
        }
      }
      created', ok, untidy, unrestricted := WriteConfig(file, config, created', was);
      if ok {
        PlatformWritten(root, directories, n0, n1, nodes, project, file, config);
      }
    }

    /** _atomic_write followed by remembering the file. */
    method WriteRemembered(p: Path, content: string, created: seq<Path>, ghost was: Nodes)
      returns (created': seq<Path>, ok: bool, ghost untidy: bool)
      requires Tracked(was, nodes, created) && Present(nodes, created) && Accounted(was, nodes, created) && p !in was
      modifies this
      ensures Tracked(was, nodes, created') && Present(nodes, created') && (!untidy ==> Accounted(was, nodes, created'))
      ensures ok ==> nodes == old(nodes)[p := File(content)]
      ensures untidy ==> !ok
    {
      hide Tracked, Present, Accounted, WellFormed;
      ghost var before := nodes;
      created' := created;
      TrackedFacts(was, nodes, created);
      ok, untidy := AtomicWrite(p, content, was);
      StillTracked(was, before, nodes, created, p);
      if ok {
        Remember(was, before, created, p, File(content));
        created' := created + [p];
      }
    }

    /** The configuration file: written, restricted, and only then remembered. */
    method WriteConfig(file: Path, config: string, created: seq<Path>, ghost was: Nodes)
      returns (created': seq<Path>, ok: bool, ghost untidy: bool, ghost unrestricted: bool)
      requires Tracked(was, nodes, created) && Present(nodes, created) && Accounted(was, nodes, created)
      requires file !in nodes
      modifies this
      ensures Tracked(was, nodes, created') && Present(nodes, created')
      ensures !untidy && !unrestricted ==> Accounted(was, nodes, created')
      ensures unrestricted ==> !ok && !Accounted(was, nodes, created')
      ensures ok ==> nodes == old(nodes)[file := File(config)]
      ensures untidy ==> !ok
    {
      hide Tracked, Present, Accounted, WellFormed;
      ghost var before := nodes;
      created', unrestricted := created, false;
      TrackedFacts(was, nodes, created);
      ok, untidy := AtomicWrite(file, config, was);
      StillTracked(was, before, nodes, created, file);
      if !ok {
        return;
      }
      var restricted: bool := *;
      if !restricted {
        ok, unrestricted := false, true;
        NotRemembered(was, before, nodes, created, file);
        return;
      }
      Remember(was, before, created, file, File(config));
      created' := created + [file];
    }

    /** add_workspace_platform, after the validation of its arguments. When it fails and every
        removal that could be carried out was, the tree is the initial one, unless the permissions
        of the new configuration file could not be restricted or a failed write could not be cleaned
        up after; in the first case it never is. */
    method AddWorkspacePlatform(root: Path, platform: string, config: string)
      returns (ok: bool, ghost clean: bool, ghost untidy: bool, ghost unrestricted: bool)
      requires WellFormed(nodes)
      modifies this
      ensures Keeps(old(nodes), nodes)
      ensures ok ==> Accounts(root, platform, old(nodes), nodes) && Written(root, platform, config, nodes)
      ensures !ok && clean && !untidy && !unrestricted ==> nodes == old(nodes)
      ensures unrestricted ==> !ok && nodes != old(nodes)
    {
      hide Tracked, Accounted, Present;
      clean, untidy, unrestricted := true, false, false;
      if ConfigPath(root, platform) in nodes || !IsDirectory(root) {
        return false, clean, untidy, unrestricted;
      }
      ghost var was := nodes;
      NothingYet(was);
      var directories := [[".fsq"], [".fsq", "config"], ["cases", platform], ["knowledge", platform],
                          [".fsq", "runs", platform]];
      ConfigIsNoDirectory(root, platform, directories);
      var created: seq<Path>;
      created, ok, untidy, unrestricted := CreatePlatform(root, directories, platform, config, false, [], was);
      TrackedFacts(was, nodes, created);
      if ok {
        AccountsFor(root, platform, directories, was, nodes);
      } else {
        clean := RollBack(created, was);
      }
    }

    /** create_workspace, after the validation of its arguments: in the selected directory when it is
        empty, otherwise in a new directory inside it. The promise about failures is the same. */
    method CreateWorkspace(selected: Path, name: string, platforms: seq<string>, configs: seq<string>)
      returns (ok: bool, root: Path, ghost clean: bool, ghost untidy: bool, ghost unrestricted: bool)
      requires WellFormed(nodes) && IsDirectory(selected) && |configs| == |platforms|
      requires forall i, j | 0 <= i < j < |platforms| :: platforms[i] != platforms[j]
      modifies this
      ensures Keeps(old(nodes), nodes)
      ensures ok ==> forall i | 0 <= i < |platforms| :: Written(root, platforms[i], configs[i], nodes)
      ensures !ok && clean && !untidy && !unrestricted ==> nodes == old(nodes)
      ensures unrestricted ==> !ok && nodes != old(nodes)
    {
      hide Tracked, Accounted, Present, WellFormed;
      clean, untidy, unrestricted := true, false, false;
      ghost var was := nodes;
      var empty := forall q | q in nodes :: !ChildOf(q, selected);
      root := if empty then selected else selected + [name];
      var rejected: bool := *;
      if rejected || (!empty && root in nodes) {
        return false, root, clean, untidy, unrestricted;
      }
      NothingYet(was);
      NoneUnder(was, root);
      var created: seq<Path> := [];
      ok := true;
      if !empty {
        ok := MakeDirectory(root);
        if !ok {
          return;
        }
        Remember(was, was, [], root, Directory);
        created := [root];
        assert [] + [root] == [root];
      }
      created, ok := EnsureManagedDirectories(root, [[".fsq"], [".fsq", "config"], [".fsq", "runs"]], created, was);
      if ok {
        ConfigsFree(root, platforms, was, nodes);
        created, ok, untidy, unrestricted := CreatePlatforms(root, platforms, configs, created, was);
      }
      if ok {
        ok := *;
      }
      TrackedFacts(was, nodes, created);
      if !ok {
        clean := RollBack(created, was);
      }
    }

    method CreatePlatforms(root: Path, platforms: seq<string>, configs: seq<string>, created: seq<Path>,
                           ghost was: Nodes)
      returns (created': seq<Path>, ok: bool, ghost untidy: bool, ghost unrestricted: bool)
      requires Tracked(was, nodes, created) && Present(nodes, created) && Accounted(was, nodes, created)
      requires |configs| == |platforms|
      requires forall i, j | 0 <= i < j < |platforms| :: platforms[i] != platforms[j]
      requires forall i | 0 <= i < |platforms| ::
                 ConfigPath(root, platforms[i]) !in nodes && ProjectPath(root, platforms[i]) !in was
      modifies this
      ensures Tracked(was, nodes, created') && Present(nodes, created')
      ensures !untidy && !unrestricted ==> Accounted(was, nodes, created')
      ensures unrestricted ==> !ok && !Accounted(was, nodes, created')
      ensures untidy ==> !ok
      ensures ok ==> forall i | 0 <= i < |platforms| :: Written(root, platforms[i], configs[i], nodes)
    {
      hide Tracked, Accounted, Present, Below;
      created', ok, untidy, unrestricted := created, true, false, false;
      for i := 0 to |platforms|
        invariant Tracked(was, nodes, created') && Present(nodes, created') && Accounted(was, nodes, created')
        invariant forall j | i <= j < |platforms| :: ConfigPath(root, platforms[j]) !in nodes
        invariant !untidy && !unrestricted
        invariant forall j | 0 <= j < i :: Written(root, platforms[j], configs[j], nodes)
      {
        ghost var before := nodes;
        var directories := PlatformDirectories(platforms[i]);
        ConfigIsNoDirectory(root, platforms[i], directories);
        created', ok, untidy, unrestricted := CreatePlatform(root, directories, platforms[i], configs[i], true,
                                                             created', was);
        if !ok {
          return;
        }
        forall j | 0 <= j < i
          ensures Written(root, platforms[j], configs[j], nodes)
        {
          PathsDiffer(root, platforms[i], platforms[j]);
        }
        forall j | i + 1 <= j < |platforms|
          ensures ConfigPath(root, platforms[j]) !in nodes
        {
          ConfigIsNoDirectory(root, platforms[j], directories);
          NotBelow(root, directories, ConfigPath(root, platforms[j]));
          PathsDiffer(root, platforms[i], platforms[j]);
        }
      }
    }
  }

  /** The platform's configuration is in place, next to a project file. */
  predicate Written(root: Path, platform: string, config: string, nodes: Nodes) {
    && ConfigPath(root, platform) in nodes && nodes[ConfigPath(root, platform)] == File(config)
    && ProjectPath(root, platform) in nodes
  }

  lemma NotThere(was: Nodes, now: Nodes, created: seq<Path>, p: Path)
    requires Tracked(was, now, created)
    ensures p in was ==> p in now
  {}

  lemma PlatformWritten(root: Path, directories: seq<seq<string>>, n0: Nodes, n1: Nodes, n3: Nodes, project: Path,
                        file: Path, config: string)
    requires Keeps(n0, n1) && (forall q | q in n1 && q !in n0 :: Below(root, directories, q)) && project != file
    requires n3 == n1[file := File(config)] || n3 == n1[project := File("")][file := File(config)]
    requires project in n1 || n3 == n1[project := File("")][file := File(config)]
    requires file !in n0
    ensures forall q | q in n3 && q !in n0 :: Below(root, directories, q) || q == project || q == file
    ensures Keeps(n0 - {project}, n3)
    ensures file in n3 && n3[file] == File(config) && project in n3
  {
    hide Below;
  }

  /** A prefix of one of the directories. */
  ghost predicate Below(root: Path, directories: seq<seq<string>>, q: Path) {
    exists i :: 0 <= i < |directories| && q <= root + directories[i]
  }

  lemma NotBelow(root: Path, directories: seq<seq<string>>, p: Path)
    requires forall i | 0 <= i < |directories| :: !(p <= root + directories[i])
    ensures !Below(root, directories, p)
  {}

  lemma PathsDiffer(root: Path, a: string, b: string)
    ensures ProjectPath(root, a) != ConfigPath(root, b)
    ensures a != b ==> ConfigPath(root, a) != ConfigPath(root, b)
  {
    assert ProjectPath(root, a)[|root|] == "knowledge" && ConfigPath(root, b)[|root|] == ".fsq";
    assert ConfigPath(root, a)[|root| + 2] == "config." + a + ".yaml"
           && ConfigPath(root, b)[|root| + 2] == "config." + b + ".yaml";
    if "config." + a + ".yaml" == "config." + b + ".yaml" {
      assert |a| == |b|;
      assert ("config." + a + ".yaml")[7..7 + |a|] == a && ("config." + b + ".yaml")[7..7 + |b|] == b;
    }
  }

  /** The rollback has come down to the k-th remembered path. */
  ghost predicate Rolled(was: Nodes, start: Nodes, now: Nodes, created: seq<Path>, k: nat, clean: bool)
    requires k <= |created|
  {
    && Tracked(was, start, created) && Keeps(was, now)
    && (clean && Accounted(was, start, created) ==>
          Tracked(was, now, created[..k]) && Accounted(was, now, created[..k]))
    && (forall q | q in start && q !in created :: q in now)
  }

  lemma RolledStart(was: Nodes, start: Nodes, created: seq<Path>)
    requires Tracked(was, start, created)
    ensures Rolled(was, start, start, created, |created|, true)
  {
    assert created[..|created|] == created;
  }

  lemma RolledNext(was: Nodes, start: Nodes, before: Nodes, now: Nodes, created: seq<Path>, k: nat, clean: bool,
                   done: bool)
    requires k < |created| && Rolled(was, start, before, created, k + 1, clean)
    requires now == before || now == before - {created[k]}
    requires done && (forall q | q in before :: !ChildOf(q, created[k])) ==> now == before - {created[k]}
    ensures Rolled(was, start, now, created, k, clean && done)
  {
    hide Tracked, Accounted, Keeps;
    TrackedFacts(was, start, created);
    assert created[..k + 1][..k] == created[..k] && created[..k + 1][k] == created[k];
    if clean && done && Accounted(was, start, created) {
      ForgetLast(was, before, created[..k + 1]);
    }
    StillKept(was, before, now, created[k]);
  }

  lemma StillKept(was: Nodes, before: Nodes, now: Nodes, p: Path)
    requires Keeps(was, before) && p !in was && (now == before || now == before - {p})
    ensures Keeps(was, now)
  {}

  lemma RolledEnd(was: Nodes, start: Nodes, now: Nodes, created: seq<Path>, clean: bool)
    requires Rolled(was, start, now, created, 0, clean)
    ensures Keeps(was, now)
    ensures clean && Accounted(was, start, created) ==> now == was
    ensures !Accounted(was, start, created) ==> now != was
  {
    if clean && Accounted(was, start, created) {
      assert created[..0] == [];
      NothingTracked(was, now);
    }
    if !Accounted(was, start, created) {
      Leftover(was, start, created);
    }
    hide Tracked, Accounted;
  }

  lemma Leftover(was: Nodes, now: Nodes, created: seq<Path>)
    requires !Accounted(was, now, created)
    ensures exists q :: q in now && q !in created && q !in was
  {}

  /** A write to a new path, whether it failed or not, leaves what is remembered as it was. */
  lemma StillTracked(was: Nodes, before: Nodes, now: Nodes, created: seq<Path>, p: Path)
    requires Tracked(was, before, created) && Present(before, created)
    requires WellFormed(now) && Keeps(was, now) && Keeps(before - {p}, now) && (p in before ==> p in now)
    ensures Tracked(was, now, created) && Present(now, created)
  {
    hide WellFormed, Ordered;
    forall i | 0 <= i < |created|
      ensures created[i] in now
    {
      assert created[i] in before;
      assert created[i] != p ==> created[i] in before - {p};
    }
  }

  lemma NotRemembered(was: Nodes, before: Nodes, now: Nodes, created: seq<Path>, p: Path)
    requires Present(before, created) && p !in before && p in now && p !in was
    ensures !Accounted(was, now, created)
  {
    assert forall i | 0 <= i < |created| :: created[i] != p;
  }

  lemma TrackedFacts(was: Nodes, now: Nodes, created: seq<Path>)
    requires Tracked(was, now, created)
    ensures WellFormed(now) && Keeps(was, now) && forall i | 0 <= i < |created| :: created[i] !in was
  {}

  /** Only the platform's own files and the directories they lie in are new. */
  ghost predicate Accounts(root: Path, platform: string, was: Nodes, now: Nodes) {
    forall q | q in now && q !in was ::
      || q == ProjectPath(root, platform) || q == ConfigPath(root, platform)
      || q <= root + [".fsq", "config"] || q <= root + ["cases", platform] || q <= root + ["knowledge", platform]
      || q <= root + [".fsq", "runs", platform]
  }

  lemma AccountsFor(root: Path, platform: string, directories: seq<seq<string>>, was: Nodes, now: Nodes)
    requires directories
               == [[".fsq"], [".fsq", "config"], ["cases", platform], ["knowledge", platform],
                   [".fsq", "runs", platform]]
    requires forall q | q in now && q !in was ::
               Below(root, directories, q) || q == ProjectPath(root, platform) || q == ConfigPath(root, platform)
    ensures Accounts(root, platform, was, now)
  {
    assert root + [".fsq", "config"] == root + [".fsq"] + ["config"];
  }

  lemma NothingYet(nodes: Nodes)
    requires WellFormed(nodes)
    ensures Tracked(nodes, nodes, []) && Present(nodes, []) && Accounted(nodes, nodes, [])
  {}

  lemma ConfigIsNoDirectory(root: Path, platform: string, directories: seq<seq<string>>)
    requires forall i | 0 <= i < |directories| :: |directories[i]| <= 2 || directories[i][1] == "runs"
    ensures forall i | 0 <= i < |directories| :: !(ConfigPath(root, platform) <= root + directories[i])
  {
    var file := ConfigPath(root, platform);
    assert file[|root| + 1] == "config" && |file| == |root| + 3;
    forall i | 0 <= i < |directories|
      ensures !(file <= root + directories[i])
    {
      if |directories[i]| > 2 {
        assert (root + directories[i])[|root| + 1] == "runs";
      }
    }
  }

  function PlatformDirectories(platform: string): seq<seq<string>> {
    [["cases", platform], ["knowledge", platform], [".fsq", "runs", platform]]
  }

  /** Nothing lies below an empty directory, or below a path that does not exist. */
  lemma {:induction false} NoneBelow(nodes: Nodes, p: Path, q: Path)
    requires WellFormed(nodes) && q in nodes && p < q
    ensures p in nodes && exists c :: c in nodes && ChildOf(c, p)
    decreases |q|
  {
    var parent := q[..|q| - 1];
    assert InDirectory(nodes, q);
    if parent == p {
      assert ChildOf(q, p);
    } else {
      assert p < parent;
      NoneBelow(nodes, p, parent);
    }
  }

  lemma NoneUnder(nodes: Nodes, p: Path)
    requires WellFormed(nodes) && (p !in nodes || forall q | q in nodes :: !ChildOf(q, p))
    ensures forall q | q in nodes :: !(p < q)
  {
    forall q | q in nodes
      ensures !(p < q)
    {
      if p < q {
        NoneBelow(nodes, p, q);
      }
    }
  }

  /** In a new workspace no platform has its files yet. */
  lemma ConfigsFree(root: Path, platforms: seq<string>, was: Nodes, now: Nodes)
    requires forall q | q in was :: !(root < q)
    requires forall q | q in now && q !in was ::
               q <= root || Below(root, [[".fsq"], [".fsq", "config"], [".fsq", "runs"]], q)
    ensures forall i | 0 <= i < |platforms| ::
              ConfigPath(root, platforms[i]) !in now && ProjectPath(root, platforms[i]) !in was
  {
    var directories := [[".fsq"], [".fsq", "config"], [".fsq", "runs"]];
    forall i | 0 <= i < |platforms|
      ensures ConfigPath(root, platforms[i]) !in now && ProjectPath(root, platforms[i]) !in was
    {
      ConfigIsNoDirectory(root, platforms[i], directories);
      NotBelow(root, directories, ConfigPath(root, platforms[i]));
      assert root < ConfigPath(root, platforms[i]) && root < ProjectPath(root, platforms[i]);
    }
  }
}
