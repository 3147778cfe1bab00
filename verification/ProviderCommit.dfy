/** The user's provider configuration on disk (fsq_agent/config/_user_provider.py:212-457, 549-601,
    678-733): staged writes, replacement, rollback, and what a sequence of saves leaves behind.
    Every file operation may fail; each failure is a nondeterministic choice (`*`). */
module ProviderCommit {
  import opened Wrappers

  datatype Provider = OpenAI | AzureOpenAI | DeepSeek | GoogleGemini | GitHubCopilot | Kimi

  datatype File =
    | ConfigFile | OpenAIAuth | AzureAuth | DeepSeekAuth | GeminiAuth | KimiAuth | GitHubAuth | GitHubProviderAuth
    | OtherFile(name: string)

  /** The provider record of config.yaml: its type and its other fields. */
  datatype Record = Record(provider: Provider, details: string)

  datatype Workspace = Workspace(name: string, root: string)

  datatype Content = Document(version: nat, record: Option<Record>,
                              workspaces: seq<Workspace>) | Credential(text: string) | Raw(text: string)

  type Files = map<File, Content>

  function Lookup(files: Files, f: File): Option<Content> {
    if f in files then Some(files[f]) else None
  }

  type Payloads = seq<(File, Content)>

  predicate DistinctTargets(payloads: Payloads) {
    forall i, j | 0 <= i < j < |payloads| :: payloads[i].0 != payloads[j].0
  }

  predicate Writes(payloads: Payloads, f: File, c: Content) {
    exists i :: 0 <= i < |payloads| && payloads[i] == (f, c)
  }

  predicate Targets(payloads: Payloads, f: File) {
    exists i :: 0 <= i < |payloads| && payloads[i].0 == f
  }

  /** The files after a successful commit: the payloads are there, the removals are gone. */
  ghost predicate Applied(was: Files, now: Files, payloads: Payloads, removals: seq<File>) {
    forall f ::
      Lookup(now, f) == if f in removals then None else if Targets(payloads, f) then PayloadOf(payloads, f)
          else Lookup(was, f)
  }

  function PayloadOf(payloads: Payloads, f: File): Option<Content> {
    if payloads == [] then None else if payloads[0].0 == f then Some(payloads[0].1) else PayloadOf(payloads[1..], f)
  }

  lemma {:induction false} PayloadAt(payloads: Payloads, i: nat)
    requires i < |payloads| && DistinctTargets(payloads)
    ensures PayloadOf(payloads, payloads[i].0) == Some(payloads[i].1)
  {
    if i > 0 {
      assert payloads[0].0 != payloads[i].0;
      PayloadAt(payloads[1..], i - 1);
    }
  }

  /** No file is torn: each is as it was, or absent, or wholly new, and only affected files differ. */
  ghost predicate Whole(was: Files, now: Files, payloads: Payloads, removals: seq<File>) {
    forall f :: Lookup(now, f) != Lookup(was, f) ==>
                  && (f in removals || Targets(payloads, f))
                  && (f in now ==> Writes(payloads, f, now[f]))
  }

  /** dict.fromkeys: the paths in order, each once. */
  function Union(a: seq<File>, b: seq<File>): (r: seq<File>)
    requires forall i, j | 0 <= i < j < |a| :: a[i] != a[j]
    ensures forall i, j | 0 <= i < j < |r| :: r[i] != r[j]
    ensures forall f :: f in r <==> f in a || f in b
    decreases |b|
  {
    if b == [] then a else Union(if b[0] in a then a else a + [b[0]], b[1..])
  }

  function TargetsOf(payloads: Payloads): (r: seq<File>)
    ensures |r| == |payloads| && forall i | 0 <= i < |r| :: r[i] == payloads[i].0
  {
    seq(|payloads|, i requires 0 <= i < |payloads| => payloads[i].0)
  }

  function Affected(payloads: Payloads, removals: seq<File>): (r: seq<File>)
    ensures forall i, j | 0 <= i < j < |r| :: r[i] != r[j]
    ensures forall f :: f in r <==> f in TargetsOf(payloads) || f in removals
  {
    Union(Union([], TargetsOf(payloads)), removals)
  }

  /** The first n payloads are in place, nothing else has changed. */
  ghost predicate Replaced(was: Files, now: Files, payloads: Payloads, n: nat)
    requires n <= |payloads|
  {
    && (forall k | 0 <= k < n :: Lookup(now, payloads[k].0) == Some(payloads[k].1))
    && (forall f | !Targets(payloads[..n], f) :: Lookup(now, f) == Lookup(was, f))
  }

  lemma ReplacedNext(was: Files, mid: Files, now: Files, payloads: Payloads, n: nat)
    requires n < |payloads| && DistinctTargets(payloads) && Replaced(was, mid, payloads, n)
    requires now == mid[payloads[n].0 := payloads[n].1]
    ensures Replaced(was, now, payloads, n + 1)
  {
    forall f | Targets(payloads[..n], f)
      ensures Targets(payloads[..n + 1], f)
    {
      var k :| 0 <= k < n && payloads[..n][k].0 == f;
      assert payloads[..n + 1][k].0 == f;
    }
    forall f | !Targets(payloads[..n + 1], f)
      ensures Lookup(now, f) == Lookup(was, f)
    {
      assert payloads[..n + 1][n].0 != f;
    }
  }

  lemma ReplacedIsWhole(was: Files, now: Files, payloads: Payloads, n: nat)
    requires n <= |payloads| && DistinctTargets(payloads) && Replaced(was, now, payloads, n)
    ensures Whole(was, now, payloads, [])
    ensures n == |payloads| ==> Applied(was, now, payloads, [])
  {
    forall f | Targets(payloads[..n], f)
      ensures Targets(payloads, f) && f in now && Writes(payloads, f, now[f]) && PayloadOf(payloads, f) == Some(now[f])
    {
      var k :| 0 <= k < n && payloads[..n][k].0 == f;
      assert payloads[k] == (f, now[f]);
      PayloadAt(payloads, k);
    }
    assert payloads[..|payloads|] == payloads;
  }

  lemma RemovedIsWhole(was: Files, mid: Files, now: Files, payloads: Payloads, removals: seq<File>, ok: bool)
    requires Whole(was, mid, payloads, []) && Applied(was, mid, payloads, [])
    requires forall f | f !in removals :: Lookup(now, f) == Lookup(mid, f)
    requires forall f | f in now :: f in mid && now[f] == mid[f]
    requires ok ==> forall f | f in removals :: f !in now
    ensures Whole(was, now, payloads, removals)
    ensures ok ==> Applied(was, now, payloads, removals)
  {
    forall f | Lookup(now, f) != Lookup(was, f)
      ensures (f in removals || Targets(payloads, f)) && (f in now ==> Writes(payloads, f, now[f]))
    {
      if f in now {
        assert Lookup(now, f) == Lookup(mid, f);
      }
    }
  }

  lemma WholeWider(was: Files, now: Files, payloads: Payloads, removals: seq<File>)
    requires Whole(was, now, payloads, [])
    ensures Whole(was, now, payloads, removals)
  {}

  /** Rolling back: complete when every snapshot was taken or nothing had changed yet. */
  lemma RestoredIsWhole(was: Files, broken: Files, now: Files, payloads: Payloads, removals: seq<File>,
                        snapshots: Snapshots, restored: bool)
    requires Whole(was, broken, payloads, removals)
    requires broken == was || forall f | f in removals || Targets(payloads, f) :: Covers(snapshots, f)
    requires forall i | 0 <= i < |snapshots| :: snapshots[i].1 == Lookup(was, snapshots[i].0)
    requires forall f | !Covers(snapshots, f) :: Lookup(now, f) == Lookup(broken, f)
    requires forall i | 0 <= i < |snapshots| ::
               Lookup(now,
                      snapshots[i].0) == snapshots[i].1
                          || (!restored && Lookup(now, snapshots[i].0) == Lookup(broken, snapshots[i].0))
    ensures Whole(was, now, payloads, removals) && (restored ==> now == was)
  {
    forall f
      ensures Lookup(now, f) == Lookup(was, f) || (!restored && Lookup(now, f) == Lookup(broken, f))
    {
      if Covers(snapshots, f) {
        var i :| 0 <= i < |snapshots| && snapshots[i].0 == f;
      }
    }
    if restored {
      SameLookups(was, now);
    }
  }

  lemma NothingChanged(was: Files, payloads: Payloads, removals: seq<File>)
    ensures Whole(was, was, payloads, removals)
  {}

  lemma AllCovered(payloads: Payloads, removals: seq<File>, affected: seq<File>, snapshots: Snapshots)
    requires affected == Affected(payloads, removals) && |snapshots| == |affected|
    requires forall i | 0 <= i < |snapshots| :: snapshots[i].0 == affected[i]
    ensures forall f | f in removals || Targets(payloads, f) :: Covers(snapshots, f)
  {
    forall f | f in removals || Targets(payloads, f)
      ensures Covers(snapshots, f)
    {
      if Targets(payloads, f) {
        var k :| 0 <= k < |payloads| && payloads[k].0 == f;
        assert TargetsOf(payloads)[k] == f;
      }
      assert f in affected;
      var i :| 0 <= i < |affected| && affected[i] == f;
      assert snapshots[i].0 == f;
    }
  }

  lemma SameLookups(a: Files, b: Files)
    requires forall f :: Lookup(a, f) == Lookup(b, f)
    ensures a == b
  {
    assert forall f :: f in a <==> f in b by {
      forall f
        ensures f in a <==> f in b
      {
        assert Lookup(a, f) == Lookup(b, f);
      }
    }
    forall f | f in a
      ensures a[f] == b[f]
    {
      assert Lookup(a, f) == Lookup(b, f);
    }
  }

  function Ids(staged: seq<nat>): set<nat> {
    set t | t in staged
  }

  lemma IdsMore(temps: map<nat, Content>, staged: seq<nat>, t: nat)
    ensures Ids(staged + [t]) == Ids(staged) + {t}
    ensures temps - Ids(staged + [t]) == temps - Ids(staged) - {t}
  {}

  lemma IdsOf(staged: seq<nat>)
    ensures Ids(staged[..|staged|]) == Ids(staged) && Ids([]) == {}
  {
    assert staged[..|staged|] == staged;
  }

  datatype Outcome =
    | Saved
    | StorageError(restored: bool)

  type Snapshots = seq<(File, Option<Content>)>

  predicate Covers(snapshots: Snapshots, f: File) {
    exists i :: 0 <= i < |snapshots| && snapshots[i].0 == f
  }

  class Directory {
    var files: Files
    /** temporary files, none of which is one of `files` */
    var temps: map<nat, Content>
    var nextTemp: nat
    /** how many removals of temporary files have failed */
    ghost var leaks: nat
    /** how many file operations have failed */
    ghost var faults: nat

    ghost predicate Valid()
      reads this
    {
      forall t | t in temps :: t < nextTemp
    }

    constructor (files: Files)
      ensures Valid() && this.files == files && temps == map[]
    {
      this.files, temps, nextTemp, leaks, faults := files, map[], 0, 0, 0;
    }

    // ---- operations that may fail ----

    /** path.read_bytes() if path.exists() else None */
    method Read(f: File) returns (ok: bool, c: Option<Content>)
      modifies this`faults
      ensures ok ==> c == Lookup(files, f)
      ensures faults == old(faults) + if ok then 0 else 1
    {
      ok, c := *, Lookup(files, f);
      Note(ok);
    }

    ghost method Note(ok: bool)
      modifies this`faults
      ensures faults == old(faults) + if ok then 0 else 1
    {
      if !ok {
        faults := faults + 1;
      }
    }

    /** _stage_write: on failure the temporary file may be left behind. */
    method StageWrite(c: Content) returns (t: Option<nat>)
      requires Valid()
      modifies this`temps, this`nextTemp, this`leaks, this`faults
      ensures Valid() && old(nextTemp) <= nextTemp && old(leaks) <= leaks
      ensures faults == old(faults) + if t.Some? then 0 else 1
      ensures forall i | i in old(temps) :: i in temps && temps[i] == old(temps)[i]
      ensures t.Some? ==>
                old(nextTemp) <= t.value < nextTemp && t.value in temps && temps[t.value] == c
                    && temps == old(temps)[t.value := c] && leaks == old(leaks)
      ensures t.None? && leaks == old(leaks) ==> temps == old(temps)
    {
      t := None;
      var created: bool := *;
      if !created {
        Note(false);
        return;
      }
      var id := nextTemp;
      temps, nextTemp := temps[id := c], nextTemp + 1;
      var written: bool, removed: bool := *, *;
      if written {
        return Some(id);
      }
      Note(false);
      if removed {
        temps := temps - {id};
      } else {
        leaks := leaks + 1;
      }
    }

    /** temporary.replace(path) */
    method Replace(t: nat, f: File) returns (ok: bool)
      requires Valid()
      modifies this`files, this`temps, this`faults
      ensures Valid()
      ensures faults == (if ok then old(faults) else old(faults) + 1) || t !in old(temps)
      ensures ok ==> t in old(temps) && files == old(files)[f := old(temps)[t]] && temps == old(temps) - {t}
      ensures !ok ==> files == old(files) && temps == old(temps)
    {
      ok := *;
      Note(ok);
      ok := ok && t in temps;
      if ok {
        files, temps := files[f := temps[t]], temps - {t};
      }
    }

    /** path.unlink(missing_ok=True) */
    method Unlink(f: File) returns (ok: bool)
      modifies this`files, this`faults
      ensures faults == old(faults) + if ok then 0 else 1
      ensures files == if ok then old(files) - {f} else old(files)
    {
      ok := *;
      Note(ok);
      if ok {
        files := files - {f};
      }
    }

    method UnlinkTemp(t: nat) returns (ok: bool)
      requires Valid()
      modifies this`temps, this`leaks, this`faults
      ensures faults == old(faults) + if ok then 0 else 1
      ensures Valid() && temps == (if ok then old(temps) - {t} else old(temps))
      ensures leaks == old(leaks) + if ok then 0 else 1
    {
      ok := *;
      Note(ok);
      if ok {
        temps := temps - {t};
      } else {
        leaks := leaks + 1;
      }
    }

    /** As long as no removal of a temporary file fails, none is left. */
    ghost predicate NoneLeft(before: map<nat, Content>, leaksBefore: nat)
      reads this`temps, this`leaks
    {
      leaksBefore <= leaks && (leaks == leaksBefore ==> temps == before)
    }

    /** _atomic_write: false when it raises, which may be after the file was replaced. */
    method AtomicWrite(f: File, c: Content) returns (ok: bool)
      requires Valid()
      modifies this
      ensures Valid()
      ensures ok ==> files == old(files)[f := c]
      ensures files == old(files) || files == old(files)[f := c]
      ensures NoneLeft(old(temps), old(leaks))
      ensures old(faults) <= faults && (ok <==> faults == old(faults))
    {
      var t := StageWrite(c);
      if t.None? {
        return false;
      }
      var replaced := Replace(t.value, f);
      var cleaned := UnlinkTemp(t.value);
      ok := replaced && cleaned;
    }

    // ---- the commit ----

    method TakeSnapshots(affected: seq<File>) returns (snapshots: Snapshots, ok: bool)
      modifies this`faults
      ensures old(faults) <= faults && (ok <==> faults == old(faults))
      ensures |snapshots| <= |affected| && (ok ==> |snapshots| == |affected|)
      ensures forall i | 0 <= i < |snapshots| :: snapshots[i] == (affected[i], Lookup(files, affected[i]))
    {
      snapshots, ok := [], true;
      for i := 0 to |affected|
        invariant faults == old(faults)
        invariant |snapshots| == i && forall k | 0 <= k < i :: snapshots[k] == (affected[k], Lookup(files, affected[k]))
      {
        var read, c := Read(affected[i]);
        if !read {
          return snapshots, false;
        }
        snapshots := snapshots + [(affected[i], c)];
      }
    }

    method StageAll(payloads: Payloads) returns (staged: seq<nat>, ok: bool)
      requires Valid()
      modifies this`temps, this`nextTemp, this`leaks, this`faults
      ensures old(faults) <= faults && (ok <==> faults == old(faults))
      ensures old(leaks) <= leaks && (leaks == old(leaks) ==> temps - Ids(staged) == old(temps))
      ensures Valid() && |staged| <= |payloads| && (ok ==> |staged| == |payloads|)
      ensures forall i | 0 <= i < |staged| :: staged[i] in temps && temps[staged[i]] == payloads[i].1
      ensures forall i, j | 0 <= i < j < |staged| :: staged[i] != staged[j]
    {
      staged, ok := [], true;
      for i := 0 to |payloads|
        invariant Valid() && |staged| == i && old(leaks) <= leaks && old(nextTemp) <= nextTemp
        invariant faults == old(faults)
        invariant leaks == old(leaks) ==> temps - Ids(staged) == old(temps)
        invariant forall k | 0 <= k < i :: staged[k] in temps && temps[staged[k]] == payloads[k].1
        invariant forall k, j | 0 <= k < j < i :: staged[k] != staged[j]
      {
        var t := StageWrite(payloads[i].1);
        if t.None? {
          return staged, false;
        }
        IdsMore(temps, staged, t.value);
        staged := staged + [t.value];
      }
    }

    method ReplaceAll(payloads: Payloads, staged: seq<nat>) returns (ok: bool)
      requires Valid() && DistinctTargets(payloads) && |staged| == |payloads|
      requires forall i | 0 <= i < |staged| :: staged[i] in temps && temps[staged[i]] == payloads[i].1
      requires forall i, j | 0 <= i < j < |staged| :: staged[i] != staged[j]
      modifies this`files, this`temps, this`faults
      ensures old(faults) <= faults && (ok <==> faults == old(faults))
      ensures temps - Ids(staged) == old(temps) - Ids(staged)
      ensures Valid() && Whole(old(files), files, payloads, [])
      ensures ok ==> Applied(old(files), files, payloads, [])
    {
      ok := true;
      for i := 0 to |payloads|
        invariant Valid() && Replaced(old(files), files, payloads, i) && faults == old(faults)
        invariant temps - Ids(staged) == old(temps) - Ids(staged)
        invariant forall k | i <= k < |staged| :: staged[k] in temps && temps[staged[k]] == payloads[k].1
      {
        ghost var mid := files;
        var done := Replace(staged[i], payloads[i].0);
        if done {
          ReplacedNext(old(files), mid, files, payloads, i);
        }
        if !done {
          ReplacedIsWhole(old(files), files, payloads, i);
          return false;
        }
      }
      ReplacedIsWhole(old(files), files, payloads, |payloads|);
    }

    method RemoveAll(removals: seq<File>) returns (ok: bool)
      modifies this`files, this`faults
      ensures old(faults) <= faults && (ok <==> faults == old(faults))
      ensures forall f | f !in removals :: Lookup(files, f) == Lookup(old(files), f)
      ensures forall f | f in files :: f in old(files) && files[f] == old(files)[f]
      ensures ok ==> forall f | f in removals :: f !in files
    {
      ok := true;
      for i := 0 to |removals|
        invariant faults == old(faults)
        invariant forall f | f !in removals :: Lookup(files, f) == Lookup(old(files), f)
        invariant forall f | f in files :: f in old(files) && files[f] == old(files)[f]
        invariant forall k | 0 <= k < i :: removals[k] !in files
      {
        var done := Unlink(removals[i]);
        if !done {
          return false;
        }
      }
    }

    /** _restore_snapshots: every snapshot is tried, whatever happened to the ones before. */
    method RestoreSnapshots(snapshots: Snapshots) returns (restored: bool)
      requires Valid() && forall i, j | 0 <= i < j < |snapshots| :: snapshots[i].0 != snapshots[j].0
      modifies this
      ensures Valid()
      ensures old(faults) <= faults && (restored <==> faults == old(faults))
      ensures NoneLeft(old(temps), old(leaks))
      ensures forall f | !Covers(snapshots, f) :: Lookup(files, f) == Lookup(old(files), f)
      ensures forall i | 0 <= i < |snapshots| ::
                Lookup(files,
                       snapshots[i].0) == snapshots[i].1
                           || (!restored && Lookup(files, snapshots[i].0) == Lookup(old(files), snapshots[i].0))
    {
      restored := true;
      for i := 0 to |snapshots|
        invariant Valid() && NoneLeft(old(temps), old(leaks))
        invariant old(faults) <= faults && (restored <==> faults == old(faults))
        invariant forall f | !Covers(snapshots, f) :: Lookup(files, f) == Lookup(old(files), f)
        invariant forall k | 0 <= k < i ::
                    Lookup(files,
                           snapshots[k].0) == snapshots[k].1
                               || (!restored && Lookup(files, snapshots[k].0) == Lookup(old(files), snapshots[k].0))
        invariant forall k | i <= k < |snapshots| :: Lookup(files, snapshots[k].0) == Lookup(old(files), snapshots[k].0)
      {
        var (f, c) := snapshots[i];
        assert Covers(snapshots, f);
        var ok: bool;
        if c.None? {
          ok := Unlink(f);
        } else {
          ok := AtomicWrite(f, c.value);
        }
        restored := restored && ok;
      }
    }

    method CleanUp(staged: seq<nat>) returns (ok: bool)
      requires Valid()
      modifies this`temps, this`leaks, this`faults
      ensures old(faults) <= faults && (ok <==> faults == old(faults))
      ensures Valid() && old(leaks) <= leaks && (leaks == old(leaks) <==> ok)
      ensures ok ==> temps == old(temps) - Ids(staged)
    {
      ok := true;
      IdsOf(staged);
      for i := 0 to |staged|
        invariant Valid() && leaks == old(leaks) && faults == old(faults)
        invariant temps == old(temps) - Ids(staged[..i])
      {
        IdsMore(old(temps), staged[..i], staged[i]);
        assert staged[..i + 1] == staged[..i] + [staged[i]];
        var done := UnlinkTemp(staged[i]);
        if !done {
          return false;
        }
      }
    }

    /** _commit_replacement. `cleaned` is false when the final removal of temporary files raises,
        which then hides the outcome from the caller but does not change the files. */
    method CommitReplacement(payloads: Payloads, removals: seq<File>) returns (r: Outcome, cleaned: bool)
      requires Valid() && DistinctTargets(payloads)
      modifies this
      ensures Valid()
      ensures r == Saved ==> Applied(old(files), files, payloads, removals)
      ensures r == StorageError(true) ==> files == old(files)
      ensures Whole(old(files), files, payloads, removals)
      ensures NoneLeft(old(temps), old(leaks)) && (leaks == old(leaks) ==> cleaned)
      ensures old(faults) <= faults && (faults == old(faults) ==> r == Saved && cleaned)
      ensures r == StorageError(false) ==> faults >= old(faults) + 2
    {
      hide Whole, Applied, Ids;
      IdsOf([]);
      ghost var was := files;
      NothingChanged(was, payloads, removals);
      var affected := Affected(payloads, removals);
      var staged: seq<nat> := [];
      var snapshots, ok := TakeSnapshots(affected);
      if ok {
        AllCovered(payloads, removals, affected, snapshots);
        staged, ok := StageAll(payloads);
        if ok {
          ok := ReplaceAll(payloads, staged);
          if ok {
            ghost var mid := files;
            ok := RemoveAll(removals);
            RemovedIsWhole(was, mid, files, payloads, removals, ok);
          } else {
            WholeWider(was, files, payloads, removals);
          }
        }
      }
      if ok {
        r := Saved;
      } else {
        ghost var broken := files;
        var restored := RestoreSnapshots(snapshots);
        RestoredIsWhole(was, broken, files, payloads, removals, snapshots, restored);
        r := StorageError(restored);
      }
      cleaned := CleanUp(staged);
    }

    // ---- saving providers and registering workspaces ----

    /** A missing document has been created empty, or one of version 2 has become one of version 3 and is
        otherwise as it was. */
    static ghost predicate Modernised(was: Files, now: Files) {
      match Lookup(was, ConfigFile)
      case None => Lookup(now, ConfigFile) == Some(Document(3, None, []))
      case Some(c) => c.Document? && c.version == 2 && Lookup(now, ConfigFile) == Some(c.(version := 3))
    }

    /** _load_user_document: creates a missing document, upgrades one of version 2. */
    method LoadUserDocument() returns (doc: Option<Content>, ghost rejected: bool)
      requires Valid()
      modifies this
      ensures Valid() && SameConfiguration(old(files), files)
      ensures doc.Some? ==> doc.value.Document? && doc.value.version == 3 && Lookup(files, ConfigFile) == doc
      ensures Lookup(files, ConfigFile) == Lookup(old(files), ConfigFile) || Modernised(old(files), files)
      ensures old(faults) <= faults && (doc.Some? ==> faults == old(faults) && !rejected)
      ensures doc.None? && faults == old(faults) ==> rejected || !Current(Lookup(old(files), ConfigFile))
    {
      rejected := false;
      if ConfigFile !in files {
        var written := AtomicWrite(ConfigFile, Document(3, None, []));
        if !written {
          return None, rejected;
        }
      }
      var read, c := Read(ConfigFile);
      if !read || c.None? || !c.value.Document? {
        return None, rejected;
      }
      var invalid: bool := *;
      if invalid {
        return None, true;
      }
      if c.value.version == 2 {
        var upgraded := c.value.(version := 3);
        var written := AtomicWrite(ConfigFile, upgraded);
        return if written then Some(upgraded) else None, rejected;
      }
      doc := if c.value.version == 3 then c else None;
    }

    /** A document that can be loaded: a missing one, or one of version 2 or 3. */
    static ghost predicate Current(c: Option<Content>) {
      c.None? || (c.value.Document? && (c.value.version == 2 || c.value.version == 3))
    }

    /** The save_* and activate_* functions, after validation of their arguments. A save that succeeds
        makes any directory coherent. */
    method SaveProvider(record: Record, secrets: seq<Content>)
      returns (r: Option<Outcome>, cleaned: bool, ghost rejected: bool)
      requires Valid() && |secrets| == |Credentials(record.provider)|
      modifies this
      ensures Valid()
      ensures r == Some(Saved) ==>
                && Coherent(files) && RecordOf(files) == Some(record) && WorkspacesOf(files) == WorkspacesOf(old(files))
                && forall i | 0 <= i < |secrets| :: Lookup(files, Credentials(record.provider)[i]) == Some(secrets[i])
      ensures r == None || r == Some(StorageError(true)) ==> SameConfiguration(old(files), files)
      ensures old(faults) <= faults
      ensures faults == old(faults) && !rejected && Current(Lookup(old(files), ConfigFile)) ==> r == Some(Saved)
      ensures r == Some(StorageError(false)) ==> faults >= old(faults) + 2
    {
      var doc;
      doc, rejected := LoadUserDocument();
      if doc.None? {
        return None, true, rejected;
      }
      ghost var mid := files;
      var updated := doc.value.(record := Some(record));
      var payloads := SavePayloads(record.provider, secrets, updated);
      PayloadTargets(record.provider, secrets, updated);
      var outcome: Outcome;
      outcome, cleaned := CommitReplacement(payloads, Removals(record.provider));
      r := Some(outcome);
      if outcome == Saved {
        SavedIsCoherent(mid, files, record, secrets, doc.value);
      }
    }

    /** _register_workspace */
    method RegisterWorkspace(w: Workspace) returns (ok: bool, ghost rejected: bool)
      requires Valid()
      modifies this
      ensures Valid()
      ensures SameConfiguration(old(files), files) || (Coherent(old(files)) ==> RegisteredIn(old(files), files, w))
      ensures ok && Coherent(old(files)) ==> RegisteredIn(old(files), files, w)
      ensures faults == old(faults) && !rejected && Current(Lookup(old(files), ConfigFile)) ==> ok
    {
      var doc;
      doc, rejected := LoadUserDocument();
      if doc.None? {
        return false, rejected;
      }
      var taken: bool := *;
      if taken {
        return false, true;
      }
      ghost var mid := files;
      ok := AtomicWrite(ConfigFile, doc.value.(workspaces := doc.value.workspaces + [w]));
      if Coherent(old(files)) {
        RegisteredIsCoherent(old(files), mid, doc.value, w);
      }
    }

    /** Any sequence of saves and registrations, up to the first rollback that fails: what was done
        determines the active provider and the workspaces, and the credential files present are
        always the active provider's. */
    method Session(ops: seq<Operation>) returns (broken: bool, ghost log: seq<Done>)
      requires Valid() && Coherent(files)
      requires forall i | 0 <= i < |ops| && ops[i].Save? :: |ops[i].secrets| == |Credentials(ops[i].record.provider)|
      modifies this
      ensures Valid() && |log| <= |ops| && (!broken ==> |log| == |ops|)
      ensures forall i | 0 <= i < |log| :: Performs(ops[i], log[i])
      ensures !broken ==>
                && Coherent(files)
                && RecordOf(files) == LastRecord(RecordOf(old(files)), log)
                && WorkspacesOf(files) == WorkspacesOf(old(files)) + Registered(log)
    {
      hide Coherent, SameConfiguration, RecordOf, WorkspacesOf, LastRecord, Registered, Credentials, RegisteredIn;
      LogStarts(RecordOf(files));
      broken, log := false, [];
      for i := 0 to |ops|
        invariant Valid() && Coherent(files) && |log| == i
        invariant forall k | 0 <= k < i :: Performs(ops[k], log[k])
        invariant RecordOf(files) == LastRecord(RecordOf(old(files)), log)
        invariant WorkspacesOf(files) == WorkspacesOf(old(files)) + Registered(log)
      {
        ghost var before, done := files, Nothing;
        match ops[i] {
          case Save(record, secrets) =>
            var r, _, _ := SaveProvider(record, secrets);
            if r == Some(StorageError(false)) {
              return true, log;
            }
            if r == Some(Saved) {
              done := DidSave(record);
            } else {
              assert r.Some? ==> r.value.StorageError? && r.value.restored;
              SameIsCoherent(before, files);
            }
          case Register(w) =>
            var ok, _ := RegisterWorkspace(w);
            if RegisteredIn(before, files, w) {
              done := DidRegister(w);
              RegisteredFacts(before, files, w);
            } else {
              SameIsCoherent(before, files);
            }
        }
        LogGrows(RecordOf(old(files)), log, done);
        log := log + [done];
      }
    }
  }

  // ---- what the files mean ----

  /** The credential files of a provider, in the order in which a save writes them. */
  function Credentials(p: Provider): seq<File> {
    match p
    case OpenAI => [OpenAIAuth]
    case AzureOpenAI => [AzureAuth]
    case DeepSeek => [DeepSeekAuth]
    case GoogleGemini => [GeminiAuth]
    case Kimi => [KimiAuth]
    case GitHubCopilot => [GitHubAuth, GitHubProviderAuth]
  }

  predicate IsCredential(f: File) {
    f != ConfigFile && !f.OtherFile?
  }

  /** The files that each save removes, as its source lists them. */
  function Removals(p: Provider): seq<File> {
    match p
    case OpenAI => [AzureAuth, DeepSeekAuth, GeminiAuth, KimiAuth, GitHubAuth, GitHubProviderAuth]
    case DeepSeek => [OpenAIAuth, AzureAuth, GeminiAuth, KimiAuth, GitHubAuth, GitHubProviderAuth]
    case GoogleGemini => [OpenAIAuth, AzureAuth, DeepSeekAuth, KimiAuth, GitHubAuth, GitHubProviderAuth]
    case Kimi => [OpenAIAuth, GeminiAuth, AzureAuth, DeepSeekAuth, GitHubAuth, GitHubProviderAuth]
    case AzureOpenAI => [OpenAIAuth, DeepSeekAuth, GeminiAuth, KimiAuth, GitHubAuth, GitHubProviderAuth]
    case GitHubCopilot => [AzureAuth, OpenAIAuth, DeepSeekAuth, GeminiAuth, KimiAuth]
  }

  /** Each save removes exactly the other providers' credentials. */
  lemma RemovalsAreTheOthers(p: Provider, f: File)
    ensures f in Removals(p) <==> IsCredential(f) && f !in Credentials(p)
  {}

  function SavePayloads(p: Provider, secrets: seq<Content>, config: Content): Payloads
    requires |secrets| == |Credentials(p)|
  {
    seq(|secrets|, i requires 0 <= i < |secrets| => (Credentials(p)[i], secrets[i])) + [(ConfigFile, config)]
  }

  lemma PayloadTargets(p: Provider, secrets: seq<Content>, config: Content)
    requires |secrets| == |Credentials(p)|
    ensures var payloads := SavePayloads(p, secrets, config);
            && DistinctTargets(payloads)
            && (forall i | 0 <= i < |secrets| :: payloads[i] == (Credentials(p)[i], secrets[i]))
            && payloads[|secrets|] == (ConfigFile, config)
            && (forall f :: Targets(payloads, f) <==> f == ConfigFile || f in Credentials(p))
  {
    var payloads := SavePayloads(p, secrets, config);
    assert payloads[|secrets|] == (ConfigFile, config);
    forall f
      ensures Targets(payloads, f) <==> f == ConfigFile || f in Credentials(p)
    {
      if f in Credentials(p) {
        var i :| 0 <= i < |Credentials(p)| && Credentials(p)[i] == f;
        assert payloads[i].0 == f;
      }
    }
  }

  function RecordOf(files: Files): Option<Record> {
    if ConfigFile in files && files[ConfigFile].Document? then files[ConfigFile].record else None
  }

  function WorkspacesOf(files: Files): seq<Workspace> {
    if ConfigFile in files && files[ConfigFile].Document? then files[ConfigFile].workspaces else []
  }

  /** config.yaml is a document if it is there, and the credential files present are exactly those
      of its provider. */
  ghost predicate Coherent(files: Files) {
    && (ConfigFile in files ==> files[ConfigFile].Document?)
    && forall f | IsCredential(f) ::
       f in files <==> RecordOf(files).Some? && f in Credentials(RecordOf(files).value.provider)
  }

  /** The same provider, workspaces and other files; config.yaml may have been created or upgraded. */
  ghost predicate SameConfiguration(was: Files, now: Files) {
    && RecordOf(now) == RecordOf(was) && WorkspacesOf(now) == WorkspacesOf(was)
    && (forall f | f != ConfigFile :: Lookup(now, f) == Lookup(was, f))
    && (now == was || (ConfigFile in now && now[ConfigFile].Document?))
  }

  ghost predicate RegisteredIn(was: Files, now: Files, w: Workspace) {
    Coherent(now) && RecordOf(now) == RecordOf(was) && WorkspacesOf(now) == WorkspacesOf(was) + [w]
  }

  lemma SameIsCoherent(was: Files, now: Files)
    requires Coherent(was) && SameConfiguration(was, now)
    ensures Coherent(now) && RecordOf(now) == RecordOf(was) && WorkspacesOf(now) == WorkspacesOf(was)
  {
    forall f | IsCredential(f)
      ensures f in now <==> f in was
    {
      assert Lookup(now, f) == Lookup(was, f);
    }
  }

  lemma RegisteredIsCoherent(was: Files, mid: Files, doc: Content, w: Workspace)
    requires Coherent(was) && SameConfiguration(was, mid) && doc.Document? && Lookup(mid, ConfigFile) == Some(doc)
    ensures RegisteredIn(was, mid[ConfigFile := doc.(workspaces := doc.workspaces + [w])], w)
  {
    SameIsCoherent(was, mid);
  }

  lemma SavedIsCoherent(was: Files, now: Files, record: Record, secrets: seq<Content>, doc: Content)
    requires |secrets| == |Credentials(record.provider)| && doc.Document? && Lookup(was, ConfigFile) == Some(doc)
    requires Applied(was, now, SavePayloads(record.provider, secrets, doc.(record := Some(record))),
                     Removals(record.provider))
    ensures Coherent(now) && RecordOf(now) == Some(record) && WorkspacesOf(now) == WorkspacesOf(was)
    ensures forall i | 0 <= i < |secrets| :: Lookup(now, Credentials(record.provider)[i]) == Some(secrets[i])
  {
    var updated := doc.(record := Some(record));
    var payloads := SavePayloads(record.provider, secrets, updated);
    PayloadTargets(record.provider, secrets, updated);
    RemovalsAreTheOthers(record.provider, ConfigFile);
    PayloadAt(payloads, |secrets|);
    assert Lookup(now, ConfigFile) == Some(updated);
    forall i | 0 <= i < |secrets|
      ensures Lookup(now, Credentials(record.provider)[i]) == Some(secrets[i])
    {
      RemovalsAreTheOthers(record.provider, Credentials(record.provider)[i]);
      PayloadAt(payloads, i);
      assert Lookup(now, payloads[i].0) == PayloadOf(payloads, payloads[i].0);
    }
    forall f | IsCredential(f)
      ensures f in now <==> f in Credentials(record.provider)
    {
      RemovalsAreTheOthers(record.provider, f);
      if f in Credentials(record.provider) {
        var i :| 0 <= i < |Credentials(record.provider)| && Credentials(record.provider)[i] == f;
        assert Lookup(now, f) == Some(secrets[i]);
      } else {
        assert Lookup(now, f) == None;
      }
    }
  }

  datatype Operation = Save(record: Record, secrets: seq<Content>) | Register(workspace: Workspace)

  datatype Done = DidSave(record: Record) | DidRegister(workspace: Workspace) | Nothing

  predicate Performs(op: Operation, done: Done) {
    match done
    case DidSave(record) => op.Save? && op.record == record
    case DidRegister(w) => op == Register(w)
    case Nothing => true
  }

  function LastRecord(initial: Option<Record>, log: seq<Done>): Option<Record> {
    if log == [] then initial
    else if log[|log| - 1].DidSave? then Some(log[|log| - 1].record)
    else LastRecord(initial, log[..|log| - 1])
  }

  function Registered(log: seq<Done>): seq<Workspace> {
    if log == [] then []
    else Registered(log[..|log| - 1]) + if log[|log| - 1].DidRegister? then [log[|log| - 1].workspace] else []
  }

  lemma LogStarts(initial: Option<Record>)
    ensures LastRecord(initial, []) == initial && Registered([]) == []
  {}

  lemma RegisteredFacts(was: Files, now: Files, w: Workspace)
    requires RegisteredIn(was, now, w)
    ensures Coherent(now) && RecordOf(now) == RecordOf(was) && WorkspacesOf(now) == WorkspacesOf(was) + [w]
  {}

  lemma LogGrows(initial: Option<Record>, log: seq<Done>, done: Done)
    ensures LastRecord(initial, log + [done]) == if done.DidSave? then Some(done.record) else LastRecord(initial, log)
    ensures Registered(log + [done]) == Registered(log) + if done.DidRegister? then [done.workspace] else []
  {
    assert (log + [done])[..|log|] == log;
  }
}
