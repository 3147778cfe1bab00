/** Strict lifecycle planning (fsq_agent/execution/lifecycle.py): the tree of cases that `runCase`
    hooks unfold to, the traversal that rejects recursion, and the logical steps the plan records
    for that tree, each under its own invocation path. */
module LifecyclePlan {
  import opened Wrappers

  /** A resolved case file path. */
  type CasePath = string

  datatype Action = RunShell(command: string) | RunCase(target: CasePath)

  type Hook = seq<Action>

  /** A case file: its hooks and, for each command, whether its step kind is "teardown". */
  datatype Case = Case(id: string, onStart: seq<Hook>, onComplete: seq<Hook>, body: seq<bool>)

  /** The configuration-level hooks, which surround the root case only. */
  datatype Config = Config(onStart: seq<Hook>, onComplete: seq<Hook>)

  type Files = map<CasePath, Case>

  datatype Origin = FromConfig | FromCase

  datatype Phase = OnCaseStart | OnCaseComplete

  /** One component of an invocation path; the source spells them as text. */
  datatype Segment = Root | Org(origin: Origin) | Ph(phase: Phase) | Num(n: nat) | Child | Body

  type Path = seq<Segment>

  /** One hook action with its 1-based position: the source's two nested enumerations in order. */
  datatype Slot = Slot(hook: nat, action: nat, act: Action)

  function HookSlots(hook: Hook, hookIndex: nat, from: nat): seq<Slot>
    requires from <= |hook|
    decreases |hook| - from
  {
    if from == |hook| then [] else [Slot(hookIndex, from + 1, hook[from])] + HookSlots(hook, hookIndex, from + 1)
  }

  function SlotsFrom(hooks: seq<Hook>, from: nat): seq<Slot>
    requires from <= |hooks|
    decreases |hooks| - from
  {
    if from == |hooks| then [] else HookSlots(hooks[from], from + 1, 0) + SlotsFrom(hooks, from + 1)
  }

  function Slots(hooks: seq<Hook>): seq<Slot> {
    SlotsFrom(hooks, 0)
  }

  predicate Before(a: Slot, b: Slot) {
    a.hook < b.hook || (a.hook == b.hook && a.action < b.action)
  }

  predicate Ascending(slots: seq<Slot>) {
    forall i, j | 0 <= i < j < |slots| :: Before(slots[i], slots[j])
  }

  lemma {:induction false} HookSlotsAscend(hook: Hook, hookIndex: nat, from: nat)
    requires from <= |hook|
    ensures Ascending(HookSlots(hook, hookIndex, from))
    ensures forall s | s in HookSlots(hook, hookIndex, from) :: s.hook == hookIndex && from < s.action
    decreases |hook| - from
  {
    if from < |hook| {
      HookSlotsAscend(hook, hookIndex, from + 1);
    }
  }

  lemma {:induction false} SlotsAscend(hooks: seq<Hook>, from: nat)
    requires from <= |hooks|
    ensures Ascending(SlotsFrom(hooks, from))
    ensures forall s | s in SlotsFrom(hooks, from) :: from < s.hook
    decreases |hooks| - from
  {
    if from < |hooks| {
      HookSlotsAscend(hooks[from], from + 1, 0);
      SlotsAscend(hooks, from + 1);
    }
  }

  // ---- the tree of cases ----

  datatype Tree = Node(path: CasePath, id: string, root: bool, cfgStart: seq<Branch>, start: seq<Branch>,
                       complete: seq<Branch>, cfgComplete: seq<Branch>, body: seq<bool>)

  datatype Branch = ShellBranch(hook: nat, action: nat) | CaseBranch(hook: nat, action: nat, child: Tree)

  /** The files that a traversal may still enter. */
  function Left(files: Files, stack: seq<CasePath>): set<CasePath> {
    set p | p in files && p !in stack
  }

  lemma LeftShrinks(files: Files, stack: seq<CasePath>, path: CasePath)
    requires path in files && path !in stack
    ensures Left(files, stack + [path]) < Left(files, stack)
  {
    assert path in Left(files, stack) && path !in Left(files, stack + [path]);
  }

  function StartSlots(cfg: Config, root: bool): seq<Slot> {
    if root then Slots(cfg.onStart) else []
  }

  function CompleteSlots(cfg: Config, root: bool): seq<Slot> {
    if root then Slots(cfg.onComplete) else []
  }

  /** The tree below `path`, or None when a hook runs a case that is already on the stack or a file
      that does not exist. Termination: each level takes a file off those left. */
  function Unfold(files: Files, cfg: Config, path: CasePath, stack: seq<CasePath>, root: bool): Option<Tree>
    decreases Left(files, stack), 0, 0
  {
    if path in stack || path !in files then None
    else
      LeftShrinks(files, stack, path);
      var c := files[path];
      var below := stack + [path];
      var cs := UnfoldSlots(files, cfg, StartSlots(cfg, root), below);
      var s := UnfoldSlots(files, cfg, Slots(c.onStart), below);
      var e := UnfoldSlots(files, cfg, Slots(c.onComplete), below);
      var ce := UnfoldSlots(files, cfg, CompleteSlots(cfg, root), below);
      if cs.Some? && s.Some? && e.Some? && ce.Some?
      then Some(Node(path, c.id, root, cs.value, s.value, e.value, ce.value, c.body))
      else None
  }

  function UnfoldSlots(files: Files, cfg: Config, slots: seq<Slot>, stack: seq<CasePath>): (r: Option<seq<Branch>>)
    ensures r.Some? ==> |r.value| == |slots|
    decreases Left(files, stack), 1, |slots|
  {
    if slots == [] then Some([])
    else
      var first := UnfoldSlot(files, cfg, slots[0], stack);
      var rest := UnfoldSlots(files, cfg, slots[1..], stack);
      if first.Some? && rest.Some? then Some([first.value] + rest.value) else None
  }

  function UnfoldSlot(files: Files, cfg: Config, slot: Slot, stack: seq<CasePath>): (r: Option<Branch>)
    ensures r.Some? ==> r.value.hook == slot.hook && r.value.action == slot.action
    ensures r.Some? ==> (r.value.CaseBranch? <==> slot.act.RunCase?)
    decreases Left(files, stack), 1, 0
  {
    match slot.act
    case RunShell(_) => Some(ShellBranch(slot.hook, slot.action))
    case RunCase(target) =>
      var child := Unfold(files, cfg, target, stack, false);
      if child.None? then None else Some(CaseBranch(slot.hook, slot.action, child.value))
  }

  lemma {:induction false} UnfoldSlotsAt(files: Files, cfg: Config, slots: seq<Slot>, stack: seq<CasePath>, k: nat)
    requires k < |slots|
    requires UnfoldSlots(files, cfg, slots, stack).Some?
    ensures UnfoldSlot(files, cfg, slots[k], stack) == Some(UnfoldSlots(files, cfg, slots, stack).value[k])
  {
    if k > 0 {
      UnfoldSlotsAt(files, cfg, slots[1..], stack, k - 1);
    }
  }

  lemma {:induction false} UnfoldSlotsFails(files: Files, cfg: Config, slots: seq<Slot>, stack: seq<CasePath>)
    returns (k: nat)
    requires UnfoldSlots(files, cfg, slots, stack).None?
    ensures k < |slots| && UnfoldSlot(files, cfg, slots[k], stack).None?
  {
    if UnfoldSlot(files, cfg, slots[0], stack).None? {
      k := 0;
    } else {
      k := UnfoldSlotsFails(files, cfg, slots[1..], stack);
      k := k + 1;
    }
  }

  // ---- which case files can be run at all ----

  /** All hook actions of a case, configuration hooks included at the root only. */
  function HookActions(files: Files, cfg: Config, path: CasePath, root: bool): seq<Slot>
    requires path in files
  {
    StartSlots(cfg, root) + Slots(files[path].onStart) + Slots(files[path].onComplete) + CompleteSlots(cfg, root)
  }

  predicate Runs(files: Files, cfg: Config, path: CasePath, target: CasePath, root: bool) {
    path in files && exists k ::
        0 <= k < |HookActions(files, cfg, path, root)| && HookActions(files, cfg, path, root)[k].act == RunCase(target)
  }

  /** A chain of runCase actions. */
  predicate Walk(files: Files, cfg: Config, walk: seq<CasePath>, root: bool) {
    && walk != []
    && forall i | 0 <= i < |walk| - 1 :: Runs(files, cfg, walk[i], walk[i + 1], root && i == 0)
  }

  /** The chain ends in a file that exists and that it has not entered before. */
  predicate EndsFresh(files: Files, stack: seq<CasePath>, walk: seq<CasePath>)
    requires walk != []
  {
    var last := walk[|walk| - 1];
    last in files && last !in stack && last !in walk[..|walk| - 1]
  }

  lemma SlotOfRuns(files: Files, cfg: Config, path: CasePath, target: CasePath, stack: seq<CasePath>, root: bool)
    requires Unfold(files, cfg, path, stack, root).Some? && Runs(files, cfg, path, target, root)
    ensures Unfold(files, cfg, target, stack + [path], false).Some?
  {
    var below := stack + [path];
    var a, b, c := StartSlots(cfg, root), Slots(files[path].onStart), Slots(files[path].onComplete);
    var d := CompleteSlots(cfg, root);
    var k :| 0 <= k < |a + b + c + d| && (a + b + c + d)[k].act == RunCase(target);
    if k < |a| {
      UnfoldSlotsAt(files, cfg, a, below, k);
    } else if k < |a + b| {
      UnfoldSlotsAt(files, cfg, b, below, k - |a|);
    } else if k < |a + b + c| {
      UnfoldSlotsAt(files, cfg, c, below, k - |a + b|);
    } else {
      UnfoldSlotsAt(files, cfg, d, below, k - |a + b + c|);
    }
  }

  lemma {:induction false} AcceptedWalksAreFresh(files: Files, cfg: Config, path: CasePath, stack: seq<CasePath>,
                                                 root: bool, walk: seq<CasePath>)
    requires Unfold(files, cfg, path, stack, root).Some?
    requires Walk(files, cfg, walk, root) && walk[0] == path
    ensures EndsFresh(files, stack, walk)
    decreases |walk|
  {
    if |walk| > 1 {
      assert Runs(files, cfg, walk[0], walk[1], root);
      SlotOfRuns(files, cfg, path, walk[1], stack, root);
      var rest := walk[1..];
      forall i | 0 <= i < |rest| - 1
        ensures Runs(files, cfg, rest[i], rest[i + 1], false && i == 0)
      {
        assert Runs(files, cfg, walk[i + 1], walk[i + 2], root && i + 1 == 0);
      }
      AcceptedWalksAreFresh(files, cfg, walk[1], stack + [path], false, rest);
      assert walk[..|walk| - 1] == [path] + rest[..|rest| - 1];
    }
  }

  lemma {:induction false} RejectedHasBadWalk(files: Files, cfg: Config, path: CasePath, stack: seq<CasePath>,
                                              root: bool)
    returns (walk: seq<CasePath>)
    requires Unfold(files, cfg, path, stack, root).None?
    ensures Walk(files, cfg, walk, root) && walk[0] == path && !EndsFresh(files, stack, walk)
    decreases Left(files, stack)
  {
    walk := [path];
    if path !in stack && path in files {
      LeftShrinks(files, stack, path);
      var below := stack + [path];
      var a, b, c := StartSlots(cfg, root), Slots(files[path].onStart), Slots(files[path].onComplete);
      var d := CompleteSlots(cfg, root);
      var all := a + b + c + d;
      var k: nat;
      if UnfoldSlots(files, cfg, a, below).None? {
        k := UnfoldSlotsFails(files, cfg, a, below);
        assert all[k] == a[k];
      } else if UnfoldSlots(files, cfg, b, below).None? {
        k := UnfoldSlotsFails(files, cfg, b, below);
        assert all[|a| + k] == b[k];
        k := |a| + k;
      } else if UnfoldSlots(files, cfg, c, below).None? {
        k := UnfoldSlotsFails(files, cfg, c, below);
        assert all[|a + b| + k] == c[k];
        k := |a + b| + k;
      } else {
        k := UnfoldSlotsFails(files, cfg, d, below);
        assert all[|a + b + c| + k] == d[k];
        k := |a + b + c| + k;
      }
      var target := all[k].act.target;
      assert Runs(files, cfg, path, target, root) by {
        assert HookActions(files, cfg, path, root) == all;
      }
      var rest := RejectedHasBadWalk(files, cfg, target, below, false);
      walk := [path] + rest;
      forall i | 0 <= i < |walk| - 1
        ensures Runs(files, cfg, walk[i], walk[i + 1], root && i == 0)
      {
        if i > 0 {
          assert Runs(files, cfg, rest[i - 1], rest[i], false && i - 1 == 0);
        }
      }
      assert walk[..|walk| - 1] == [path] + rest[..|rest| - 1];
    }
  }

  /** A case is accepted exactly when no chain of runCase actions from it repeats a file or leaves
      the existing files. */
  lemma AcceptedIffNoRepeat(files: Files, cfg: Config, path: CasePath)
    ensures Unfold(files, cfg, path, [], true).Some? <==>
            forall walk | Walk(files, cfg, walk, true) && walk[0] == path :: EndsFresh(files, [], walk)
  {
    if Unfold(files, cfg, path, [], true).Some? {
      forall walk | Walk(files, cfg, walk, true) && walk[0] == path
        ensures EndsFresh(files, [], walk)
      {
        AcceptedWalksAreFresh(files, cfg, path, [], true, walk);
      }
    } else {
      var walk := RejectedHasBadWalk(files, cfg, path, [], true);
    }
  }

  // ---- the planned steps ----

  /** Step identifiers as text in the source; the kinds never collide because a leaf's ends in
      "-step-" and a number, a hook's in a phase and two numbers. */
  datatype StepId =
    | LeafId(prefix: string, index: nat)
    | ShellId(caseId: string, phase: Phase, hook: nat, action: nat)
    | ContainerId(caseId: string, origin: Origin, phase: Phase, hook: nat, action: nat)

  datatype Step = Step(path: Path, id: StepId, teardown: bool)

  function Scope(invocation: Path, origin: Origin, phase: Phase): Path {
    invocation + [Org(origin), Ph(phase)]
  }

  function BranchPath(at: Path, b: Branch): Path {
    at + [Num(b.hook), Num(b.action)]
  }

  function SlotPath(at: Path, slot: Slot): Path {
    at + [Num(slot.hook), Num(slot.action)]
  }

  /** The step of a hook action itself: a shell step, or the container of a child case. */
  function HookStep(caseId: string, origin: Origin, phase: Phase, at: Path, hook: nat, action: nat,
                    runsCase: bool): Step {
    Step(at + [Num(hook), Num(action)],
         if runsCase then ContainerId(caseId, origin, phase, hook, action) else ShellId(caseId, phase, hook, action),
         phase == OnCaseComplete)
  }

  /** The body's steps; ids of cases run from a hook get the phase in front. */
  function BodyStepsOf(id: string, root: bool, body: seq<bool>, invocation: Path): (r: seq<Step>)
    ensures |r| == |body|
    ensures forall i | 0 <= i < |r| ::
              r[i] == Step(invocation + [Body, Num(i)], LeafId(if root then id else id + "-case", i), body[i])
  {
    seq(|body|,
        i requires 0 <= i < |body| => Step(invocation + [Body, Num(i)], LeafId(if root then id else id + "-case", i),
                                           body[i]))
  }

  function BodySteps(t: Tree, invocation: Path): seq<Step> {
    BodyStepsOf(t.id, t.root, t.body, invocation)
  }

  function Group(t: Tree, origin: Origin, phase: Phase): seq<Branch> {
    match (origin, phase)
    case (FromConfig, OnCaseStart) => t.cfgStart
    case (FromCase, OnCaseStart) => t.start
    case (FromCase, OnCaseComplete) => t.complete
    case (FromConfig, OnCaseComplete) => t.cfgComplete
  }

  /** The steps of a case in the order they are recorded: hook groups, then the body. */
  function Steps(t: Tree, invocation: Path): seq<Step>
    decreases t, 2, 0
  {
    GroupSteps(t.id, FromConfig, OnCaseStart, t.cfgStart, |t.cfgStart|, invocation)
    + GroupSteps(t.id, FromCase, OnCaseStart, t.start, |t.start|, invocation)
    + GroupSteps(t.id, FromCase, OnCaseComplete, t.complete, |t.complete|, invocation)
    + GroupSteps(t.id, FromConfig, OnCaseComplete, t.cfgComplete, |t.cfgComplete|, invocation)
    + BodySteps(t, invocation)
  }

  /** The steps of the first n actions of a hook group. */
  function GroupSteps(caseId: string, origin: Origin, phase: Phase, branches: seq<Branch>, n: nat,
                      invocation: Path): seq<Step>
    requires n <= |branches|
    decreases branches, 1, n
  {
    if n == 0 then []
    else
      GroupSteps(caseId, origin, phase, branches, n - 1, invocation)
      + BranchSteps(caseId, origin, phase, branches[n - 1], invocation)
  }

  /** The steps of one hook action; a runCase container is followed by the steps of its child. */
  function BranchSteps(caseId: string, origin: Origin, phase: Phase, b: Branch, invocation: Path): seq<Step>
    decreases b, 0, 0
  {
    var at := Scope(invocation, origin, phase);
    [HookStep(caseId, origin, phase, at, b.hook, b.action, b.CaseBranch?)]
    + if b.CaseBranch? then Steps(b.child, BranchPath(at, b) + [Child]) else []
  }

  /** The invocation paths of a case's steps, described by where they sit in the tree. */
  predicate Planned(t: Tree, invocation: Path, q: Path)
    decreases t
  {
    || (exists i :: 0 <= i < |t.body| && q == invocation + [Body, Num(i)])
    || (exists origin, phase ::
          InGroup(Group(t, origin, phase), |Group(t, origin, phase)|, Scope(invocation, origin, phase), q))
  }

  predicate InGroup(branches: seq<Branch>, n: nat, at: Path, q: Path)
    requires n <= |branches|
    decreases branches
  {
    exists k :: 0 <= k < n && PlannedBranch(branches[k], at, q)
  }

  predicate PlannedBranch(b: Branch, at: Path, q: Path)
    decreases b
  {
    q == BranchPath(at, b) || (b.CaseBranch? && Planned(b.child, BranchPath(at, b) + [Child], q))
  }

  /** Hook positions within a group are pairwise different. */
  predicate WellPlaced(t: Tree)
    decreases t
  {
    forall origin, phase :: WellPlacedGroup(Group(t, origin, phase))
  }

  predicate WellPlacedGroup(branches: seq<Branch>)
    decreases branches
  {
    && (forall i, j | 0 <= j < i < |branches| :: !SamePlace(branches[i], branches[j]))
    && (forall i | 0 <= i < |branches| :: WellPlacedBranch(branches[i]))
  }

  predicate WellPlacedBranch(b: Branch)
    decreases b
  {
    b.CaseBranch? ==> WellPlaced(b.child)
  }

  predicate SamePlace(a: Branch, b: Branch) {
    a.hook == b.hook && a.action == b.action
  }

  lemma UnfoldSlotsPlaced(files: Files, cfg: Config, slots: seq<Slot>, stack: seq<CasePath>)
    requires UnfoldSlots(files, cfg, slots, stack).Some? && Ascending(slots)
    ensures var r := UnfoldSlots(files, cfg, slots, stack).value;
            forall i, j | 0 <= j < i < |r| :: !SamePlace(r[i], r[j])
  {
    var r := UnfoldSlots(files, cfg, slots, stack).value;
    forall i, j | 0 <= j < i < |r|
      ensures !SamePlace(r[i], r[j])
    {
      UnfoldSlotsAt(files, cfg, slots, stack, i);
      UnfoldSlotsAt(files, cfg, slots, stack, j);
      assert Before(slots[j], slots[i]);
    }
  }

  function GroupHooks(files: Files, cfg: Config, path: CasePath, root: bool, origin: Origin, phase: Phase): seq<Slot>
    requires path in files
  {
    match (origin, phase)
    case (FromConfig, OnCaseStart) => StartSlots(cfg, root)
    case (FromCase, OnCaseStart) => Slots(files[path].onStart)
    case (FromCase, OnCaseComplete) => Slots(files[path].onComplete)
    case (FromConfig, OnCaseComplete) => CompleteSlots(cfg, root)
  }

  lemma GroupHooksAscend(files: Files, cfg: Config, path: CasePath, root: bool, origin: Origin, phase: Phase)
    requires path in files
    ensures Ascending(GroupHooks(files, cfg, path, root, origin, phase))
  {
    SlotsAscend(cfg.onStart, 0);
    SlotsAscend(cfg.onComplete, 0);
    SlotsAscend(files[path].onStart, 0);
    SlotsAscend(files[path].onComplete, 0);
  }

  lemma UnfoldGroup(files: Files, cfg: Config, path: CasePath, stack: seq<CasePath>, root: bool, origin: Origin,
                    phase: Phase)
    requires Unfold(files, cfg, path, stack, root).Some?
    ensures UnfoldSlots(files, cfg, GroupHooks(files, cfg, path, root, origin, phase), stack + [path])
            == Some(Group(Unfold(files, cfg, path, stack, root).value, origin, phase))
  {}

  lemma {:induction false} UnfoldWellPlaced(files: Files, cfg: Config, path: CasePath, stack: seq<CasePath>, root: bool)
    requires Unfold(files, cfg, path, stack, root).Some?
    ensures WellPlaced(Unfold(files, cfg, path, stack, root).value)
    decreases Left(files, stack)
  {
    var t, below := Unfold(files, cfg, path, stack, root).value, stack + [path];
    LeftShrinks(files, stack, path);
    forall origin, phase
      ensures WellPlacedGroup(Group(t, origin, phase))
    {
      var slots, branches := GroupHooks(files, cfg, path, root, origin, phase), Group(t, origin, phase);
      UnfoldGroup(files, cfg, path, stack, root, origin, phase);
      GroupHooksAscend(files, cfg, path, root, origin, phase);
      UnfoldSlotsPlaced(files, cfg, slots, below);
      forall i | 0 <= i < |branches|
        ensures WellPlacedBranch(branches[i])
      {
        UnfoldSlotsAt(files, cfg, slots, below, i);
        if slots[i].act.RunCase? {
          UnfoldWellPlaced(files, cfg, slots[i].act.target, below, false);
        }
      }
    }
  }

  lemma UnfoldIffGroups(files: Files, cfg: Config, path: CasePath, stack: seq<CasePath>, root: bool)
    requires path in files && path !in stack
    ensures Unfold(files, cfg, path, stack, root).Some? <==>
            forall origin, phase ::
                UnfoldSlots(files, cfg, GroupHooks(files, cfg, path, root, origin, phase), stack + [path]).Some?
    ensures Unfold(files, cfg, path, stack, root).Some? ==>
              var t := Unfold(files, cfg, path, stack, root).value;
              t.id == files[path].id && t.root == root && t.body == files[path].body
  {
    var below := stack + [path];
    if forall origin, phase :: UnfoldSlots(files, cfg, GroupHooks(files, cfg, path, root, origin, phase), below).Some? {
      assert UnfoldSlots(files, cfg, GroupHooks(files, cfg, path, root, FromConfig, OnCaseStart), below).Some?;
      assert UnfoldSlots(files, cfg, GroupHooks(files, cfg, path, root, FromCase, OnCaseStart), below).Some?;
      assert UnfoldSlots(files, cfg, GroupHooks(files, cfg, path, root, FromCase, OnCaseComplete), below).Some?;
      assert UnfoldSlots(files, cfg, GroupHooks(files, cfg, path, root, FromConfig, OnCaseComplete), below).Some?;
    }
  }

  // ---- every planned step has an invocation path of its own ----

  predicate HasPath(steps: seq<Step>, q: Path) {
    exists i :: 0 <= i < |steps| && steps[i].path == q
  }

  predicate Distinct(steps: seq<Step>) {
    forall i, j | 0 <= i < j < |steps| :: steps[i].path != steps[j].path
  }

  predicate AllIn(steps: seq<Step>, planned: seq<Step>) {
    forall i | 0 <= i < |steps| :: steps[i] in planned
  }

  lemma AllInParts(a: seq<Step>, b: seq<Step>, planned: seq<Step>)
    requires AllIn(a + b, planned)
    ensures AllIn(a, planned) && AllIn(b, planned)
  {
    assert forall i | 0 <= i < |a| :: (a + b)[i] == a[i];
    assert forall i | 0 <= i < |b| :: (a + b)[|a| + i] == b[i];
  }

  lemma GroupStepsAllIn(t: Tree, invocation: Path, origin: Origin, phase: Phase, planned: seq<Step>)
    requires AllIn(Steps(t, invocation), planned)
    ensures AllIn(GroupSteps(t.id, origin, phase, Group(t, origin, phase), |Group(t, origin, phase)|, invocation),
                  planned)
    ensures AllIn(BodySteps(t, invocation), planned)
  {
    hide GroupSteps, BodySteps, AllIn;
    var a := GroupSteps(t.id, FromConfig, OnCaseStart, t.cfgStart, |t.cfgStart|, invocation);
    var b := GroupSteps(t.id, FromCase, OnCaseStart, t.start, |t.start|, invocation);
    var c := GroupSteps(t.id, FromCase, OnCaseComplete, t.complete, |t.complete|, invocation);
    var d := GroupSteps(t.id, FromConfig, OnCaseComplete, t.cfgComplete, |t.cfgComplete|, invocation);
    AllInParts(a + b + c + d, BodySteps(t, invocation), planned);
    AllInParts(a + b + c, d, planned);
    AllInParts(a + b, c, planned);
    AllInParts(a, b, planned);
  }

  /** The steps of an action are among those of its group. */
  lemma {:induction false} BranchStepsAllIn(caseId: string, origin: Origin, phase: Phase, branches: seq<Branch>, n: nat,
                                            k: nat, invocation: Path, planned: seq<Step>)
    requires k < n <= |branches| && AllIn(GroupSteps(caseId, origin, phase, branches, n, invocation), planned)
    ensures AllIn(BranchSteps(caseId, origin, phase, branches[k], invocation), planned)
    decreases n
  {
    hide BranchSteps, AllIn;
    AllInParts(GroupSteps(caseId, origin, phase, branches, n - 1, invocation),
               BranchSteps(caseId, origin, phase, branches[n - 1], invocation), planned);
    if k < n - 1 {
      BranchStepsAllIn(caseId, origin, phase, branches, n - 1, k, invocation, planned);
    }
  }

  lemma HasPathConcat(a: seq<Step>, b: seq<Step>, q: Path)
    ensures HasPath(a + b, q) <==> HasPath(a, q) || HasPath(b, q)
  {
    if HasPath(a, q) {
      var i :| 0 <= i < |a| && a[i].path == q;
      assert (a + b)[i].path == q;
    }
    if HasPath(b, q) {
      var i :| 0 <= i < |b| && b[i].path == q;
      assert (a + b)[|a| + i].path == q;
    }
    if HasPath(a + b, q) {
      var i :| 0 <= i < |a + b| && (a + b)[i].path == q;
      assert i < |a| ==> a[i].path == q;
      assert i >= |a| ==> b[i - |a|].path == q;
    }
  }

  lemma DistinctConcat(a: seq<Step>, b: seq<Step>)
    requires Distinct(a) && Distinct(b)
    requires forall q :: !(HasPath(a, q) && HasPath(b, q))
    ensures Distinct(a + b)
  {
    forall i, j | 0 <= i < j < |a + b|
      ensures (a + b)[i].path != (a + b)[j].path
    {
      if i < |a| <= j {
        assert HasPath(a, a[i].path) && HasPath(b, b[j - |a|].path);
      }
    }
  }

  lemma {:induction false} PlannedShape(t: Tree, invocation: Path, q: Path)
    requires Planned(t, invocation, q)
    ensures invocation <= q && |invocation| + 2 <= |q|
    ensures q[|invocation|] == Body ==> exists i :: 0 <= i < |t.body| && q == invocation + [Body, Num(i)]
    ensures q[|invocation|] != Body ==>
              exists origin, phase ::
                  InGroup(Group(t, origin, phase), |Group(t, origin, phase)|, Scope(invocation, origin, phase), q)
    decreases t
  {
    if origin, phase :| InGroup(Group(t, origin, phase), |Group(t, origin, phase)|, Scope(invocation, origin, phase),
                                q) {
      var at, branches := Scope(invocation, origin, phase), Group(t, origin, phase);
      var k :| 0 <= k < |branches| && PlannedBranch(branches[k], at, q);
      assert branches[k] < t;
      BranchShape(branches[k], at, q);
      assert q[|invocation|] == at[|invocation|];
    }
  }

  /** Everything under a hook action carries that action's path, so no two actions share a step. */
  lemma {:induction false} BranchShape(b: Branch, at: Path, q: Path)
    requires PlannedBranch(b, at, q)
    ensures at <= BranchPath(at, b) <= q
    ensures q[|at|] == Num(b.hook) && q[|at| + 1] == Num(b.action)
    decreases b
  {
    if q != BranchPath(at, b) {
      PlannedShape(b.child, BranchPath(at, b) + [Child], q);
    }
  }

  /** Where a planned step sits decides its group. */
  lemma InGroupShape(branches: seq<Branch>, n: nat, invocation: Path, origin: Origin, phase: Phase, q: Path)
    requires n <= |branches| && InGroup(branches, n, Scope(invocation, origin, phase), q)
    ensures Scope(invocation, origin, phase) <= q && |invocation| + 4 <= |q|
    ensures q[|invocation|] == Org(origin) && q[|invocation| + 1] == Ph(phase)
  {
    var at := Scope(invocation, origin, phase);
    var k :| 0 <= k < n && PlannedBranch(branches[k], at, q);
    BranchShape(branches[k], at, q);
  }

  ghost predicate Covers(steps: seq<Step>, branches: seq<Branch>, n: nat, at: Path)
    requires n <= |branches|
  {
    forall q :: HasPath(steps, q) <==> InGroup(branches, n, at, q)
  }

  ghost predicate CoversBranch(steps: seq<Step>, b: Branch, at: Path) {
    forall q :: HasPath(steps, q) <==> PlannedBranch(b, at, q)
  }

  lemma {:induction false} BranchExact(caseId: string, origin: Origin, phase: Phase, b: Branch, invocation: Path)
    ensures CoversBranch(BranchSteps(caseId, origin, phase, b, invocation), b, Scope(invocation, origin, phase))
    ensures WellPlacedBranch(b) ==> Distinct(BranchSteps(caseId, origin, phase, b, invocation))
    decreases b, 0, 0
  {
    var at := Scope(invocation, origin, phase);
    var below := BranchPath(at, b) + [Child];
    var head := [HookStep(caseId, origin, phase, at, b.hook, b.action, b.CaseBranch?)];
    var tail := if b.CaseBranch? then Steps(b.child, below) else [];
    assert head[0].path == BranchPath(at, b);
    if b.CaseBranch? {
      StepsExact(b.child, below);
    }
    forall q
      ensures HasPath(head + tail, q) <==> PlannedBranch(b, at, q)
    {
      HasPathConcat(head, tail, q);
      assert HasPath(head, q) <==> q == BranchPath(at, b);
    }
    if b.CaseBranch? && WellPlaced(b.child) {
      forall q
        ensures !(HasPath(head, q) && HasPath(tail, q))
      {
        if HasPath(tail, q) {
          PlannedShape(b.child, below, q);
        }
      }
      DistinctConcat(head, tail);
    }
  }

  lemma {:induction false} GroupExact(caseId: string, origin: Origin, phase: Phase, branches: seq<Branch>, n: nat,
                                      invocation: Path)
    requires n <= |branches|
    ensures Covers(GroupSteps(caseId, origin, phase, branches, n, invocation), branches, n,
                   Scope(invocation, origin, phase))
    ensures WellPlacedGroup(branches) ==> Distinct(GroupSteps(caseId, origin, phase, branches, n, invocation))
    decreases branches, 1, n
  {
    hide *;
    GroupUnfold(caseId, origin, phase, branches, n, invocation);
    if n > 0 {
      GroupExact(caseId, origin, phase, branches, n - 1, invocation);
      BranchExact(caseId, origin, phase, branches[n - 1], invocation);
      GroupGrows(branches, n, Scope(invocation, origin, phase),
                 GroupSteps(caseId, origin, phase, branches, n - 1, invocation),
                 BranchSteps(caseId, origin, phase, branches[n - 1], invocation));
    }
  }

  lemma GroupUnfold(caseId: string, origin: Origin, phase: Phase, branches: seq<Branch>, n: nat, invocation: Path)
    requires n <= |branches|
    ensures n == 0 ==>
              Covers(GroupSteps(caseId, origin, phase, branches, n, invocation), branches, n,
                     Scope(invocation, origin, phase))
    ensures n == 0 ==> Distinct(GroupSteps(caseId, origin, phase, branches, n, invocation))
    ensures n > 0 ==> GroupSteps(caseId, origin, phase, branches, n, invocation)
                      == GroupSteps(caseId, origin, phase, branches, n - 1, invocation)
                         + BranchSteps(caseId, origin, phase, branches[n - 1], invocation)
    ensures n > 0 && WellPlacedGroup(branches) ==> WellPlacedBranch(branches[n - 1])
  {
    hide Steps, BranchSteps, Planned, PlannedBranch;
  }

  lemma GroupGrows(branches: seq<Branch>, n: nat, at: Path, a: seq<Step>, b: seq<Step>)
    requires 0 < n <= |branches|
    requires Covers(a, branches, n - 1, at) && CoversBranch(b, branches[n - 1], at)
    ensures Covers(a + b, branches, n, at)
    ensures WellPlacedGroup(branches) && Distinct(a) && Distinct(b) ==> Distinct(a + b)
  {
    hide Planned, PlannedBranch, InGroup, HasPath, Distinct, WellPlacedGroup;
    forall q
      ensures HasPath(a + b, q) <==> InGroup(branches, n, at, q)
    {
      HasPathConcat(a, b, q);
      InGroupStep(branches, n, at, q);
    }
    if WellPlacedGroup(branches) && Distinct(a) && Distinct(b) {
      forall q
        ensures !(HasPath(a, q) && HasPath(b, q))
      {
        if PlannedBranch(branches[n - 1], at, q) {
          BranchesApart(branches, n - 1, at, q);
        }
      }
      DistinctConcat(a, b);
    }
  }

  lemma InGroupStep(branches: seq<Branch>, n: nat, at: Path, q: Path)
    requires 0 < n <= |branches|
    ensures InGroup(branches, n, at, q) <==> InGroup(branches, n - 1, at, q) || PlannedBranch(branches[n - 1], at, q)
  {}

  lemma BranchesApart(branches: seq<Branch>, n: nat, at: Path, q: Path)
    requires WellPlacedGroup(branches) && n < |branches|
    requires PlannedBranch(branches[n], at, q)
    ensures !InGroup(branches, n, at, q)
  {
    if k :| 0 <= k < n && PlannedBranch(branches[k], at, q) {
      BranchShape(branches[k], at, q);
      BranchShape(branches[n], at, q);
      assert false;
    }
  }

  /** Steps of different groups, and hook and body steps, differ near the front of the path. */
  ghost predicate Apart(a: seq<Step>, b: seq<Step>) {
    forall q :: !(HasPath(a, q) && HasPath(b, q))
  }

  lemma GroupsApart(a: seq<Step>, b: seq<Step>, branches1: seq<Branch>, branches2: seq<Branch>, o1: Origin, p1: Phase,
                    o2: Origin, p2: Phase, invocation: Path)
    requires o1 != o2 || p1 != p2
    requires Covers(a, branches1, |branches1|, Scope(invocation, o1, p1))
    requires Covers(b, branches2, |branches2|, Scope(invocation, o2, p2))
    ensures Apart(a, b)
  {
    forall q
      ensures !(HasPath(a, q) && HasPath(b, q))
    {
      if InGroup(branches1, |branches1|, Scope(invocation, o1, p1), q)
          && InGroup(branches2, |branches2|, Scope(invocation, o2, p2), q) {
        InGroupShape(branches1, |branches1|, invocation, o1, p1, q);
        InGroupShape(branches2, |branches2|, invocation, o2, p2, q);
        assert false;
      }
    }
  }

  lemma BodyApart(a: seq<Step>, branches: seq<Branch>, origin: Origin, phase: Phase, t: Tree, invocation: Path)
    requires Covers(a, branches, |branches|, Scope(invocation, origin, phase))
    ensures Apart(a, BodySteps(t, invocation))
  {
    forall q
      ensures !(HasPath(a, q) && HasPath(BodySteps(t, invocation), q))
    {
      if InGroup(branches, |branches|, Scope(invocation, origin, phase), q) {
        InGroupShape(branches, |branches|, invocation, origin, phase, q);
      }
    }
  }

  /** Planning records each logical step of the tree exactly once. */
  lemma {:induction false} StepsExact(t: Tree, invocation: Path)
    ensures forall q :: HasPath(Steps(t, invocation), q) <==> Planned(t, invocation, q)
    ensures WellPlaced(t) ==> Distinct(Steps(t, invocation))
    decreases t, 2, 0
  {
    var a := GroupSteps(t.id, FromConfig, OnCaseStart, t.cfgStart, |t.cfgStart|, invocation);
    var b := GroupSteps(t.id, FromCase, OnCaseStart, t.start, |t.start|, invocation);
    var c := GroupSteps(t.id, FromCase, OnCaseComplete, t.complete, |t.complete|, invocation);
    var d := GroupSteps(t.id, FromConfig, OnCaseComplete, t.cfgComplete, |t.cfgComplete|, invocation);
    var e := BodySteps(t, invocation);
    GroupExact(t.id, FromConfig, OnCaseStart, t.cfgStart, |t.cfgStart|, invocation);
    GroupExact(t.id, FromCase, OnCaseStart, t.start, |t.start|, invocation);
    GroupExact(t.id, FromCase, OnCaseComplete, t.complete, |t.complete|, invocation);
    GroupExact(t.id, FromConfig, OnCaseComplete, t.cfgComplete, |t.cfgComplete|, invocation);
    forall q
      ensures HasPath(a + b + c + d + e, q) <==> Planned(t, invocation, q)
    {
      FiveHasPath(a, b, c, d, e, q);
      PlannedParts(t, invocation, q);
    }
    if WellPlaced(t) {
      GroupsWellPlaced(t);
      GroupsApart(a, b, t.cfgStart, t.start, FromConfig, OnCaseStart, FromCase, OnCaseStart, invocation);
      GroupsApart(a, c, t.cfgStart, t.complete, FromConfig, OnCaseStart, FromCase, OnCaseComplete, invocation);
      GroupsApart(a, d, t.cfgStart, t.cfgComplete, FromConfig, OnCaseStart, FromConfig, OnCaseComplete, invocation);
      GroupsApart(b, c, t.start, t.complete, FromCase, OnCaseStart, FromCase, OnCaseComplete, invocation);
      GroupsApart(b, d, t.start, t.cfgComplete, FromCase, OnCaseStart, FromConfig, OnCaseComplete, invocation);
      GroupsApart(c, d, t.complete, t.cfgComplete, FromCase, OnCaseComplete, FromConfig, OnCaseComplete, invocation);
      BodyApart(a, t.cfgStart, FromConfig, OnCaseStart, t, invocation);
      BodyApart(b, t.start, FromCase, OnCaseStart, t, invocation);
      BodyApart(c, t.complete, FromCase, OnCaseComplete, t, invocation);
      BodyApart(d, t.cfgComplete, FromConfig, OnCaseComplete, t, invocation);
      assert forall i | 0 <= i < |e| :: e[i].path[|invocation| + 1] == Num(i);
      FiveDistinct(a, b, c, d, e);
    }
  }

  lemma GroupsWellPlaced(t: Tree)
    requires WellPlaced(t)
    ensures WellPlacedGroup(t.cfgStart) && WellPlacedGroup(t.start) && WellPlacedGroup(t.complete)
    ensures WellPlacedGroup(t.cfgComplete)
  {
    assert WellPlacedGroup(Group(t, FromConfig, OnCaseStart)) && WellPlacedGroup(Group(t, FromCase, OnCaseStart));
    assert WellPlacedGroup(Group(t, FromCase, OnCaseComplete)) && WellPlacedGroup(Group(t, FromConfig, OnCaseComplete));
  }

  lemma PlannedParts(t: Tree, invocation: Path, q: Path)
    ensures Planned(t, invocation, q) <==>
            || InGroup(t.cfgStart, |t.cfgStart|, Scope(invocation, FromConfig, OnCaseStart), q)
            || InGroup(t.start, |t.start|, Scope(invocation, FromCase, OnCaseStart), q)
            || InGroup(t.complete, |t.complete|, Scope(invocation, FromCase, OnCaseComplete), q)
            || InGroup(t.cfgComplete, |t.cfgComplete|, Scope(invocation, FromConfig, OnCaseComplete), q)
            || HasPath(BodySteps(t, invocation), q)
  {
    hide InGroup;
    BodyHasPath(t, invocation, q);
    assert t.cfgStart == Group(t, FromConfig, OnCaseStart) && t.start == Group(t, FromCase, OnCaseStart);
    assert t.complete == Group(t, FromCase, OnCaseComplete) && t.cfgComplete == Group(t, FromConfig, OnCaseComplete);
  }

  lemma BodyHasPath(t: Tree, invocation: Path, q: Path)
    ensures HasPath(BodySteps(t, invocation), q) <==> exists i :: 0 <= i < |t.body| && q == invocation + [Body, Num(i)]
  {
    var e := BodySteps(t, invocation);
    assert forall i | 0 <= i < |t.body| :: e[i].path == invocation + [Body, Num(i)];
  }

  lemma FiveHasPath(a: seq<Step>, b: seq<Step>, c: seq<Step>, d: seq<Step>, e: seq<Step>, q: Path)
    ensures HasPath(a + b + c + d + e, q)
            <==> HasPath(a, q) || HasPath(b, q) || HasPath(c, q) || HasPath(d, q) || HasPath(e, q)
  {
    HasPathConcat(a, b, q);
    HasPathConcat(a + b, c, q);
    HasPathConcat(a + b + c, d, q);
    HasPathConcat(a + b + c + d, e, q);
  }

  lemma FiveDistinct(a: seq<Step>, b: seq<Step>, c: seq<Step>, d: seq<Step>, e: seq<Step>)
    requires Distinct(a) && Distinct(b) && Distinct(c) && Distinct(d) && Distinct(e)
    requires Apart(a, b) && Apart(a, c) && Apart(a, d) && Apart(b, c) && Apart(b, d) && Apart(c, d)
    requires Apart(a, e) && Apart(b, e) && Apart(c, e) && Apart(d, e)
    ensures Distinct(a + b + c + d + e)
  {
    forall q
      ensures HasPath(a + b, q) <==> HasPath(a, q) || HasPath(b, q)
      ensures HasPath(a + b + c, q) <==> HasPath(a + b, q) || HasPath(c, q)
      ensures HasPath(a + b + c + d, q) <==> HasPath(a + b + c, q) || HasPath(d, q)
    {
      HasPathConcat(a, b, q);
      HasPathConcat(a + b, c, q);
      HasPathConcat(a + b + c, d, q);
    }
    DistinctConcat(a, b);
    DistinctConcat(a + b, c);
    DistinctConcat(a + b + c, d);
    DistinctConcat(a + b + c + d, e);
  }

  lemma BodyPlanned(t: Tree, invocation: Path, q: Path)
    requires Planned(t, invocation, q) && invocation + [Body] <= q
    ensures HasPath(BodySteps(t, invocation), q)
  {
    PlannedShape(t, invocation, q);
    BodyHasPath(t, invocation, q);
    assert q[|invocation|] == (invocation + [Body])[|invocation|];
  }

  /** A planned step under a group's scope belongs to one of the group's actions. */
  lemma GroupPlanned(t: Tree, invocation: Path, origin: Origin, phase: Phase, q: Path)
    requires Planned(t, invocation, q) && Scope(invocation, origin, phase) <= q
    ensures InGroup(Group(t, origin, phase), |Group(t, origin, phase)|, Scope(invocation, origin, phase), q)
  {
    PlannedShape(t, invocation, q);
    var at := Scope(invocation, origin, phase);
    assert q[|invocation|] == at[|invocation|] == Org(origin)
           && q[|invocation| + 1] == at[|invocation| + 1] == Ph(phase);
    var o, p :| InGroup(Group(t, o, p), |Group(t, o, p)|, Scope(invocation, o, p), q);
    InGroupShape(Group(t, o, p), |Group(t, o, p)|, invocation, o, p, q);
  }

  lemma BranchPlanned(branches: seq<Branch>, k: nat, at: Path, q: Path)
    requires WellPlacedGroup(branches) && k < |branches|
    requires InGroup(branches, |branches|, at, q) && BranchPath(at, branches[k]) <= q
    ensures PlannedBranch(branches[k], at, q)
  {
    var j :| 0 <= j < |branches| && PlannedBranch(branches[j], at, q);
    BranchShape(branches[j], at, q);
    var a := BranchPath(at, branches[k]);
    assert q[|at|] == a[|at|] == Num(branches[k].hook) && q[|at| + 1] == a[|at| + 1] == Num(branches[k].action);
    if j != k {
      assert SamePlace(branches[j], branches[k]);
    }
  }

  /** Every planned step of a case lies in its body or in one of its four groups. */
  lemma PlannedScopes(t: Tree, invocation: Path, q: Path)
    requires Planned(t, invocation, q)
    ensures invocation + [Body] <= q
            || Scope(invocation, FromConfig, OnCaseStart) <= q || Scope(invocation, FromCase, OnCaseStart) <= q
            || Scope(invocation, FromCase, OnCaseComplete) <= q || Scope(invocation, FromConfig, OnCaseComplete) <= q
  {
    PlannedShape(t, invocation, q);
    if q[|invocation|] != Body {
      var o, p :| InGroup(Group(t, o, p), |Group(t, o, p)|, Scope(invocation, o, p), q);
      InGroupShape(Group(t, o, p), |Group(t, o, p)|, invocation, o, p, q);
    }
  }
}
