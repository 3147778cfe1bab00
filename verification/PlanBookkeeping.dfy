/** The executor's bookkeeping while it plans (fsq_agent/execution/lifecycle.py:390-444): what has
    been planned, what is still open, and what the execution will look up later. */
module PlanBookkeeping {
  import opened Wrappers
  import opened LifecyclePlan

  /** The bookkeeping of planning for a case at `invocation`: the executor finds every step it
      will look up. */
  ghost predicate Ready(t: Tree, invocation: Path, cs: map<Path, seq<Step>>, hs: map<Path, Step>)
    decreases t
  {
    && invocation in cs && cs[invocation] == BodySteps(t, invocation)
    && forall origin, phase ::
       ReadyGroup(t.id, origin, phase, Group(t, origin, phase), |Group(t, origin, phase)|, invocation, cs, hs)
  }

  ghost predicate ReadyGroup(caseId: string, origin: Origin, phase: Phase, branches: seq<Branch>, n: nat,
                             invocation: Path, cs: map<Path, seq<Step>>, hs: map<Path, Step>)
    requires n <= |branches|
    decreases branches
  {
    forall k | 0 <= k < n :: ReadyBranch(caseId, origin, phase, branches[k], invocation, cs, hs)
  }

  ghost predicate ReadyBranch(caseId: string, origin: Origin, phase: Phase, b: Branch, invocation: Path,
                              cs: map<Path, seq<Step>>, hs: map<Path, Step>)
    decreases b
  {
    var at := Scope(invocation, origin, phase);
    && BranchPath(at, b) in hs
       && hs[BranchPath(at, b)] == HookStep(caseId, origin, phase, at, b.hook, b.action, b.CaseBranch?)
    && (b.CaseBranch? ==> Ready(b.child, BranchPath(at, b) + [Child], cs, hs))
  }

  ghost predicate Extends<K(!new), V(!new)>(m: map<K, V>, m': map<K, V>) {
    forall k | k in m :: k in m' && m'[k] == m[k]
  }

  lemma {:induction false} ReadyStays(t: Tree, invocation: Path, cs: map<Path, seq<Step>>, hs: map<Path, Step>,
                                      cs': map<Path, seq<Step>>, hs': map<Path, Step>)
    requires Ready(t, invocation, cs, hs) && Extends(cs, cs') && Extends(hs, hs')
    ensures Ready(t, invocation, cs', hs')
    decreases t
  {
    forall origin, phase
      ensures ReadyGroup(t.id, origin, phase, Group(t, origin, phase), |Group(t, origin, phase)|, invocation, cs', hs')
    {
      assert ReadyGroup(t.id, origin, phase, Group(t, origin, phase), |Group(t, origin, phase)|, invocation, cs, hs);
      ReadyGroupStays(t.id, origin, phase, Group(t, origin, phase), |Group(t, origin, phase)|, invocation, cs, hs, cs',
                      hs');
    }
  }

  lemma {:induction false} ReadyGroupStays(caseId: string, origin: Origin, phase: Phase, branches: seq<Branch>, n: nat,
                                           invocation: Path, cs: map<Path, seq<Step>>, hs: map<Path, Step>,
                                           cs': map<Path, seq<Step>>, hs': map<Path, Step>)
    requires n <= |branches| && ReadyGroup(caseId, origin, phase, branches, n, invocation, cs, hs)
    requires Extends(cs, cs') && Extends(hs, hs')
    ensures ReadyGroup(caseId, origin, phase, branches, n, invocation, cs', hs')
    decreases branches
  {
    forall k | 0 <= k < n
      ensures ReadyBranch(caseId, origin, phase, branches[k], invocation, cs', hs')
    {
      ReadyBranchStays(caseId, origin, phase, branches[k], invocation, cs, hs, cs', hs');
    }
  }

  lemma {:induction false} ReadyBranchStays(caseId: string, origin: Origin, phase: Phase, b: Branch, invocation: Path,
                                            cs: map<Path, seq<Step>>, hs: map<Path, Step>, cs': map<Path, seq<Step>>,
                                            hs': map<Path, Step>)
    requires ReadyBranch(caseId, origin, phase, b, invocation, cs, hs) && Extends(cs, cs') && Extends(hs, hs')
    ensures ReadyBranch(caseId, origin, phase, b, invocation, cs', hs')
    decreases b
  {
    if b.CaseBranch? {
      ReadyStays(b.child, BranchPath(Scope(invocation, origin, phase), b) + [Child], cs, hs, cs', hs');
    }
  }

  /** Nothing has been planned under `at` yet. */
  ghost predicate Unplanned(planned: seq<Step>, cs: map<Path, seq<Step>>, hs: map<Path, Step>, at: Path) {
    && (forall i | 0 <= i < |planned| :: !(at <= planned[i].path))
    && (forall q | q in cs :: !(at <= q))
    && (forall q | q in hs :: !(at <= q))
  }

  /** Planning only adds, and only under `at`. */
  ghost predicate PlanAdds(p0: seq<Step>, cs0: map<Path, seq<Step>>, hs0: map<Path, Step>,
                           p1: seq<Step>, cs1: map<Path, seq<Step>>, hs1: map<Path, Step>, at: Path) {
    && |p0| <= |p1| && p1[..|p0|] == p0
    && (forall i | |p0| <= i < |p1| :: at <= p1[i].path)
    && Extends(cs0, cs1) && Extends(hs0, hs1)
    && (forall q | q in cs1 && q !in cs0 :: at <= q)
    && (forall q | q in hs1 && q !in hs0 :: at <= q)
  }

  /** Two paths neither of which lies under the other. */
  ghost predicate Diverge(a: Path, b: Path) {
    exists i :: 0 <= i < |a| && i < |b| && a[i] != b[i]
  }

  lemma StillUnplanned(p0: seq<Step>, cs0: map<Path, seq<Step>>, hs0: map<Path, Step>,
                       p1: seq<Step>, cs1: map<Path, seq<Step>>, hs1: map<Path, Step>, at: Path, other: Path)
    requires PlanAdds(p0, cs0, hs0, p1, cs1, hs1, at) && Unplanned(p0, cs0, hs0, other)
    requires Diverge(at, other)
    ensures Unplanned(p1, cs1, hs1, other)
  {
    var i :| 0 <= i < |at| && i < |other| && at[i] != other[i];
    assert forall q: Path | at <= q :: q[i] == at[i];
    assert forall q: Path | other <= q :: q[i] == other[i];
    assert forall j | 0 <= j < |p0| :: p1[j] == p0[j];
  }

  lemma PlanAddsTwice(p0: seq<Step>, cs0: map<Path, seq<Step>>, hs0: map<Path, Step>,
                      p1: seq<Step>, cs1: map<Path, seq<Step>>, hs1: map<Path, Step>,
                      p2: seq<Step>, cs2: map<Path, seq<Step>>, hs2: map<Path, Step>, at1: Path, at2: Path, at: Path)
    requires PlanAdds(p0, cs0, hs0, p1, cs1, hs1, at1) && PlanAdds(p1, cs1, hs1, p2, cs2, hs2, at2)
    requires at <= at1 && at <= at2
    ensures PlanAdds(p0, cs0, hs0, p2, cs2, hs2, at)
  {
    assert p2[..|p0|] == p1[..|p0|];
    assert forall i | 0 <= i < |p1| :: p2[i] == p1[i];
  }

  /** The order in which a case's groups are planned. */
  function GroupIndex(origin: Origin, phase: Phase): nat {
    match (origin, phase)
    case (FromConfig, OnCaseStart) => 0
    case (FromCase, OnCaseStart) => 1
    case (FromCase, OnCaseComplete) => 2
    case (FromConfig, OnCaseComplete) => 3
  }

  /** The groups from the k-th on, and the body, are still to be planned. */
  ghost predicate OpenFrom(k: nat, planned: seq<Step>, cs: map<Path, seq<Step>>, hs: map<Path, Step>, at: Path) {
    && (forall origin, phase | k <= GroupIndex(origin, phase) :: Unplanned(planned, cs, hs, Scope(at, origin, phase)))
    && Unplanned(planned, cs, hs, at + [Body]) && at !in cs
  }

  lemma AllOpen(planned: seq<Step>, cs: map<Path, seq<Step>>, hs: map<Path, Step>, at: Path)
    requires Unplanned(planned, cs, hs, at)
    ensures OpenFrom(0, planned, cs, hs, at) && Unplanned(planned, cs, hs, Scope(at, FromConfig, OnCaseStart))
  {}

  lemma GroupDone(p0: seq<Step>, cs0: map<Path, seq<Step>>, hs0: map<Path, Step>,
                  p1: seq<Step>, cs1: map<Path, seq<Step>>, hs1: map<Path, Step>, at: Path, origin: Origin,
                  phase: Phase)
    requires PlanAdds(p0, cs0, hs0, p1, cs1, hs1, Scope(at, origin, phase))
    requires OpenFrom(GroupIndex(origin, phase), p0, cs0, hs0, at)
    ensures OpenFrom(GroupIndex(origin, phase) + 1, p1, cs1, hs1, at)
    ensures forall o, p | GroupIndex(o, p) == GroupIndex(origin, phase) + 1 :: Unplanned(p1, cs1, hs1, Scope(at, o, p))
  {
    var s := Scope(at, origin, phase);
    assert s[|at|] == Org(origin) && s[|at| + 1] == Ph(phase);
    forall o, p | GroupIndex(origin, phase) + 1 <= GroupIndex(o, p)
      ensures Unplanned(p1, cs1, hs1, Scope(at, o, p))
    {
      assert Scope(at, o, p)[|at|] == Org(o) && Scope(at, o, p)[|at| + 1] == Ph(p);
      StillUnplanned(p0, cs0, hs0, p1, cs1, hs1, s, Scope(at, o, p));
    }
    assert (at + [Body])[|at|] == Body;
    StillUnplanned(p0, cs0, hs0, p1, cs1, hs1, s, at + [Body]);
  }

  lemma SlotsDiverge(at: Path, a: Slot, b: Slot)
    requires Before(a, b)
    ensures Diverge(SlotPath(at, a), SlotPath(at, b))
  {
    assert SlotPath(at, a)[|at|] == Num(a.hook) && SlotPath(at, b)[|at|] == Num(b.hook);
    assert SlotPath(at, a)[|at| + 1] == Num(a.action) && SlotPath(at, b)[|at| + 1] == Num(b.action);
  }

  /** The hook part of a case's plan. */
  function HookSteps(t: Tree, invocation: Path): seq<Step> {
    GroupSteps(t.id, FromConfig, OnCaseStart, t.cfgStart, |t.cfgStart|, invocation)
    + GroupSteps(t.id, FromCase, OnCaseStart, t.start, |t.start|, invocation)
    + GroupSteps(t.id, FromCase, OnCaseComplete, t.complete, |t.complete|, invocation)
    + GroupSteps(t.id, FromConfig, OnCaseComplete, t.cfgComplete, |t.cfgComplete|, invocation)
  }

  lemma StepsFromGroups(p0: seq<Step>, t: Tree, at: Path)
    ensures p0 + HookSteps(t, at) + BodySteps(t, at) == p0 + Steps(t, at)
  {
    assert Steps(t, at) == HookSteps(t, at) + BodySteps(t, at);
  }

  lemma FourGroups(p0: seq<Step>, p1: seq<Step>, p2: seq<Step>, p3: seq<Step>, p4: seq<Step>, t: Tree, at: Path)
    requires p1 == p0 + GroupSteps(t.id, FromConfig, OnCaseStart, t.cfgStart, |t.cfgStart|, at)
    requires p2 == p1 + GroupSteps(t.id, FromCase, OnCaseStart, t.start, |t.start|, at)
    requires p3 == p2 + GroupSteps(t.id, FromCase, OnCaseComplete, t.complete, |t.complete|, at)
    requires p4 == p3 + GroupSteps(t.id, FromConfig, OnCaseComplete, t.cfgComplete, |t.cfgComplete|, at)
    ensures p4 == p0 + HookSteps(t, at)
  {
    hide GroupSteps;
  }

  lemma GroupStepsNext(p0: seq<Step>, caseId: string, origin: Origin, phase: Phase, branches: seq<Branch>, k: nat,
                       invocation: Path)
    requires k < |branches|
    ensures p0 + GroupSteps(caseId, origin, phase, branches, k, invocation)
            + BranchSteps(caseId, origin, phase, branches[k], invocation)
            == p0 + GroupSteps(caseId, origin, phase, branches, k + 1, invocation)
  {
    hide BranchSteps;
  }

  lemma PlanAddsWider(p0: seq<Step>, cs0: map<Path, seq<Step>>, hs0: map<Path, Step>,
                      p1: seq<Step>, cs1: map<Path, seq<Step>>, hs1: map<Path, Step>, at1: Path, at: Path)
    requires PlanAdds(p0, cs0, hs0, p1, cs1, hs1, at1) && at <= at1
    ensures PlanAdds(p0, cs0, hs0, p1, cs1, hs1, at)
    ensures Extends(cs0, cs1) && Extends(hs0, hs1)
  {}

  /** Groups that were ready when planned are ready when the later ones have been planned. */
  lemma GroupsReady(t: Tree, at: Path, cs1: map<Path, seq<Step>>, hs1: map<Path, Step>, cs2: map<Path, seq<Step>>,
                    hs2: map<Path, Step>, cs3: map<Path, seq<Step>>, hs3: map<Path, Step>, cs4: map<Path, seq<Step>>,
                    hs4: map<Path, Step>)
    requires Extends(cs1, cs2) && Extends(cs2, cs3) && Extends(cs3, cs4)
    requires Extends(hs1, hs2) && Extends(hs2, hs3) && Extends(hs3, hs4)
    requires ReadyGroup(t.id, FromConfig, OnCaseStart, t.cfgStart, |t.cfgStart|, at, cs1, hs1)
    requires ReadyGroup(t.id, FromCase, OnCaseStart, t.start, |t.start|, at, cs2, hs2)
    requires ReadyGroup(t.id, FromCase, OnCaseComplete, t.complete, |t.complete|, at, cs3, hs3)
    requires ReadyGroup(t.id, FromConfig, OnCaseComplete, t.cfgComplete, |t.cfgComplete|, at, cs4, hs4)
    ensures forall origin, phase ::
              ReadyGroup(t.id, origin, phase, Group(t, origin, phase), |Group(t, origin, phase)|, at, cs4, hs4)
  {
    hide ReadyGroup;
    ReadyGroupStays(t.id, FromConfig, OnCaseStart, t.cfgStart, |t.cfgStart|, at, cs1, hs1, cs4, hs4);
    ReadyGroupStays(t.id, FromCase, OnCaseStart, t.start, |t.start|, at, cs2, hs2, cs4, hs4);
    ReadyGroupStays(t.id, FromCase, OnCaseComplete, t.complete, |t.complete|, at, cs3, hs3, cs4, hs4);
  }

  lemma PlanOne(p0: seq<Step>, cs: map<Path, seq<Step>>, hs: map<Path, Step>, step: Step, q: Path)
    requires Unplanned(p0, cs, hs, q) && step.path == q
    ensures !HasPath(p0, q)
    ensures PlanAdds(p0, cs, hs, p0 + [step], cs, hs[q := step], q)
    ensures Unplanned(p0 + [step], cs, hs[q := step], q + [Child])
  {}

  lemma BranchStepsAppended(p0: seq<Step>, caseId: string, origin: Origin, phase: Phase, b: Branch, invocation: Path)
    ensures var at := Scope(invocation, origin, phase);
            p0 + [HookStep(caseId, origin, phase, at, b.hook, b.action, b.CaseBranch?)]
            + (if b.CaseBranch? then Steps(b.child, BranchPath(at, b) + [Child]) else [])
            == p0 + BranchSteps(caseId, origin, phase, b, invocation)
  {
    hide Steps;
  }

  ghost predicate SlotsOpen(slots: seq<Slot>, k: nat, planned: seq<Step>, cs: map<Path, seq<Step>>, hs: map<Path, Step>,
                            at: Path) {
    forall j | k <= j < |slots| :: Unplanned(planned, cs, hs, SlotPath(at, slots[j]))
  }

  /** How far a hook group has been planned. */
  ghost predicate Progress(p0: seq<Step>, cs0: map<Path, seq<Step>>, hs0: map<Path, Step>,
                           planned: seq<Step>, cs: map<Path, seq<Step>>, hs: map<Path, Step>,
                           caseId: string, origin: Origin, phase: Phase, slots: seq<Slot>, ob: Option<seq<Branch>>,
                           k: nat, invocation: Path)
    requires k <= |slots| && (ob.Some? ==> |ob.value| == |slots|)
  {
    && PlanAdds(p0, cs0, hs0, planned, cs, hs, Scope(invocation, origin, phase))
    && SlotsOpen(slots, k, planned, cs, hs, Scope(invocation, origin, phase))
    && (ob.Some? ==> planned == p0 + GroupSteps(caseId, origin, phase, ob.value, k, invocation))
    && (ob.Some? ==> ReadyGroup(caseId, origin, phase, ob.value, k, invocation, cs, hs))
  }

  lemma ProgressStart(p0: seq<Step>, cs0: map<Path, seq<Step>>, hs0: map<Path, Step>,
                      caseId: string, origin: Origin, phase: Phase, slots: seq<Slot>, ob: Option<seq<Branch>>,
                      invocation: Path)
    requires (ob.Some? ==> |ob.value| == |slots|) && Unplanned(p0, cs0, hs0, Scope(invocation, origin, phase))
    ensures Progress(p0, cs0, hs0, p0, cs0, hs0, caseId, origin, phase, slots, ob, 0, invocation)
  {
    SlotsStartOpen(slots, p0, cs0, hs0, Scope(invocation, origin, phase));
  }

  lemma ProgressStep(p0: seq<Step>, cs0: map<Path, seq<Step>>, hs0: map<Path, Step>,
                     p1: seq<Step>, cs1: map<Path, seq<Step>>, hs1: map<Path, Step>,
                     p2: seq<Step>, cs2: map<Path, seq<Step>>, hs2: map<Path, Step>,
                     caseId: string, origin: Origin, phase: Phase, slots: seq<Slot>, ob: Option<seq<Branch>>, k: nat,
                     invocation: Path)
    requires Ascending(slots) && k < |slots| && (ob.Some? ==> |ob.value| == |slots|)
    requires Progress(p0, cs0, hs0, p1, cs1, hs1, caseId, origin, phase, slots, ob, k, invocation)
    requires PlanAdds(p1, cs1, hs1, p2, cs2, hs2, SlotPath(Scope(invocation, origin, phase), slots[k]))
    requires ob.Some? ==> p2 == p1 + BranchSteps(caseId, origin, phase, ob.value[k], invocation)
    requires ob.Some? ==> ReadyBranch(caseId, origin, phase, ob.value[k], invocation, cs2, hs2)
    ensures Progress(p0, cs0, hs0, p2, cs2, hs2, caseId, origin, phase, slots, ob, k + 1, invocation)
  {
    hide PlanAdds, ReadyBranch, BranchSteps, Ascending;
    var at := Scope(invocation, origin, phase);
    PlanAddsTwice(p0, cs0, hs0, p1, cs1, hs1, p2, cs2, hs2, at, SlotPath(at, slots[k]), at);
    SlotsStayOpen(slots, k, p1, cs1, hs1, p2, cs2, hs2, at);
    if ob.Some? {
      ReadyGroupStays(caseId, origin, phase, ob.value, k, invocation, cs1, hs1, cs2, hs2);
      GroupStepsNext(p0, caseId, origin, phase, ob.value, k, invocation);
    }
  }

  lemma SlotUnplanned(p0: seq<Step>, cs0: map<Path, seq<Step>>, hs0: map<Path, Step>,
                      p1: seq<Step>, cs1: map<Path, seq<Step>>, hs1: map<Path, Step>,
                      caseId: string, origin: Origin, phase: Phase, slots: seq<Slot>, ob: Option<seq<Branch>>, k: nat,
                      invocation: Path)
    requires k < |slots| && (ob.Some? ==> |ob.value| == |slots|)
    requires Progress(p0, cs0, hs0, p1, cs1, hs1, caseId, origin, phase, slots, ob, k, invocation)
    ensures Unplanned(p1, cs1, hs1, SlotPath(Scope(invocation, origin, phase), slots[k]))
    ensures PlanAdds(p0, cs0, hs0, p1, cs1, hs1, Scope(invocation, origin, phase))
  {
    hide PlanAdds, Unplanned;
  }

  lemma ProgressEnd(p0: seq<Step>, cs0: map<Path, seq<Step>>, hs0: map<Path, Step>,
                    p1: seq<Step>, cs1: map<Path, seq<Step>>, hs1: map<Path, Step>,
                    caseId: string, origin: Origin, phase: Phase, slots: seq<Slot>, ob: Option<seq<Branch>>,
                    invocation: Path)
    requires ob.Some? ==> |ob.value| == |slots|
    requires Progress(p0, cs0, hs0, p1, cs1, hs1, caseId, origin, phase, slots, ob, |slots|, invocation)
    ensures PlanAdds(p0, cs0, hs0, p1, cs1, hs1, Scope(invocation, origin, phase))
    ensures ob.Some? ==> p1 == p0 + GroupSteps(caseId, origin, phase, ob.value, |ob.value|, invocation)
    ensures ob.Some? ==> ReadyGroup(caseId, origin, phase, ob.value, |ob.value|, invocation, cs1, hs1)
  {
    hide PlanAdds, Unplanned, ReadyBranch, GroupSteps;
  }

  lemma SlotsStartOpen(slots: seq<Slot>, planned: seq<Step>, cs: map<Path, seq<Step>>, hs: map<Path, Step>, at: Path)
    requires Unplanned(planned, cs, hs, at)
    ensures SlotsOpen(slots, 0, planned, cs, hs, at) && PlanAdds(planned, cs, hs, planned, cs, hs, at)
  {}

  lemma SlotsStayOpen(slots: seq<Slot>, k: nat, p0: seq<Step>, cs0: map<Path, seq<Step>>, hs0: map<Path, Step>,
                      p1: seq<Step>, cs1: map<Path, seq<Step>>, hs1: map<Path, Step>, at: Path)
    requires Ascending(slots) && k < |slots| && SlotsOpen(slots, k, p0, cs0, hs0, at)
    requires PlanAdds(p0, cs0, hs0, p1, cs1, hs1, SlotPath(at, slots[k]))
    ensures SlotsOpen(slots, k + 1, p1, cs1, hs1, at)
    ensures Extends(cs0, cs1) && Extends(hs0, hs1)
  {
    hide Unplanned;
    forall j | k < j < |slots|
      ensures Unplanned(p1, cs1, hs1, SlotPath(at, slots[j]))
    {
      assert Before(slots[k], slots[j]);
      SlotsDiverge(at, slots[k], slots[j]);
      StillUnplanned(p0, cs0, hs0, p1, cs1, hs1, SlotPath(at, slots[k]), SlotPath(at, slots[j]));
    }
  }
}
