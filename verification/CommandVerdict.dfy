/** When the verdict on a case's own commands can be wrong (fsq_agent/execution/lifecycle.py:595-603).
    It compares results with those recorded before by execution id or, failing that, step id. A step
    that was recorded without being executed leaves its step id free, a later execution of the same
    step receives it, and the verdict then takes that execution's result for an old one. */
module CommandVerdict {
  import opened Wrappers
  import opened LifecyclePlan
  import opened LifecycleFacts

  /** A run of the body that fails and is reported as passed. */
  ghost predicate Misjudged(all: seq<Step>, normals: nat, r0: seq<Result>, r1: seq<Result>, issuedIds: set<StepId>,
                            generated: nat) {
    BodyRun(all, normals, |all|, r0, r1, issuedIds, generated) && Verdict(r0, r1) && !PassedSince(r0, r1)
  }

  /** The i-th step can fail unnoticed: its own result is overlooked, and so are those of the
      normal steps that it makes the runner skip. */
  predicate CanHide(all: seq<Step>, normals: nat, i: nat, r0: seq<Result>, issuedIds: set<StepId>)
    requires i < |all| && normals <= |all|
  {
    Overlooked(r0, all[i].id, issuedIds) && forall j | i < j < normals :: IdentityIn(r0, Plain(all[j].id))
  }

  function RunResult(all: seq<Step>, normals: nat, fail: nat, k: nat, issuedIds: set<StepId>, generated: nat): Result
    requires k < |all|
  {
    if fail < k < normals then Result(all[k].path, Skipped, Plain(all[k].id), false)
    else Result(all[k].path, if k == fail then Failed else Passed,
                if all[k].id in issuedIds then Generated(generated + k) else Plain(all[k].id), true)
  }

  /** The run in which the step `fail` fails and every other executed step passes. */
  function FailingRun(all: seq<Step>, normals: nat, fail: nat, r0: seq<Result>, issuedIds: set<StepId>,
                      generated: nat): seq<Result> {
    r0 + seq(|all|, k requires 0 <= k < |all| => RunResult(all, normals, fail, k, issuedIds, generated))
  }

  lemma FailingRunIsARun(all: seq<Step>, normals: nat, fail: nat, r0: seq<Result>, issuedIds: set<StepId>,
                         generated: nat)
    requires fail < |all| && normals <= |all|
    ensures BodyRun(all, normals, |all|, r0, FailingRun(all, normals, fail, r0, issuedIds, generated), issuedIds,
                    generated)
  {
    var r1 := FailingRun(all, normals, fail, r0, issuedIds, generated);
    assert r1[..|r0|] == r0;
    forall k | 0 <= k < |all|
      ensures StepResult(all, normals, k, r0, r1, issuedIds, generated)
    {
      var before := r1[..|r0| + k];
      assert forall i | |r0| <= i < |r0| + k ::
             before[i] == RunResult(all, normals, fail, i - |r0|, issuedIds, generated);
      if fail < k {
        assert before[|r0| + fail].status == Failed;
      }
      assert r1[|r0| + k] == RunResult(all, normals, fail, k, issuedIds, generated);
    }
  }

  lemma HiddenFailure(all: seq<Step>, normals: nat, i: nat, r0: seq<Result>, issuedIds: set<StepId>, generated: nat)
    requires i < |all| && normals <= |all| && CanHide(all, normals, i, r0, issuedIds)
    ensures Misjudged(all, normals, r0, FailingRun(all, normals, i, r0, issuedIds, generated), issuedIds, generated)
  {
    var r1 := FailingRun(all, normals, i, r0, issuedIds, generated);
    FailingRunIsARun(all, normals, i, r0, issuedIds, generated);
    assert r1[|r0| + i] == RunResult(all, normals, i, i, issuedIds, generated);
    assert forall n | 0 <= n < |r0| :: r1[n] == r0[n] && IdentityIn(r0, r0[n].identity);
    forall n | |r0| <= n < |r1| && !IdentityIn(r0, r1[n].identity)
      ensures r1[n].status.Passed?
    {
      assert r1[n] == RunResult(all, normals, i, n - |r0|, issuedIds, generated);
    }
  }

  lemma OnlyHiddenFailures(planned: seq<Step>, starts: seq<Path>, all: seq<Step>, normals: nat, r0: seq<Result>,
                           r1: seq<Result>, issuedIds: set<StepId>, generated: nat) returns (i: nat)
    requires Consistent(planned, r0, starts, issuedIds, generated) && normals <= |all|
    requires Misjudged(all, normals, r0, r1, issuedIds, generated)
    ensures i < |all| && CanHide(all, normals, i, r0, issuedIds)
  {
    i := FirstFailure(all, normals, |all|, r0, r1, issuedIds, generated);
    assert StepResult(all, normals, i, r0, r1, issuedIds, generated);
    OverlookedIff(planned, r0, starts, issuedIds, generated, r1[|r0| + i].identity, all[i].id);
    forall j | i < j < normals
      ensures IdentityIn(r0, Plain(all[j].id))
    {
      assert StepResult(all, normals, j, r0, r1, issuedIds, generated);
      assert r1[..|r0| + j][|r0| + i] == r1[|r0| + i];
    }
  }

  /** The verdict on a body can be wrong exactly when some step of it can hide: a caller can tell
      from the evidence recorded before the body runs. */
  lemma WrongVerdictIff(planned: seq<Step>, starts: seq<Path>, all: seq<Step>, normals: nat, r0: seq<Result>,
                        issuedIds: set<StepId>, generated: nat)
    requires Consistent(planned, r0, starts, issuedIds, generated) && normals <= |all|
    ensures (exists r1 :: Misjudged(all, normals, r0, r1, issuedIds, generated))
            <==> exists i :: 0 <= i < |all| && CanHide(all, normals, i, r0, issuedIds)
  {
    if r1 :| Misjudged(all, normals, r0, r1, issuedIds, generated) {
      var i := OnlyHiddenFailures(planned, starts, all, normals, r0, r1, issuedIds, generated);
    }
    if i :| 0 <= i < |all| && CanHide(all, normals, i, r0, issuedIds) {
      HiddenFailure(all, normals, i, r0, issuedIds, generated);
    }
  }

  /** A whole case cannot be misjudged unless one of its command steps waits (Piece, in LifecycleFacts);
      the steps that can hide are among those. */
  lemma HidingStepWaits(planned: seq<Step>, starts: seq<Path>, all: seq<Step>, normals: nat, i: nat, r0: seq<Result>,
                        issuedIds: set<StepId>, generated: nat)
    requires Consistent(planned, r0, starts, issuedIds, generated) && i < |all| && normals <= |all|
    requires CanHide(all, normals, i, r0, issuedIds) && all[i].id.LeafId?
    ensures Waiting(r0, all[i].id)
  {
    OverlookedIff(planned, r0, starts, issuedIds, generated, Plain(all[i].id), all[i].id);
  }

  // ---- an instance ----

  /** A case that runs the same two-step case in two completion hooks. */
  const FILES: Files := map["suite.yaml" := Case("suite", [], [[RunCase("login.yaml")], [RunCase("login.yaml")]],
                                                 [false]),
                            "login.yaml" := Case("login", [], [], [false, false])]

  const NO_HOOKS: Config := Config([], [])

  const LOGIN: Tree := Node("login.yaml", "login", false, [], [], [], [], [false, false])

  const SUITE: Tree := Node("suite.yaml", "suite", true, [], [], [CaseBranch(1, 1, LOGIN), CaseBranch(2, 1, LOGIN)], [],
                            [false])

  /** Where the completion hook runs its child. */
  function LoginAt(hook: nat): Path {
    [Root, Org(FromCase), Ph(OnCaseComplete), Num(hook), Num(1), Child]
  }

  function LoginSteps(hook: nat): seq<Step> {
    BodySteps(LOGIN, LoginAt(hook))
  }

  function Container(hook: nat): Step {
    HookStep("suite", FromCase, OnCaseComplete, [Root, Org(FromCase), Ph(OnCaseComplete)], hook, 1, true)
  }

  /** What has been recorded when the second hook enters its child: the body of the suite passed, the
      first run's first step failed, its second was skipped. */
  function Recorded(): seq<Result> {
    [Result([Root, Body, Num(0)], Passed, Plain(LeafId("suite", 0)), true),
     Result(LoginSteps(1)[0].path, Failed, Plain(LoginSteps(1)[0].id), true),
     Result(LoginSteps(1)[1].path, Skipped, Plain(LoginSteps(1)[1].id), false),
     Result(Container(1).path, Failed, Plain(Container(1).id), false)]
  }

  function Started(): seq<Path> {
    [[Root, Body, Num(0)], Container(1).path, LoginSteps(1)[0].path, Container(2).path]
  }

  const ISSUED: set<StepId> := {LeafId("suite", 0), LeafId("login-case", 0)}

  lemma SuiteUnfolds()
    ensures Unfold(FILES, NO_HOOKS, "suite.yaml", [], true) == Some(SUITE)
  {
    var below := ["suite.yaml"];
    assert [] + below == below;
    LoginUnfolds();
    var slots := [Slot(1, 1, RunCase("login.yaml")), Slot(2, 1, RunCase("login.yaml"))];
    assert Slots(FILES["suite.yaml"].onComplete) == slots;
    TwoSlots(FILES, NO_HOOKS, slots, below, CaseBranch(1, 1, LOGIN), CaseBranch(2, 1, LOGIN));
  }

  lemma TwoSlots(files: Files, cfg: Config, slots: seq<Slot>, stack: seq<CasePath>, a: Branch, b: Branch)
    requires |slots| == 2 && UnfoldSlot(files, cfg, slots[0], stack) == Some(a)
    requires UnfoldSlot(files, cfg, slots[1], stack) == Some(b)
    ensures UnfoldSlots(files, cfg, slots, stack) == Some([a, b])
  {
    var rest := slots[1..];
    assert rest[0] == slots[1] && rest[1..] == [];
    assert UnfoldSlots(files, cfg, rest[1..], stack) == Some([]);
    assert [b] + [] == [b] && [a] + [b] == [a, b];
    assert UnfoldSlots(files, cfg, rest, stack) == Some([b]);
  }

  lemma LoginUnfolds()
    ensures Unfold(FILES, NO_HOOKS, "login.yaml", ["suite.yaml"], false) == Some(LOGIN)
  {}

  lemma SuitePlan()
    ensures Steps(SUITE, [Root])
              == [Container(1)] + LoginSteps(1) + [Container(2)] + LoginSteps(2) + BodySteps(SUITE, [Root])
    ensures Distinct(Steps(SUITE, [Root]))
  {
    SuiteUnfolds();
    UnfoldWellPlaced(FILES, NO_HOOKS, "suite.yaml", [], true);
    StepsExact(SUITE, [Root]);
    hide Distinct, Planned, WellPlaced, Unfold;
    SuiteSteps();
  }

  lemma SuiteSteps()
    ensures Steps(SUITE, [Root])
              == [Container(1)] + LoginSteps(1) + [Container(2)] + LoginSteps(2) + BodySteps(SUITE, [Root])
  {
    hide BodySteps, BranchSteps;
    LoginBranch(1);
    LoginBranch(2);
    TwoBranches("suite", FromCase, OnCaseComplete, SUITE.complete, [Root]);
  }

  lemma TwoBranches(caseId: string, origin: Origin, phase: Phase, branches: seq<Branch>, invocation: Path)
    requires |branches| == 2
    ensures GroupSteps(caseId, origin, phase, branches, 2, invocation)
            == BranchSteps(caseId, origin, phase, branches[0], invocation)
               + BranchSteps(caseId, origin, phase, branches[1], invocation)
  {
    hide BranchSteps;
    assert GroupSteps(caseId, origin, phase, branches, 1, invocation)
           == [] + BranchSteps(caseId, origin, phase, branches[0], invocation);
  }

  lemma LoginBranch(hook: nat)
    ensures BranchSteps("suite", FromCase, OnCaseComplete, CaseBranch(hook, 1, LOGIN), [Root])
              == [Container(hook)] + LoginSteps(hook)
  {
    var at := Scope([Root], FromCase, OnCaseComplete);
    assert at == [Root, Org(FromCase), Ph(OnCaseComplete)];
    assert BranchPath(at, CaseBranch(hook, 1, LOGIN)) + [Child] == LoginAt(hook);
    LoginPlan(hook);
  }

  lemma LoginPlan(hook: nat)
    ensures Steps(LOGIN, LoginAt(hook)) == LoginSteps(hook)
  {}

  lemma RecordedIsConsistent()
    ensures Consistent(Steps(SUITE, [Root]), Recorded(), Started(), ISSUED, 0)
  {
    hide Steps, Distinct, HasPath;
    SuitePlan();
    RecordedIsPlanned();
    RecordedApart();
    var r := Recorded();
    assert r[0].executed && r[1].executed && !r[2].executed && !r[3].executed;
    assert "login" + "-case" == "login-case";
    assert PassedMeansExecuted(r);
  }

  lemma RecordedIsPlanned()
    ensures forall i | 0 <= i < |Recorded()| :: HasPath(Steps(SUITE, [Root]), Recorded()[i].path)
    ensures forall i | 0 <= i < |Started()| :: HasPath(Steps(SUITE, [Root]), Started()[i])
  {
    hide Steps, Distinct;
    SuitePlan();
    var planned, r := Steps(SUITE, [Root]), Recorded();
    assert planned[6].path == r[0].path && planned[1].path == r[1].path && planned[2].path == r[2].path
           && planned[0].path == r[3].path;
    assert planned[3].path == Container(2).path;
    assert HasPath(planned, r[0].path) && HasPath(planned, r[1].path) && HasPath(planned, r[2].path)
           && HasPath(planned, r[3].path);
  }

  lemma RecordedApart()
    ensures forall i, j | 0 <= i < j < |Recorded()| :: Recorded()[i].path != Recorded()[j].path
  {
    var r := Recorded();
    assert |r[0].path| == 3 && |r[1].path| == 8 && |r[2].path| == 8 && |r[3].path| == 5;
    assert r[1].path[7] == Num(0) && r[2].path[7] == Num(1);
  }

  /** The first run is one that the sequence runner can make. */
  lemma FirstRun()
    ensures BodyRun(LoginSteps(1), 2, 2, Recorded()[..1], Recorded()[..3], {LeafId("suite", 0)}, 0)
  {
    var all, r0, r1 := LoginSteps(1), Recorded()[..1], Recorded()[..3];
    assert r1[..1] == r0 && r1[..2][1].status == Failed;
    assert StepResult(all, 2, 0, r0, r1, {LeafId("suite", 0)}, 0);
    assert StepResult(all, 2, 1, r0, r1, {LeafId("suite", 0)}, 0);
  }

  /** It happens: in the first run of the child its first step fails and its second is skipped; in
      the second run the second step fails, and the run is reported as passed. */
  lemma WrongVerdictHappens()
    ensures Unfold(FILES, NO_HOOKS, "suite.yaml", [], true) == Some(SUITE)
    ensures BodyRun(LoginSteps(1), 2, 2, Recorded()[..1], Recorded()[..3], {LeafId("suite", 0)}, 0)
    ensures Consistent(Steps(SUITE, [Root]), Recorded(), Started(), ISSUED, 0)
    ensures forall k | 0 <= k < 2 :: HasPath(Steps(SUITE, [Root]), LoginSteps(2)[k].path)
    ensures exists r1 :: Misjudged(LoginSteps(2), 2, Recorded(), r1, ISSUED, 0)
  {
    hide Unfold, Steps, Consistent, BodyRun, Misjudged;
    SuiteUnfolds();
    FirstRun();
    RecordedIsConsistent();
    SuitePlan();
    var planned, all := Steps(SUITE, [Root]), LoginSteps(2);
    assert planned[4] == all[0] && planned[5] == all[1];
    assert IdentityIn(Recorded(), Plain(all[1].id)) by {
      assert Recorded()[2].identity == Plain(all[1].id);
    }
    assert CanHide(all, 2, 1, Recorded(), ISSUED);
    HiddenFailure(all, 2, 1, Recorded(), ISSUED, 0);
  }
}
