/** The strict lifecycle executor (fsq_agent/execution/lifecycle.py:177-965 and
    fsq_agent/core/runner/_sequence.py:25-83): planning, execution with skipping, completion
    hooks, cancellation and interruption. Cancellation, shell exits and the outcome of a step
    are nondeterministic choices (`*`), so every property below holds whatever they are. */
module Lifecycle {
  import opened Wrappers
  import opened LifecyclePlan
  import opened LifecycleFacts
  import opened PlanBookkeeping

  /** How the process of a shell hook ends: with an exit code, with an exception that counts as a failure
      to start, or with a cancellation. */
  datatype ShellEnd = Exited(code: int) | NotStarted | Interrupted

  class Executor {
    const files: Files
    const cfg: Config
    const casePath: CasePath
    var invocation: Path
    var completionDepth: nat
    var caseSteps: map<Path, seq<Step>>
    var hookSteps: map<Path, Step>
    // the evidence recorder
    var planned: seq<Step>
    var results: seq<Result>
    var starts: seq<Path>
    var issuedIds: set<StepId>
    var generated: nat
    // the step runner's last result
    var lastResult: Option<Path>
    /** the steps that the step runner was called for, in order */
    ghost var attempts: seq<Path>

    constructor (files: Files, cfg: Config, casePath: CasePath)
      ensures this.files == files && this.cfg == cfg && this.casePath == casePath
      ensures invocation == [Root] && completionDepth == 0
      ensures planned == [] && results == [] && starts == [] && caseSteps == map[] && hookSteps == map[]
      ensures issuedIds == {} && generated == 0 && lastResult == None && attempts == []
    {
      this.files, this.cfg, this.casePath := files, cfg, casePath;
      invocation, completionDepth := [Root], 0;
      caseSteps, hookSteps := map[], map[];
      planned, results, starts := [], [], [];
      issuedIds, generated, lastResult, attempts := {}, 0, None, [];
    }

    // ---- planning ----

    /** EvidenceRecorder.record_planned_step: a key that is already planned is not planned again. */
    method RecordPlanned(step: Step)
      modifies this`planned
      ensures planned == if HasPath(old(planned), step.path) then old(planned) else old(planned) + [step]
    {
      if !HasPath(planned, step.path) {
        planned := planned + [step];
      }
    }

    /** _plan_case; false stands for the exception (recursion, or a file that does not exist). */
    method PlanCase(path: CasePath, stack: seq<CasePath>, hasParent: bool, at: Path) returns (ok: bool)
      requires Unplanned(planned, caseSteps, hookSteps, at)
      modifies this`planned, this`caseSteps, this`hookSteps, this`invocation
      ensures invocation == old(invocation)
      ensures PlanAdds(old(planned), old(caseSteps), old(hookSteps), planned, caseSteps, hookSteps, at)
      ensures var t := Unfold(files, cfg, path, stack, !hasParent && path == casePath);
              && (ok <==> t.Some?)
              && (ok ==> planned == old(planned) + Steps(t.value, at) && Ready(t.value, at, caseSteps, hookSteps))
      decreases Left(files, stack), 3
    {
      var root := !hasParent && path == casePath;
      if path in stack || path !in files {
        return false;
      }
      LeftShrinks(files, stack, path);
      UnfoldIffGroups(files, cfg, path, stack, root);
      ghost var p0, cs0, hs0 := planned, caseSteps, hookSteps;
      var previous := invocation;
      invocation := at;
      ok := PlanAllGroups(path, root, stack);
      if ok {
        ghost var t := Unfold(files, cfg, path, stack, root).value;
        ghost var p1, cs1, hs1 := planned, caseSteps, hookSteps;
        var steps := BodyStepsOf(files[path].id, root, files[path].body, invocation);
        caseSteps := caseSteps[at := steps];
        PlanBody(steps, at);
        PlanAddsTwice(p0, cs0, hs0, p1, cs1, hs1, planned, caseSteps, hookSteps, at, at, at);
        forall origin, phase
          ensures ReadyGroup(t.id, origin, phase, Group(t, origin, phase), |Group(t, origin, phase)|, at, caseSteps,
                             hookSteps)
        {
          ReadyGroupStays(t.id, origin, phase, Group(t, origin, phase), |Group(t, origin, phase)|, at, cs1, hs1,
                          caseSteps, hookSteps);
        }
        StepsFromGroups(p0, t, at);
      }
      invocation := previous;
    }

    method PlanAllGroups(path: CasePath, root: bool, stack: seq<CasePath>) returns (ok: bool)
      requires path in files && path !in stack
      requires Unplanned(planned, caseSteps, hookSteps, invocation)
      modifies this`planned, this`caseSteps, this`hookSteps, this`invocation
      ensures invocation == old(invocation)
      ensures PlanAdds(old(planned), old(caseSteps), old(hookSteps), planned, caseSteps, hookSteps, invocation)
      ensures var ot := Unfold(files, cfg, path, stack, root);
              && (ok <==> ot.Some?)
              && (ok ==> planned == old(planned) + HookSteps(ot.value, invocation))
              && (ok ==> OpenFrom(4, planned, caseSteps, hookSteps, invocation))
              && (ok ==> forall origin, phase ::
                           ReadyGroup(ot.value.id, origin, phase, Group(ot.value, origin, phase),
                                      |Group(ot.value, origin, phase)|, invocation, caseSteps, hookSteps))
      decreases Left(files, stack + [path]), 6
    {
      hide GroupSteps, Ready, ReadyGroup, PlanAdds, Extends, OpenFrom;
      ghost var p0, cs0, hs0, at := planned, caseSteps, hookSteps, invocation;
      UnfoldIffGroups(files, cfg, path, stack, root);
      AllOpen(p0, cs0, hs0, at);
      ok := PlanGroup(path, root, FromConfig, OnCaseStart, stack);
      ghost var p1, cs1, hs1 := planned, caseSteps, hookSteps;
      PlanAddsWider(p0, cs0, hs0, p1, cs1, hs1, Scope(at, FromConfig, OnCaseStart), at);
      if !ok { return; }
      GroupDone(p0, cs0, hs0, p1, cs1, hs1, at, FromConfig, OnCaseStart);
      ok := PlanGroup(path, root, FromCase, OnCaseStart, stack);
      ghost var p2, cs2, hs2 := planned, caseSteps, hookSteps;
      PlanAddsWider(p1, cs1, hs1, p2, cs2, hs2, Scope(at, FromCase, OnCaseStart), at);
      PlanAddsTwice(p0, cs0, hs0, p1, cs1, hs1, p2, cs2, hs2, at, at, at);
      if !ok { return; }
      GroupDone(p1, cs1, hs1, p2, cs2, hs2, at, FromCase, OnCaseStart);
      ok := PlanGroup(path, root, FromCase, OnCaseComplete, stack);
      ghost var p3, cs3, hs3 := planned, caseSteps, hookSteps;
      PlanAddsWider(p2, cs2, hs2, p3, cs3, hs3, Scope(at, FromCase, OnCaseComplete), at);
      PlanAddsTwice(p0, cs0, hs0, p2, cs2, hs2, p3, cs3, hs3, at, at, at);
      if !ok { return; }
      GroupDone(p2, cs2, hs2, p3, cs3, hs3, at, FromCase, OnCaseComplete);
      ok := PlanGroup(path, root, FromConfig, OnCaseComplete, stack);
      ghost var p4, cs4, hs4 := planned, caseSteps, hookSteps;
      PlanAddsWider(p3, cs3, hs3, p4, cs4, hs4, Scope(at, FromConfig, OnCaseComplete), at);
      PlanAddsTwice(p0, cs0, hs0, p3, cs3, hs3, p4, cs4, hs4, at, at, at);
      if !ok { return; }
      GroupDone(p3, cs3, hs3, p4, cs4, hs4, at, FromConfig, OnCaseComplete);
      ghost var t := Unfold(files, cfg, path, stack, root).value;
      UnfoldGroup(files, cfg, path, stack, root, FromConfig, OnCaseStart);
      UnfoldGroup(files, cfg, path, stack, root, FromCase, OnCaseStart);
      UnfoldGroup(files, cfg, path, stack, root, FromCase, OnCaseComplete);
      UnfoldGroup(files, cfg, path, stack, root, FromConfig, OnCaseComplete);
      GroupsReady(t, at, cs1, hs1, cs2, hs2, cs3, hs3, cs4, hs4);
      FourGroups(p0, p1, p2, p3, p4, t, at);
    }

    method PlanBody(steps: seq<Step>, at: Path)
      requires forall i | 0 <= i < |planned| :: !(at + [Body] <= planned[i].path)
      requires forall i | 0 <= i < |steps| :: steps[i].path == at + [Body, Num(i)]
      modifies this`planned
      ensures planned == old(planned) + steps
    {
      for i := 0 to |steps|
        invariant planned == old(planned) + steps[..i]
      {
        assert !HasPath(planned, steps[i].path) by {
          HasPathConcat(old(planned), steps[..i], steps[i].path);
          assert at + [Body] <= steps[i].path;
          assert forall j | 0 <= j < i :: steps[j].path[|at| + 1] == Num(j);
        }
        RecordPlanned(steps[i]);
        assert steps[..i + 1] == steps[..i] + [steps[i]];
      }
    }

    /** The actions of one hook group, in order. */
    method PlanGroup(path: CasePath, root: bool, origin: Origin, phase: Phase, stack: seq<CasePath>) returns (ok: bool)
      requires path in files && path !in stack
      requires Unplanned(planned, caseSteps, hookSteps, Scope(invocation, origin, phase))
      modifies this`planned, this`caseSteps, this`hookSteps, this`invocation
      ensures invocation == old(invocation)
      ensures PlanAdds(old(planned), old(caseSteps), old(hookSteps), planned, caseSteps, hookSteps,
                       Scope(invocation, origin, phase))
      ensures var ob := UnfoldSlots(files, cfg, GroupHooks(files, cfg, path, root, origin, phase), stack + [path]);
              && (ok <==> ob.Some?)
              && (ok ==>
                    planned
                        == old(planned) + GroupSteps(files[path].id, origin, phase, ob.value, |ob.value|, invocation))
              && (ok ==>
                    ReadyGroup(files[path].id, origin, phase, ob.value, |ob.value|, invocation, caseSteps, hookSteps))
      decreases Left(files, stack + [path]), 5
    {
      var slots, below := GroupHooks(files, cfg, path, root, origin, phase), stack + [path];
      var at := Scope(invocation, origin, phase);
      var id := files[path].id;
      ghost var ob := UnfoldSlots(files, cfg, slots, below);
      ghost var p0, cs0, hs0 := planned, caseSteps, hookSteps;
      GroupHooksAscend(files, cfg, path, root, origin, phase);
      ProgressStart(p0, cs0, hs0, id, origin, phase, slots, ob, invocation);
      hide Progress, BranchSteps, ReadyBranch, Unplanned, PlanAdds, UnfoldSlots, UnfoldSlot, Ascending;
      for k := 0 to |slots|
        invariant invocation == old(invocation)
        invariant forall j | 0 <= j < k :: UnfoldSlot(files, cfg, slots[j], below).Some?
        invariant Progress(p0, cs0, hs0, planned, caseSteps, hookSteps, id, origin, phase, slots, ob, k, invocation)
      {
        ghost var p1, cs1, hs1 := planned, caseSteps, hookSteps;
        SlotUnplanned(p0, cs0, hs0, p1, cs1, hs1, id, origin, phase, slots, ob, k, invocation);
        ok := PlanAction(id, origin, phase, slots[k], below);
        if ob.Some? {
          UnfoldSlotsAt(files, cfg, slots, below, k);
        }
        if !ok {
          PlanAddsTwice(p0, cs0, hs0, p1, cs1, hs1, planned, caseSteps, hookSteps, at, SlotPath(at, slots[k]), at);
          return;
        }
        ProgressStep(p0, cs0, hs0, p1, cs1, hs1, planned, caseSteps, hookSteps, id, origin, phase, slots, ob, k,
                     invocation);
      }
      ProgressEnd(p0, cs0, hs0, planned, caseSteps, hookSteps, id, origin, phase, slots, ob, invocation);
      if ob.None? {
        ghost var k := UnfoldSlotsFails(files, cfg, slots, below);
        assert false;
      }
      ok := true;
    }

    method PlanAction(caseId: string, origin: Origin, phase: Phase, slot: Slot, stack: seq<CasePath>) returns (ok: bool)
      requires Unplanned(planned, caseSteps, hookSteps, SlotPath(Scope(invocation, origin, phase), slot))
      modifies this`planned, this`caseSteps, this`hookSteps, this`invocation
      ensures invocation == old(invocation)
      ensures PlanAdds(old(planned), old(caseSteps), old(hookSteps), planned, caseSteps, hookSteps,
                       SlotPath(Scope(invocation, origin, phase), slot))
      ensures var ob := UnfoldSlot(files, cfg, slot, stack);
              && (ok <==> ob.Some?)
              && (ok ==> planned == old(planned) + BranchSteps(caseId, origin, phase, ob.value, invocation))
              && (ok ==> ReadyBranch(caseId, origin, phase, ob.value, invocation, caseSteps, hookSteps))
      decreases Left(files, stack), 4
    {
      var at := Scope(invocation, origin, phase);
      var q := SlotPath(at, slot);
      ghost var p0, cs0, hs0 := planned, caseSteps, hookSteps;
      var step := HookStep(caseId, origin, phase, at, slot.hook, slot.action, slot.act.RunCase?);
      assert step.path == q;
      PlanOne(p0, cs0, hs0, step, q);
      hide Unplanned, PlanAdds, BranchSteps, Steps, HasPath;
      hookSteps := hookSteps[q := step];
      RecordPlanned(step);
      ghost var p1, hs1 := planned, hookSteps;
      match slot.act {
        case RunShell(_) =>
          ok := true;
          BranchStepsAppended(p0, caseId, origin, phase, ShellBranch(slot.hook, slot.action), invocation);
        case RunCase(target) =>
          ok := PlanCase(target, stack, true, q + [Child]);
          PlanAddsTwice(p0, cs0, hs0, p1, cs0, hs1, planned, caseSteps, hookSteps, q, q + [Child], q);
          if ok {
            ghost var child := Unfold(files, cfg, target, stack, false).value;
            BranchStepsAppended(p0, caseId, origin, phase, CaseBranch(slot.hook, slot.action, child), invocation);
            PlanAddsWider(p1, cs0, hs1, planned, caseSteps, hookSteps, q + [Child], q + [Child]);
          }
      }
    }

    // ---- execution ----

    ghost predicate Valid()
      reads this
    {
      && Consistent(planned, results, starts, issuedIds, generated)
      && (lastResult.Some? ==> RecordedIn(results, lastResult.value))
    }

    /** The cancellation callback; true means that it raised. It is only ever called outside
        completion hooks, which is what the precondition says of every call site. */
    method Poll() returns (cancelled: bool)
      requires completionDepth == 0
    {
      cancelled := *;
    }

    /** _check_cancel */
    method CheckCancel() returns (cancelled: bool)
      ensures completionDepth > 0 ==> !cancelled
    {
      cancelled := false;
      if completionDepth == 0 {
        cancelled := Poll();
      }
    }

    method RecordResult(r: Result)
      requires Valid() && HasPath(planned, r.path) && !RecordedIn(results, r.path)
      requires if r.executed then Issued(r.identity, issuedIds, generated)
               else r.identity.Plain? && (r.identity.id.LeafId? ==> !r.status.Passed?)
      modifies this`results
      ensures Valid() && results == old(results) + [r]
    {
      if lastResult.Some? {
        RecordedStays(results, results + [r], lastResult.value);
      }
      results := results + [r];
    }

    /** EvidenceRecorder.allocate_step_identity: the step id, or a new identity when it is taken. */
    method AllocateIdentity(id: StepId) returns (identity: Identity)
      requires Valid()
      modifies this`issuedIds, this`generated
      ensures Valid() && issuedIds == old(issuedIds) + {id} && old(generated) <= generated
      ensures IdentityFor(identity, id, old(issuedIds), old(generated)) && Issued(identity, issuedIds, generated)
    {
      if id in issuedIds {
        identity := Generated(generated);
        generated := generated + 1;
      } else {
        identity := Plain(id);
        issuedIds := issuedIds + {id};
      }
    }

    /** StepRunner.run_step: None when it raises, which may be before the start is recorded, before
        the result is, or after. */
    method RunStep(step: Step) returns (status: Option<Status>)
      requires Valid() && HasPath(planned, step.path) && Clean(results, starts, Under(step.path)) && step.id.LeafId?
      modifies this`results, this`starts, this`issuedIds, this`generated, this`lastResult, this`attempts
      ensures Valid() && old(issuedIds) <= issuedIds <= old(issuedIds) + {step.id} && old(generated) <= generated
      ensures starts == old(starts) || starts == old(starts) + [step.path]
      ensures lastResult.None? ==> results == old(results)
      ensures lastResult.Some? ==>
                && lastResult.value == step.path && starts == old(starts) + [step.path]
                && |results| == |old(results)| + 1 && results[..|old(results)|] == old(results)
                && results[|old(results)|].path == step.path
                && results[|old(results)|].executed
                && IdentityFor(results[|old(results)|].identity, step.id, old(issuedIds), old(generated))
      ensures status.Some? ==> lastResult.Some? && results[|old(results)|].status == status.value
      ensures attempts == old(attempts) + [step.path]
    {
      attempts := attempts + [step.path];
      lastResult := None;
      var identity := AllocateIdentity(step.id);
      var notStarted: bool := *;
      if notStarted {
        return None;
      }
      starts := starts + [step.path];
      var notRecorded: bool := *;
      if notRecorded {
        return None;
      }
      var s: Status := *;
      RecordResult(Result(step.path, s, identity, true));
      assert results[|old(results)|].path == step.path;
      lastResult := Some(step.path);
      var raises: bool := *;
      status := if raises then None else Some(s);
    }

    /** StepSequenceRunner._unexecuted and the body of _skip_scope. */
    method RecordUnexecuted(step: Step, status: Status)
      requires Valid() && HasPath(planned, step.path) && !RecordedIn(results, step.path) && !status.Passed?
      modifies this`results
      ensures Valid() && results == old(results) + [Result(step.path, status, Plain(step.id), false)]
    {
      RecordResult(Result(step.path, status, Plain(step.id), false));
    }

    /** _skip_scope: planned steps under the prefix that have neither a result nor a start. */
    method SkipScope(prefix: Path, status: Status)
      requires Valid() && !status.Passed?
      modifies this`results
      ensures Valid()
      ensures Adds(old(results), starts, results, starts, Under(prefix))
      ensures forall i | 0 <= i < |planned| && prefix <= planned[i].path ::
                RecordedIn(results, planned[i].path) || planned[i].path in starts
      ensures LeftAlone(old(results), results, starts, status)
    {
      for k := 0 to |planned|
        invariant Valid()
        invariant Adds(old(results), starts, results, starts, Under(prefix))
        invariant LeftAlone(old(results), results, starts, status)
        invariant forall i | 0 <= i < k && prefix <= planned[i].path ::
                    RecordedIn(results, planned[i].path) || planned[i].path in starts
      {
        var step := planned[k];
        if !(prefix <= step.path) || RecordedIn(results, step.path) {
          continue;
        }
        if step.path in starts {
          continue;
        }
        ghost var before := results;
        RecordUnexecuted(step, status);
        assert results[|before|].path == step.path;
        forall i | 0 <= i < k && prefix <= planned[i].path
          ensures RecordedIn(results, planned[i].path) || planned[i].path in starts
        {
          if RecordedIn(before, planned[i].path) {
            RecordedStays(before, results, planned[i].path);
          }
        }
      }
    }

    /** StepSequenceRunner.run_steps: normal steps until one does not pass, the rest left
        unexecuted; teardown steps always, each once and in order, however the normal steps end. */
    method RunSteps(normal: seq<Step>, teardown: seq<Step>, poll: bool, ghost at: Path)
      returns (raised: bool, ghost tried: nat)
      requires Valid() && (poll ==> completionDepth == 0)
      requires BodyOf(normal + teardown, at)
      requires forall i | 0 <= i < |normal + teardown| :: Clean(results, starts, Under((normal + teardown)[i].path))
      modifies this`results, this`starts, this`issuedIds, this`generated, this`lastResult, this`attempts
      ensures Valid()
      ensures Adds(old(results), old(starts), results, starts, Under(at))
      ensures !raised ==> forall i | 0 <= i < |normal + teardown| :: RecordedIn(results, (normal + teardown)[i].path)
      ensures !raised ==>
                BodyRun(normal + teardown, |normal|, |normal + teardown|, old(results), results, old(issuedIds),
                        old(generated))
      ensures Told(old(results), results, starts, !raised)
      ensures tried <= |normal| && attempts == old(attempts) + PathsOf(normal)[..tried] + PathsOf(teardown)
    {
      ghost var all, r0, s0, ids, gen := normal + teardown, results, starts, issuedIds, generated;
      CommandsStart(all, |normal|, r0, s0, ids, gen, at);
      hide Commands, Adds, Clean, BodyRun, Told;
      var i;
      i, raised, tried := RunNormal(normal, poll, all, r0, s0, ids, gen, at);
      LeaveUnexecuted(normal, i, raised, all, r0, s0, ids, gen, at);
      raised := RunTeardown(teardown, raised, all, |normal|, r0, s0, ids, gen, at);
      CommandsEnd(all, |normal|, r0, s0, results, starts, ids, gen, issuedIds, generated, at, raised);
    }

    /** Runs normal steps up to the first that does not pass or that an exception interrupts; an
        interrupted step without a result is recorded as incomplete. */
    method RunNormal(normal: seq<Step>, poll: bool, ghost all: seq<Step>,
                     ghost r0: seq<Result>, ghost s0: seq<Path>, ghost ids: set<StepId>, ghost gen: nat, ghost at: Path)
      returns (i: nat, raised: bool, ghost tried: nat)
      requires Valid() && (poll ==> completionDepth == 0) && BodyOf(all, at) && normal <= all && results == r0
      requires Commands(all, |normal|, 0, r0, s0, results, starts, ids, gen, issuedIds, generated, at, false)
      modifies this`results, this`starts, this`issuedIds, this`generated, this`lastResult, this`attempts
      ensures Valid() && i <= |normal|
      ensures Commands(all, |normal|, i, r0, s0, results, starts, ids, gen, issuedIds, generated, at, raised)
      ensures i < |normal| && !raised ==> !PassedSince(r0, results)
      ensures tried <= i && (!raised ==> tried == i) && attempts == old(attempts) + PathsOf(normal)[..tried]
    {
      hide *;
      NothingTried(normal, r0, attempts);
      raised, tried := false, 0;
      var stopped := false;
      i := 0;
      while i < |normal| && !raised && !stopped
        invariant i <= |normal|
        invariant Valid()
        invariant Commands(all, |normal|, i, r0, s0, results, starts, ids, gen, issuedIds, generated, at, raised)
        invariant !raised ==> (stopped <==> !PassedSince(r0, results))
        invariant tried <= i && (!raised ==> tried == i) && attempts == old(attempts) + PathsOf(normal)[..tried]
      {
        ghost var r1, s1, ids1, gen1 := results, starts, issuedIds, generated;
        var step := normal[i];
        assert step == all[i];
        StepOfBody(all, i, at);
        CommandsNext(all, |normal|, i, r0, s0, r1, s1, ids, gen, ids1, gen1, at, false);
        var cancelled := false;
        if poll {
          cancelled := Poll();
        }
        var status: Option<Status> := None;
        if !cancelled {
          status := RunStep(step);
          tried := i + 1;
          OneMoreTried(old(attempts), normal, i);
        }
        if status.None? {
          raised := true;
          if lastResult != Some(step.path) {
            assert results == r1;
            RecordUnexecuted(step, Incomplete);
          }
        } else {
          stopped := !status.value.Passed?;
          PassedGrows(r0, r1, results);
        }
        OneCommand(r1, results, starts, all, i, at, raised);
        CommandsGrow(all, |normal|, i, r0, s0, r1, s1, results, starts, ids, gen, ids1, gen1, issuedIds, generated, at,
                     false, raised);
        i := i + 1;
      }
    }

    /** The result that a command step has got, if it has one, has a status that fits. */
    lemma OneCommand(r1: seq<Result>, r2: seq<Result>, s2: seq<Path>, all: seq<Step>, n: nat, at: Path, raised: bool)
      requires n < |all| && BodyOf(all, at)
      requires r2 != r1 ==>
                 && |r2| == |r1| + 1 && r2[..|r1|] == r1 && r2[|r1|].path == all[n].path
                 && if r2[|r1|].executed then all[n].path in s2
                    else (r2[|r1|].status.Incomplete? && raised)
                         || (r2[|r1|].status.Skipped? && all[n].path !in s2 && BodyFailed(r1, at))
      ensures Told(r1, r2, s2, !raised) && at != [] && at[|at| - 1].Body?
    {
      if r2 != r1 {
        BodyPath(all[n].path, at);
        ToldCommand(r1, r2[|r1|], s2, raised);
        assert r2 == r1 + [r2[|r1|]];
      }
    }

    lemma NothingTried(normal: seq<Step>, r0: seq<Result>, a0: seq<Path>)
      ensures PassedSince(r0, r0) && a0 == a0 + PathsOf(normal)[..0]
    {}

    lemma StepOfBody(all: seq<Step>, i: nat, at: Path)
      requires BodyOf(all, at) && i < |all|
      ensures HasPath(planned, all[i].path) && all[i].id.LeafId?
      ensures Distinct(all) && BodyIds(all)
      ensures forall j | 0 <= j < |all| :: at <= all[j].path && |all[j].path| == |at| + 1
    {}

    lemma PassedGrows(r0: seq<Result>, r1: seq<Result>, r2: seq<Result>)
      requires |r0| <= |r1| && |r2| == |r1| + 1 && r2[..|r1|] == r1
      ensures PassedSince(r0, r2) <==> PassedSince(r0, r1) && r2[|r1|].status.Passed?
    {
      assert forall i | 0 <= i < |r1| :: r2[i] == r1[i];
    }

    method LeaveUnexecuted(normal: seq<Step>, from: nat, raised: bool, ghost all: seq<Step>,
                           ghost r0: seq<Result>, ghost s0: seq<Path>, ghost ids: set<StepId>, ghost gen: nat,
                           ghost at: Path)
      requires Valid() && BodyOf(all, at) && normal <= all && from <= |normal|
      requires Commands(all, |normal|, from, r0, s0, results, starts, ids, gen, issuedIds, generated, at, raised)
      requires from < |normal| && !raised ==> !PassedSince(r0, results)
      modifies this`results
      ensures Valid()
      ensures Commands(all, |normal|, |normal|, r0, s0, results, starts, ids, gen, issuedIds, generated, at, raised)
      ensures |results| == |old(results)| + |normal| - from && results[..|old(results)|] == old(results)
      ensures forall i | |old(results)| <= i < |results| :: results[i].status == if raised then Incomplete else Skipped
    {
      hide Commands, Consistent, BodyRun, Adds, Clean, PassedSince, Told;
      for i := from to |normal|
        invariant Valid()
        invariant |results| == |old(results)| + i - from && results[..|old(results)|] == old(results)
        invariant forall k | |old(results)| <= k < |results| ::
                    results[k].status == if raised then Incomplete else Skipped
        invariant Commands(all, |normal|, i, r0, s0, results, starts, ids, gen, issuedIds, generated, at, raised)
        invariant i < |normal| && !raised ==> !PassedSince(r0, results)
      {
        ghost var r1 := results;
        assert normal[i] == all[i];
        CommandsNext(all, |normal|, i, r0, s0, r1, starts, ids, gen, issuedIds, generated, at, raised);
        if !raised {
          CommandsFailed(all, |normal|, i, r0, s0, r1, starts, ids, gen, issuedIds, generated, at);
        }
        RecordUnexecuted(normal[i], if raised then Incomplete else Skipped);
        OneCommand(r1, results, starts, all, i, at, raised);
        CommandsGrow(all, |normal|, i, r0, s0, r1, starts, results, starts, ids, gen, issuedIds, generated, issuedIds,
                     generated, at, raised, raised);
        StillNotPassed(r0, s0, r1, starts, all, |normal|, i, ids, gen, at, raised);
      }
    }

    lemma StillNotPassed(r0: seq<Result>, s0: seq<Path>, r1: seq<Result>, s1: seq<Path>, all: seq<Step>, normals: nat,
                         n: nat, ids: set<StepId>, gen: nat, at: Path, raised: bool)
      requires n < |all| && Commands(all, normals, n, r0, s0, r1, s1, ids, gen, issuedIds, generated, at, raised)
      requires |results| == |r1| + 1 && results[..|r1|] == r1
      ensures !PassedSince(r0, r1) ==> !PassedSince(r0, results)
    {
      PassedGrows(r0, r1, results);
    }

    method RunTeardown(teardown: seq<Step>, raisedBefore: bool, ghost all: seq<Step>, ghost from: nat,
                       ghost r0: seq<Result>, ghost s0: seq<Path>, ghost ids: set<StepId>, ghost gen: nat,
                       ghost at: Path) returns (raised: bool)
      requires Valid() && BodyOf(all, at) && from <= |all| && all[from..] == teardown
      requires Commands(all, from, from, r0, s0, results, starts, ids, gen, issuedIds, generated, at, raisedBefore)
      modifies this`results, this`starts, this`issuedIds, this`generated, this`lastResult, this`attempts
      ensures Valid()
      ensures Commands(all, from, |all|, r0, s0, results, starts, ids, gen, issuedIds, generated, at, raised)
      ensures attempts == old(attempts) + PathsOf(teardown)
    {
      hide Commands, Consistent, BodyRun, Adds, Clean, IdentityFor, PassedSince, Told;
      raised := raisedBefore;
      for k := 0 to |teardown|
        invariant Valid()
        invariant Commands(all, from, from + k, r0, s0, results, starts, ids, gen, issuedIds, generated, at, raised)
        invariant attempts == old(attempts) + PathsOf(teardown)[..k]
      {
        ghost var r1, s1, raised1, ids1, gen1 := results, starts, raised, issuedIds, generated;
        assert teardown[k] == all[from + k];
        CommandsNext(all, from, from + k, r0, s0, r1, s1, ids, gen, ids1, gen1, at, raised);
        var status := RunStep(teardown[k]);
        assert PathsOf(teardown)[..k + 1] == PathsOf(teardown)[..k] + [teardown[k].path];
        raised := raised || status.None?;
        OneCommand(r1, results, starts, all, from + k, at, raised);
        CommandsGrow(all, from, from + k, r0, s0, r1, s1, results, starts, ids, gen, ids1, gen1, issuedIds, generated,
                     at, raised1, raised);
      }
    }

    /** The steps of one body: planned, with paths of one length and all different. */
    ghost predicate BodyOf(steps: seq<Step>, at: Path)
      reads this`planned
    {
      && Distinct(steps) && BodyIds(steps) && at != [] && at[|at| - 1].Body?
      && forall i | 0 <= i < |steps| ::
         at <= steps[i].path && |steps[i].path| == |at| + 1 && steps[i] in planned
    }

    /** What a case at `at` needs from planning. */
    ghost predicate CasePlanned(t: Tree, at: Path)
      reads this`planned, this`caseSteps, this`hookSteps
    {
      && Ready(t, at, caseSteps, hookSteps) && WellPlaced(t)
      && (forall q | Planned(t, at, q) :: HasPath(planned, q))
      && (forall i | 0 <= i < |planned| && at <= planned[i].path :: Planned(t, at, planned[i].path))
      && AllIn(Steps(t, at), planned)
    }

    method SplitTrailingTeardown(steps: seq<Step>) returns (body: seq<Step>, teardown: seq<Step>)
      ensures steps == body + teardown && SplitsAt(steps, |body|)
    {
      var splitAt := |steps|;
      while splitAt > 0 && steps[splitAt - 1].teardown
        invariant 0 <= splitAt <= |steps|
        invariant forall i | splitAt <= i < |steps| :: steps[i].teardown
      {
        splitAt := splitAt - 1;
      }
      return steps[..splitAt], steps[splitAt..];
    }

    /** The body's own steps, as the sequence runner requires them. */
    lemma BodyReady(t: Tree)
      requires CasePlanned(t, invocation) && Clean(results, starts, Under(invocation + [Body]))
      ensures invocation in caseSteps && caseSteps[invocation] == BodySteps(t, invocation)
      ensures BodyOf(caseSteps[invocation], invocation + [Body])
      ensures forall i | 0 <= i < |caseSteps[invocation]| ::
                Clean(results, starts, Under(caseSteps[invocation][i].path))
      ensures forall i | 0 <= i < |planned| && invocation + [Body] <= planned[i].path ::
                HasPath(caseSteps[invocation], planned[i].path)
    {
      var steps, at := BodySteps(t, invocation), invocation + [Body];
      assert invocation in caseSteps && caseSteps[invocation] == steps;
      BodyStepsApart(t, invocation);
      hide Ready, Planned, WellPlaced, HasPath, Clean, Distinct, BodyIds, BodySteps;
      assert at[|at| - 1] == Body;
      forall i | 0 <= i < |steps|
        ensures at <= steps[i].path && steps[i] in planned && Clean(results, starts, Under(steps[i].path))
      {
        BodyStepPlanned(t, invocation, i);
        CleanBelow(results, starts, at, steps[i].path);
      }
      forall i | 0 <= i < |planned| && at <= planned[i].path
        ensures HasPath(steps, planned[i].path)
      {
        BodyPlanned(t, invocation, planned[i].path);
      }
    }

    lemma BodyStepPlanned(t: Tree, inv: Path, i: nat)
      requires CasePlanned(t, inv) && i < |BodySteps(t, inv)|
      ensures BodySteps(t, inv)[i] in planned
    {
      hide Ready, WellPlaced, Planned, Steps, BodySteps;
      GroupStepsAllIn(t, inv, FromCase, OnCaseStart, planned);
    }

    lemma CleanBelow(r: seq<Result>, s: seq<Path>, at: Path, q: Path)
      requires Clean(r, s, Under(at)) && at <= q
      ensures Clean(r, s, Under(q))
    {}

    /** _execute_case_commands */
    method ExecuteCaseCommands(ghost t: Tree) returns (o: Outcome, ghost normals: nat, ghost tried: nat)
      requires Valid() && CasePlanned(t, invocation) && Clean(results, starts, Under(invocation + [Body]))
      modifies this`results, this`starts, this`issuedIds, this`generated, this`lastResult, this`attempts
      ensures Valid()
      ensures Piece(planned, old(results), old(starts), results, starts, Under(invocation + [Body]), o)
      ensures AttemptsOf(BodySteps(t, invocation), normals, tried, old(attempts), attempts)
      ensures o.Returned? ==> var steps := BodySteps(t, invocation);
                              && normals <= |steps| && o.ok == Verdict(old(results), results)
                              && BodyRun(steps, normals, |steps|, old(results), results, old(issuedIds), old(generated))
    {
      hide Ready, Planned, Consistent, BodyRun, Adds, Distinct, PathsOf, BodyIds, BodySteps, Told, CasePlanned,
           RecordedIn, HasPath, NoneWaiting, AllPassed, Counts, Verdict, Clean;
      ghost var at, r0, s0 := invocation + [Body], results, starts;
      BodyReady(t);
      var steps := caseSteps[invocation];
      var normal, teardown := SplitTrailingTeardown(steps);
      var previous := set i | 0 <= i < |results| :: results[i].identity;
      normals := |normal|;
      hide SplitsAt, AttemptsOf;
      var raised;
      raised, tried := RunSteps(normal, teardown, completionDepth == 0, at);
      AttemptsMade(steps, normal, teardown, tried, old(attempts), attempts);
      if raised {
        return Raised, normals, tried;
      }
      ToldLess(r0, results, starts, true, false);
      var cancelled := CheckCancel();
      if cancelled {
        return Raised, normals, tried;
      }
      var ok := forall i | 0 <= i < |results| && results[i].identity !in previous :: results[i].status.Passed?;
      VerdictOnNew(r0, results, previous);
      CommandsPiece(steps, |normal|, r0, s0, old(issuedIds), old(generated), at, ok);
      o := Returned(ok);
    }

    /** Comparing identities with those recorded before gives the verdict. */
    lemma VerdictOnNew(r0: seq<Result>, r1: seq<Result>, previous: set<Identity>)
      requires previous == set i | 0 <= i < |r0| :: r0[i].identity
      ensures Verdict(r0, r1) <==> forall i | 0 <= i < |r1| && r1[i].identity !in previous :: r1[i].status.Passed?
    {
      assert forall identity :: identity in previous <==> IdentityIn(r0, identity);
    }

    lemma CommandsPiece(steps: seq<Step>, normals: nat, r0: seq<Result>, s0: seq<Path>, ids: set<StepId>, gen: nat,
                        at: Path, ok: bool)
      requires Valid() && Consistent(planned, r0, s0, ids, gen) && Clean(r0, s0, Under(at)) && BodyOf(steps, at)
      requires Adds(r0, s0, results, starts, Under(at)) && BodyRun(steps, normals, |steps|, r0, results, ids, gen)
      requires forall i | 0 <= i < |steps| :: RecordedIn(results, steps[i].path)
      requires forall i | 0 <= i < |planned| && at <= planned[i].path :: HasPath(steps, planned[i].path)
      requires ok == Verdict(r0, results) && Told(r0, results, starts, true)
      ensures Piece(planned, r0, s0, results, starts, Under(at), Returned(ok))
    {
      hide Told;
      VerdictExact(planned, steps, normals, r0, s0, results, starts, ids, gen, Under(at));
      hide RecordedIn, Verdict, AllPassed, Consistent, BodyRun, NoneWaiting;
    }

    /** The body of a case whose start hooks failed: normal steps are skipped, teardown still runs. */
    method BlockBody(ghost t: Tree) returns (raised: bool, ghost normals: nat, ghost mid: seq<Result>)
      requires Valid() && CasePlanned(t, invocation) && Clean(results, starts, Under(invocation + [Body]))
      requires StartFailed(results, invocation)
      modifies this`results, this`starts, this`issuedIds, this`generated, this`lastResult, this`attempts
      ensures Valid()
      ensures Adds(old(results), old(starts), results, starts, Under(invocation + [Body]))
      ensures Told(old(results), results, starts, !raised)
      ensures !raised ==> Done(planned, results, Under(invocation + [Body]))
      ensures AttemptsOf(BodySteps(t, invocation), normals, 0, old(attempts), attempts)
      ensures LeftAlone(old(results), mid, old(starts), Skipped)
      ensures !raised ==> var teardown := BodySteps(t, invocation)[normals..];
                          BodyRun(teardown, 0, |teardown|, mid, results, old(issuedIds), old(generated))
    {
      ghost var at, r0, s0, a0 := invocation + [Body], results, starts, attempts;
      BodyReady(t);
      hide Ready, Planned, Consistent, Clean, WellPlaced, Adds, Distinct, HasPath, Done, RecordedIn, LeftAlone, BodyRun,
           SplitsAt, AttemptsOf, PathsOf, BodyIds, BodySteps, Told, StartFailed;
      var steps := caseSteps[invocation];
      var body, teardown := SplitTrailingTeardown(steps);
      SkipLeaves(body, steps, at);
      ghost var r1 := results;
      normals, mid := |body|, results;
      assert steps[|body|..] == teardown;
      raised := RunTeardownOnly(steps, |body|, at);
      AddsTwice(r0, s0, r1, s0, results, starts, Under(at), Under(at), Under(at));
      BodyInMain(invocation);
      SkippedTold(r0, r1, s0, invocation, at);
      ToldTwice(r0, s0, r1, s0, results, starts, Under(at), Under(at), true, !raised, !raised);
      NoneTried(steps, body, teardown, a0, attempts);
      if !raised {
        AddsPrefix(r1, s0, results, starts, at);
        TeardownDone(steps, |body|, r1);
        BodyDone(steps, at);
      }
    }

    lemma BodyInMain(inv: Path)
      ensures forall q | inv + [Body] <= q :: In(MainOf(inv), q)
    {
      BodyNotInPhase(inv);
    }

    /** The sequence runner with teardown steps only, where there are any. */
    method RunTeardownOnly(steps: seq<Step>, n: nat, ghost at: Path) returns (raised: bool)
      requires Valid() && BodyOf(steps, at) && n <= |steps|
      requires forall j | n <= j < |steps| :: Clean(results, starts, Under(steps[j].path))
      modifies this`results, this`starts, this`issuedIds, this`generated, this`lastResult, this`attempts
      ensures Valid()
      ensures Adds(old(results), old(starts), results, starts, Under(at))
      ensures Told(old(results), results, starts, !raised)
      ensures attempts == old(attempts) + PathsOf(steps[n..])
      ensures !raised ==> BodyRun(steps[n..], 0, |steps| - n, old(results), results, old(issuedIds), old(generated))
      ensures !raised ==> forall j | 0 <= j < |steps| - n :: RecordedIn(results, steps[n..][j].path)
    {
      hide *;
      var teardown := steps[n..];
      raised := false;
      NothingRun(steps, n, at);
      if teardown == [] {
        return;
      }
      BodySuffix(steps, n, at);
      assert [] + teardown == teardown;
      ghost var tried;
      raised, tried := RunSteps([], teardown, false, at);
      OnlyTeardownTried(teardown, tried, old(attempts), attempts);
    }

    lemma NothingRun(steps: seq<Step>, n: nat, at: Path)
      requires n <= |steps|
      ensures |steps[n..]| == |steps| - n
      ensures Adds(results, starts, results, starts, Under(at)) && Told(results, results, starts, true)
      ensures n == |steps| ==> attempts == attempts + PathsOf(steps[n..])
      ensures n == |steps| ==> BodyRun(steps[n..], 0, 0, results, results, issuedIds, generated)
    {}

    lemma OnlyTeardownTried(teardown: seq<Step>, tried: nat, a0: seq<Path>, a1: seq<Path>)
      requires tried == 0 && a1 == a0 + PathsOf([])[..tried] + PathsOf(teardown)
      ensures a1 == a0 + PathsOf(teardown)
    {
      assert a0 + PathsOf([])[..0] == a0;
    }

    lemma NoneTried(steps: seq<Step>, body: seq<Step>, teardown: seq<Step>, a0: seq<Path>, a1: seq<Path>)
      requires steps == body + teardown && SplitsAt(steps, |body|)
      requires a1 == a0 + PathsOf(teardown)
      ensures AttemptsOf(steps, |body|, 0, a0, a1)
    {
      assert a0 + PathsOf(body)[..0] + PathsOf(teardown) == a1;
      AttemptsMade(steps, body, teardown, 0, a0, a1);
    }

    lemma BodySuffix(steps: seq<Step>, n: nat, at: Path)
      requires n <= |steps| && BodyOf(steps, at)
      requires forall j | n <= j < |steps| :: Clean(results, starts, Under(steps[j].path))
      ensures BodyOf(steps[n..], at)
      ensures forall j | 0 <= j < |steps| - n :: Clean(results, starts, Under(steps[n..][j].path))
    {
      hide Clean, HasPath;
      assert forall j | 0 <= j < |steps| - n :: steps[n..][j] == steps[n + j];
    }

    lemma AddsPrefix(r0: seq<Result>, s0: seq<Path>, r1: seq<Result>, s1: seq<Path>, at: Path)
      requires r1 == r0 || Adds(r0, s0, r1, s1, Under(at))
      ensures |r0| <= |r1| && r1[..|r0|] == r0
    {}

    lemma BodyDone(steps: seq<Step>, at: Path)
      requires forall i | 0 <= i < |steps| :: RecordedIn(results, steps[i].path)
      requires forall i | 0 <= i < |planned| && at <= planned[i].path :: HasPath(steps, planned[i].path)
      ensures Done(planned, results, Under(at))
    {
      hide RecordedIn;
    }

    method SkipLeaves(body: seq<Step>, ghost steps: seq<Step>, ghost at: Path)
      requires Valid() && BodyOf(steps, at) && body <= steps
      requires forall j | 0 <= j < |steps| :: Clean(results, starts, Under(steps[j].path))
      modifies this`results
      ensures Valid()
      ensures Adds(old(results), starts, results, starts, Under(at))
      ensures LeftAlone(old(results), results, starts, Skipped)
      ensures forall j | 0 <= j < |body| :: RecordedIn(results, steps[j].path)
      ensures forall j | |body| <= j < |steps| :: Clean(results, starts, Under(steps[j].path))
    {
      ghost var r0 := results;
      AddsNothing(results, starts, at);
      assert LeftAlone(r0, results, starts, Skipped);
      hide Consistent, Clean, Adds, RecordedIn, LeftAlone;
      for i := 0 to |body|
        invariant Valid()
        invariant Adds(r0, starts, results, starts, Under(at)) && LeftAlone(r0, results, starts, Skipped)
        invariant forall j | 0 <= j < i :: RecordedIn(results, steps[j].path)
        invariant forall j | i <= j < |steps| :: Clean(results, starts, Under(steps[j].path))
      {
        ghost var r1 := results;
        assert body[i] == steps[i];
        SkipScope(body[i].path, Skipped);
        AddsPrefix(r1, starts, results, starts, body[i].path);
        LeftAloneTwice(r0, r1, results, starts, Skipped);
        SkippedLeaf(steps, i, r0, starts, r1, results, at);
      }
    }

    lemma AddsNothing(r: seq<Result>, s: seq<Path>, at: Path)
      ensures Adds(r, s, r, s, Under(at))
    {}

    lemma TeardownDone(steps: seq<Step>, n: nat, r1: seq<Result>)
      requires n <= |steps| && |r1| <= |results| && results[..|r1|] == r1
      requires forall j | 0 <= j < n :: RecordedIn(r1, steps[j].path)
      requires forall j | 0 <= j < |steps| - n :: RecordedIn(results, steps[n..][j].path)
      ensures forall j | 0 <= j < |steps| :: RecordedIn(results, steps[j].path)
    {
      forall j | 0 <= j < |steps|
        ensures RecordedIn(results, steps[j].path)
      {
        if j < n {
          RecordedStays(r1, results, steps[j].path);
        } else {
          assert steps[n..][j - n] == steps[j];
        }
      }
    }

    lemma SkippedLeaf(steps: seq<Step>, i: nat, r0: seq<Result>, s0: seq<Path>, r1: seq<Result>, r2: seq<Result>,
                      at: Path)
      requires i < |steps| && BodyOf(steps, at)
      requires Adds(r0, s0, r1, s0, Under(at)) && Adds(r1, s0, r2, s0, Under(steps[i].path))
      requires forall j | 0 <= j < i :: RecordedIn(r1, steps[j].path)
      requires forall j | i <= j < |steps| :: Clean(r1, s0, Under(steps[j].path))
      requires forall k | 0 <= k < |planned| && steps[i].path <= planned[k].path ::
                 RecordedIn(r2, planned[k].path) || planned[k].path in s0
      ensures Adds(r0, s0, r2, s0, Under(at))
      ensures forall j | 0 <= j < i + 1 :: RecordedIn(r2, steps[j].path)
      ensures forall j | i + 1 <= j < |steps| :: Clean(r2, s0, Under(steps[j].path))
    {
      AddsTwice(r0, s0, r1, s0, r2, s0, Under(at), Under(steps[i].path), Under(at));
      forall j | 0 <= j < i
        ensures RecordedIn(r2, steps[j].path)
      {
        RecordedStays(r1, r2, steps[j].path);
      }
      var k :| 0 <= k < |planned| && planned[k].path == steps[i].path;
      forall j | i + 1 <= j < |steps|
        ensures Clean(r2, s0, Under(steps[j].path))
      {
        assert steps[j].path != steps[i].path;
        CleanStays(r1, s0, r2, s0, Under(steps[i].path), Under(steps[j].path));
      }
    }

    /** What one hook action of a case at `invoked` needs from planning. */
    ghost predicate ActionPlanned(caseId: string, origin: Origin, phase: Phase, b: Branch, invoked: Path)
      reads this`planned, this`caseSteps, this`hookSteps
    {
      var at := Scope(invoked, origin, phase);
      && ReadyBranch(caseId, origin, phase, b, invoked, caseSteps, hookSteps) && WellPlacedBranch(b)
      && (forall q | PlannedBranch(b, at, q) :: HasPath(planned, q))
      && (forall i | 0 <= i < |planned| && BranchPath(at, b) <= planned[i].path ::
            PlannedBranch(b, at, planned[i].path))
      && AllIn(BranchSteps(caseId, origin, phase, b, invoked), planned)
    }

    /** _execute_shell_hook: an exit code decides, an exception in starting the shell counts as
        failure, cancellation is recorded and propagates. */
    method ExecuteShellHook(q: Path, ghost caseId: string, ghost origin: Origin, ghost phase: Phase, ghost b: Branch)
      returns (o: Outcome, end: ShellEnd)
      requires Valid() && b.ShellBranch? && q == BranchPath(Scope(invocation, origin, phase), b)
      requires ActionPlanned(caseId, origin, phase, b, invocation) && Clean(results, starts, Under(q))
      modifies this`results, this`starts, this`issuedIds, this`generated
      ensures Valid() && starts == old(starts) + [q]
      ensures Piece(planned, old(results), old(starts), results, starts, Under(q), o)
      ensures o == if end.Interrupted? then Raised else Returned(end == Exited(0))
      ensures |results| == |old(results)| + 1 && results[|old(results)|].executed
      ensures results[|old(results)|].path == q
      ensures results[|old(results)|].status
              == if end.Interrupted? then Cancelled else if end == Exited(0) then Passed else Failed
    {
      hide Told, OfBody, Done, Counts, AllPassed, NoneWaiting;
      ghost var r0, s0 := results, starts;
      var step := hookSteps[q];
      assert HasPath(planned, q) && !RecordedIn(results, q) && q <= q;
      HookIsNotOfBody(origin, phase, b, invocation);
      var identity := AllocateIdentity(step.id);
      starts := starts + [q];
      assert starts[|s0|] == q;
      end := *;
      if end.Interrupted? {
        var cancelled := Result(q, Cancelled, identity, true);
        RecordResult(cancelled);
        ToldOne(r0, cancelled, starts, false);
        return Raised, end;
      }
      var passed := end == Exited(0);
      var r := Result(q, if passed then Passed else Failed, identity, true);
      RecordResult(r);
      o := Returned(passed);
      SingleStep(planned, r0, s0, r, o);
    }

    lemma HookIsNotOfBody(origin: Origin, phase: Phase, b: Branch, invoked: Path)
      ensures !OfBody(BranchPath(Scope(invoked, origin, phase), b))
      ensures IsDirect(BranchPath(Scope(invoked, origin, phase), b), invoked, phase)
    {
      BranchIsDirect(origin, phase, b, invoked);
      var q := BranchPath(Scope(invoked, origin, phase), b);
      assert q[|q| - 2] == Num(b.hook);
    }

    /** _execute_hook_action */
    method ExecuteHookAction(caseId: string, origin: Origin, phase: Phase, slot: Slot, stack: seq<CasePath>,
                             ghost b: Branch) returns (o: Outcome)
      requires Valid() && UnfoldSlot(files, cfg, slot, stack) == Some(b)
      requires ActionPlanned(caseId, origin, phase, b, invocation)
      requires Clean(results, starts, Under(BranchPath(Scope(invocation, origin, phase), b)))
      modifies this`results, this`starts, this`issuedIds, this`generated, this`lastResult, this`attempts,
               this`invocation, this`completionDepth
      ensures Valid() && invocation == old(invocation) && completionDepth == old(completionDepth)
      ensures Piece(planned, old(results), old(starts), results, starts,
                    Under(BranchPath(Scope(invocation, origin, phase), b)), o)
      ensures DirectStep(old(starts), starts, invocation, phase, BranchPath(Scope(invocation, origin, phase), b),
                         o.Returned? || completionDepth > 0)
      ensures o.Returned? ==> Concluded(results, BranchPath(Scope(invocation, origin, phase), b), o.ok)
      decreases Left(files, stack), 4
    {
      var q := SlotPath(Scope(invocation, origin, phase), slot);
      StartIsDirect(starts, origin, phase, b, invocation);
      match slot.act {
        case RunShell(_) =>
          hide DirectStarts, Piece, Consistent;
          var end;
          o, end := ExecuteShellHook(q, caseId, origin, phase, b);
        case RunCase(target) =>
          hide DirectStarts, Piece, Consistent;
          o := ExecuteRunCaseHook(caseId, origin, phase, q, target, stack, b);
      }
    }

    lemma StartIsDirect(s: seq<Path>, origin: Origin, phase: Phase, b: Branch, invoked: Path)
      ensures var q := BranchPath(Scope(invoked, origin, phase), b);
              DirectStarts(s + [q], invoked, phase) == DirectStarts(s, invoked, phase) + [q]
    {
      hide DirectStarts, IsDirect, BranchPath, Scope;
      BranchIsDirect(origin, phase, b, invoked);
      DirectAppend(s, BranchPath(Scope(invoked, origin, phase), b), invoked, phase);
    }

    /** The runCase half of _execute_hook_action: a container around the child case. */
    method ExecuteRunCaseHook(caseId: string, origin: Origin, phase: Phase, q: Path, target: CasePath,
                              stack: seq<CasePath>, ghost b: Branch)
      returns (o: Outcome)
      requires Valid() && b.CaseBranch? && Unfold(files, cfg, target, stack, false) == Some(b.child)
      requires ActionPlanned(caseId, origin, phase, b, invocation)
      requires q == BranchPath(Scope(invocation, origin, phase), b)
      requires Clean(results, starts, Under(q))
      modifies this`results, this`starts, this`issuedIds, this`generated, this`lastResult, this`attempts,
               this`invocation, this`completionDepth
      ensures Valid() && invocation == old(invocation) && completionDepth == old(completionDepth)
      ensures Piece(planned, old(results), old(starts), results, starts, Under(q), o)
      ensures DirectStep(old(starts), starts, invocation, phase, q, o.Returned? || completionDepth > 0)
      ensures o.Returned? ==> Concluded(results, q, o.ok)
      decreases Left(files, stack), 3, 1
    {
      hide Consistent, Ready, ReadyBranch, WellPlaced, WellPlacedBranch, Planned, PlannedBranch, Clean, Piece,
           DirectStarts, HasPath, RecordedIn, ActionPlanned, CasePlanned;
      ghost var r0, s0 := results, starts;
      StartIsDirect(starts, origin, phase, b, invocation);
      HookIsNotOfBody(origin, phase, b, invocation);
      ChildPlanned(caseId, origin, phase, b, invocation, r0, s0);
      var cancelled := CheckCancel();
      if cancelled {
        NothingDone(r0, s0, Under(q));
        return Raised;
      }
      var step := hookSteps[q];
      ShiftStarts(r0, s0, q);
      starts := starts + [q];
      var previous := invocation;
      invocation := q + [Child];
      var co, _, _ := ExecuteCase(target, stack, true, b.child);
      invocation := previous;
      ChildStarts(s0, r0, q, invocation, phase, co);
      if co.Raised? {
        return Raised;
      }
      var r1 := results;
      var r := Result(q, if co.ok then Passed else Failed, Plain(step.id), false);
      RecordResult(r);
      ContainerPiece(planned, r0, s0, r1, starts, q, r, co);
      o := co;
    }

    lemma NothingDone(r: seq<Result>, s: seq<Path>, g: Region)
      ensures Piece(planned, r, s, r, s, g, Raised)
    {}

    /** Recording the start of a planned step keeps the recorder consistent. */
    lemma ShiftStarts(r: seq<Result>, s: seq<Path>, q: Path)
      requires Consistent(planned, r, s, issuedIds, generated) && HasPath(planned, q)
      ensures Consistent(planned, r, s + [q], issuedIds, generated)
    {}

    /** A child case is planned under its container, and nothing of it has been recorded. */
    lemma ChildPlanned(caseId: string, origin: Origin, phase: Phase, b: Branch, invoked: Path, r: seq<Result>,
                       s: seq<Path>)
      requires ActionPlanned(caseId, origin, phase, b, invoked) && b.CaseBranch?
      requires Clean(r, s, Under(BranchPath(Scope(invoked, origin, phase), b)))
      ensures var q := BranchPath(Scope(invoked, origin, phase), b);
              && CasePlanned(b.child, q + [Child])
              && Clean(r, s + [q], Under(q + [Child]))
              && q in hookSteps && hookSteps[q].id.ContainerId? && HasPath(planned, q)
              && (forall i | 0 <= i < |planned| && q <= planned[i].path ::
                    planned[i].path == q || q + [Child] <= planned[i].path)
    {
      var at := Scope(invoked, origin, phase);
      var q := BranchPath(at, b);
      AllInParts([HookStep(caseId, origin, phase, at, b.hook, b.action, true)], Steps(b.child, q + [Child]), planned);
      forall i | 0 <= i < |planned| && q <= planned[i].path
        ensures planned[i].path == q
                  || (q + [Child] <= planned[i].path && Planned(b.child, q + [Child], planned[i].path))
      {
        assert PlannedBranch(b, at, planned[i].path);
        if planned[i].path != q {
          PlannedShape(b.child, q + [Child], planned[i].path);
        }
      }
    }

    /** What an executed child adds keeps its parent's order of starts, and leaves the container
        without a result of its own. */
    lemma ChildStarts(s0: seq<Path>, r0: seq<Result>, q: Path, invoked: Path, phase: Phase, co: Outcome)
      requires Piece(planned, r0, s0 + [q], results, starts, Under(q + [Child]), co) && Clean(r0, s0, Under(q))
      requires |q| == |invoked| + 4
      ensures DirectStarts(starts, invoked, phase) == DirectStarts(s0 + [q], invoked, phase)
      ensures !RecordedIn(results, q)
      ensures co.Raised? ==> Piece(planned, r0, s0, results, starts, Under(q), Raised)
    {
      DirectUnchanged(s0 + [q], starts, invoked, phase);
      assert forall i | 0 <= i < |r0| :: results[i] == r0[i];
      assert q <= q;
      assert starts[..|s0|] == starts[..|s0| + 1][..|s0|] == s0;
      assert starts[|s0|] == starts[..|s0| + 1][|s0|] == q;
    }

    /** _execute_hooks: the actions of one group in order. A failed start action ends the group and
        skips the rest of it; completion actions all run unless one raises. */
    method ExecuteHooks(caseId: string, origin: Origin, phase: Phase, slots: seq<Slot>, stack: seq<CasePath>,
                        continueAfterFailure: bool, ignoreCancellation: bool, ghost t: Tree)
      returns (o: Outcome, ghost attempted: nat, ghost verdicts: seq<bool>)
      requires Valid() && caseId == t.id && UnfoldSlots(files, cfg, slots, stack) == Some(Group(t, origin, phase))
      requires CasePlanned(t, invocation) && Clean(results, starts, Under(Scope(invocation, origin, phase)))
      requires phase.OnCaseComplete? ==> continueAfterFailure
      modifies this`results, this`starts, this`issuedIds, this`generated, this`lastResult, this`attempts,
               this`invocation, this`completionDepth
      ensures Valid() && invocation == old(invocation) && completionDepth == old(completionDepth)
      ensures Piece(planned, old(results), old(starts), results, starts, Under(Scope(invocation, origin, phase)), o)
      ensures attempted <= |Group(t, origin, phase)|
      ensures DirectStarts(starts, invocation, phase)
              == DirectStarts(old(starts), invocation, phase)
                 + BranchPaths(Scope(invocation, origin, phase), Group(t, origin, phase), attempted)
      ensures o.Returned? ==>
                attempted == |verdicts| && GroupEnds(verdicts, |Group(t, origin, phase)|, continueAfterFailure, o.ok)
      ensures o == Returned(false) ==> ActionFailed(results, invocation, phase)
      ensures o.Raised? ==> |verdicts| <= attempted && (completionDepth > 0 ==> attempted == |verdicts| + 1)
      ensures o.Raised? ==>
                Done(planned, results,
                     Branches(Scope(invocation, origin, phase), Group(t, origin, phase)[..|verdicts|]))
      decreases Left(files, stack), 5, 1
    {
      hide Consistent, Ready, WellPlaced, Planned, Clean, Piece, DirectStarts, HasPath, RecordedIn, ActionPlanned,
           CasePlanned, UnfoldSlots, UnfoldSlot, Adds, BranchPaths, Done, AllTrue, Concluded, ActionFailed, StartFailed,
           LeftAlone, Told;
      NoVerdicts();
      var at := Scope(invocation, origin, phase);
      ghost var r0, s0, branches := results, starts, Group(t, origin, phase);
      ghost var direct := DirectStarts(starts, invocation, phase);
      var allPassed := true;
      attempted, verdicts := 0, [];
      HooksStart(r0, s0, at, branches);
      DirectNone(direct, at, branches);
      for k := 0 to |slots|
        invariant Valid() && invocation == old(invocation) && completionDepth == old(completionDepth)
        invariant Piece(planned, r0, s0, results, starts, Branches(at, branches[..k]), Returned(allPassed))
        invariant attempted == k && DirectStarts(starts, invocation, phase) == direct + BranchPaths(at, branches, k)
        invariant continueAfterFailure || allPassed
        invariant !allPassed ==> ActionFailed(results, invocation, phase)
        invariant |verdicts| == k && (allPassed <==> AllTrue(verdicts))
        invariant !continueAfterFailure && verdicts != [] ==> AllTrue(verdicts[..|verdicts| - 1])
      {
        ghost var r1, s1 := results, starts;
        ActionReady(t, origin, phase, k, r0, s0, Returned(allPassed));
        DirectNext(direct, at, branches, k);
        ghost var done;
        o, done := AttemptAction(caseId, origin, phase, slots, k, stack, ignoreCancellation, t);
        if done {
          attempted := k + 1;
        }
        ActionRaised(r0, s0, r1, s1, at, branches, k, Returned(allPassed), o);
        if o.Raised? {
          return Raised, attempted, verdicts;
        }
        HooksGrow(r0, s0, r1, s1, at, branches, k, Returned(allPassed), o);
        StillFailed(r1, s1, origin, phase, branches[k], allPassed, o);
        allPassed := allPassed && o.ok;
        OneMoreVerdict(verdicts, o.ok);
        verdicts := verdicts + [o.ok];
        if !o.ok && !continueAfterFailure {
          ghost var r2 := results;
          SkipScope(at, Skipped);
          StartSkipTold(r2, origin, at);
          HooksSkipped(r0, s0, r2, at, branches, k);
          return Returned(false), attempted, verdicts;
        }
      }
      HooksEnd(t, origin, phase, r0, s0, Returned(allPassed));
      o := Returned(allPassed);
    }

    /** An action that failed leaves a reason for what is skipped after it. */
    lemma StillFailed(r1: seq<Result>, s1: seq<Path>, origin: Origin, phase: Phase, b: Branch, allPassed: bool,
                      o: Outcome)
      requires var q := BranchPath(Scope(invocation, origin, phase), b);
               Piece(planned, r1, s1, results, starts, Under(q), o) && o.Returned? && Concluded(results, q, o.ok)
      requires !allPassed ==> ActionFailed(r1, invocation, phase)
      ensures !(allPassed && o.ok) ==> ActionFailed(results, invocation, phase)
    {
      HookIsNotOfBody(origin, phase, b, invocation);
      if !allPassed {
        ActionFailedStays(r1, results, invocation, phase);
      } else if !o.ok {
        assert FailedAction(results[|results| - 1], invocation, phase);
      }
    }

    lemma StartSkipTold(r1: seq<Result>, origin: Origin, at: Path)
      requires at == Scope(invocation, origin, OnCaseStart) && StartFailed(r1, invocation)
      requires LeftAlone(r1, results, starts, Skipped) && Adds(r1, starts, results, starts, Under(at))
      ensures Told(r1, results, starts, true) && StartFailed(results, invocation)
    {
      ScopeInPhase(invocation, origin, OnCaseStart);
      ActionFailedStays(r1, results, invocation, OnCaseStart);
      SkippedTold(r1, results, starts, invocation, at);
    }

    /** One round of the loop in _execute_hooks: poll, execute the action, poll again. `done` says
        that the action was started. */
    method AttemptAction(caseId: string, origin: Origin, phase: Phase, slots: seq<Slot>, k: nat, stack: seq<CasePath>,
                         ignoreCancellation: bool, ghost t: Tree)
      returns (o: Outcome, ghost done: bool)
      requires Valid() && caseId == t.id && UnfoldSlots(files, cfg, slots, stack) == Some(Group(t, origin, phase))
      requires k < |slots|
      requires ActionPlanned(caseId, origin, phase, Group(t, origin, phase)[k], invocation)
      requires Clean(results, starts, Under(BranchPath(Scope(invocation, origin, phase), Group(t, origin, phase)[k])))
      modifies this`results, this`starts, this`issuedIds, this`generated, this`lastResult, this`attempts,
               this`invocation, this`completionDepth
      ensures Valid() && invocation == old(invocation) && completionDepth == old(completionDepth)
      ensures var q := BranchPath(Scope(invocation, origin, phase), Group(t, origin, phase)[k]);
              && Piece(planned, old(results), old(starts), results, starts, Under(q), o)
              && DirectStarts(starts, invocation, phase)
                 == DirectStarts(old(starts), invocation, phase) + (if done then [q] else [])
              && (o.Returned? || completionDepth > 0 ==> done)
              && (o.Returned? ==> Concluded(results, q, o.ok))
      decreases Left(files, stack), 5, 0
    {
      hide Consistent, Ready, WellPlaced, Planned, Clean, Piece, DirectStarts, HasPath, RecordedIn, ActionPlanned,
           UnfoldSlots, UnfoldSlot, Adds, Concluded;
      ghost var r0, s0, b := results, starts, Group(t, origin, phase)[k];
      ghost var q := BranchPath(Scope(invocation, origin, phase), b);
      done := false;
      NothingDone(r0, s0, Under(q));
      assert DirectStarts(s0, invocation, phase) + [] == DirectStarts(s0, invocation, phase);
      if !ignoreCancellation {
        var cancelled := CheckCancel();
        if cancelled {
          return Raised, done;
        }
      }
      UnfoldSlotsAt(files, cfg, slots, stack, k);
      o := ExecuteHookAction(caseId, origin, phase, slots[k], stack, b);
      done := DirectStarts(starts, invocation, phase) == DirectStarts(s0, invocation, phase) + [q];
      if o.Returned? && !ignoreCancellation {
        var cancelled := CheckCancel();
        if cancelled {
          ThenRaised(r0, s0, q, o);
          o := Raised;
        }
      }
    }

    lemma ThenRaised(r0: seq<Result>, s0: seq<Path>, q: Path, o: Outcome)
      requires Piece(planned, r0, s0, results, starts, Under(q), o)
      ensures Piece(planned, r0, s0, results, starts, Under(q), Raised)
    {
      ToldLess(r0, results, starts, o.Returned?, false);
    }

    lemma DirectNone(direct: seq<Path>, at: Path, branches: seq<Branch>)
      ensures direct == direct + BranchPaths(at, branches, 0)
    {}

    lemma DirectNext(direct: seq<Path>, at: Path, branches: seq<Branch>, k: nat)
      requires k < |branches|
      ensures direct + BranchPaths(at, branches, k) + [BranchPath(at, branches[k])]
                == direct + BranchPaths(at, branches, k + 1)
    {}

    lemma HooksStart(r: seq<Result>, s: seq<Path>, at: Path, branches: seq<Branch>)
      requires Clean(r, s, Under(at))
      ensures Piece(planned, r, s, r, s, Branches(at, branches[..0]), Returned(true))
    {}

    lemma ActionRaised(r0: seq<Result>, s0: seq<Path>, r1: seq<Result>, s1: seq<Path>, at: Path, branches: seq<Branch>,
                       k: nat, o1: Outcome, o2: Outcome)
      requires k < |branches| && Piece(planned, r0, s0, r1, s1, Branches(at, branches[..k]), o1)
      requires Piece(planned, r1, s1, results, starts, Under(BranchPath(at, branches[k])), o2)
      ensures Piece(planned, r0, s0, results, starts, Under(at), Raised)
      ensures o1.Returned? ==> Done(planned, results, Branches(at, branches[..k]))
    {
      hide Told;
      AddsTwice(r0, s0, r1, s1, results, starts, Branches(at, branches[..k]), Under(BranchPath(at, branches[k])),
                Under(at));
      ToldTwice(r0, s0, r1, s1, results, starts, Branches(at, branches[..k]), Under(BranchPath(at, branches[k])),
                o1.Returned?, o2.Returned?, false);
      if o1.Returned? {
        DoneStays(planned, r1, results, Branches(at, branches[..k]));
      }
    }

    lemma ActionReady(t: Tree, origin: Origin, phase: Phase, k: nat, r0: seq<Result>, s0: seq<Path>, o: Outcome)
      requires CasePlanned(t, invocation) && k < |Group(t, origin, phase)|
      requires Clean(r0, s0, Under(Scope(invocation, origin, phase)))
      requires Piece(planned, r0, s0, results, starts,
                     Branches(Scope(invocation, origin, phase), Group(t, origin, phase)[..k]), o)
      ensures ActionPlanned(t.id, origin, phase, Group(t, origin, phase)[k], invocation)
      ensures Clean(results, starts, Under(BranchPath(Scope(invocation, origin, phase), Group(t, origin, phase)[k])))
    {
      var at, branches := Scope(invocation, origin, phase), Group(t, origin, phase);
      hide Clean, Piece, Valid;
      var b := branches[k];
      GroupStepsAllIn(t, invocation, origin, phase, planned);
      BranchStepsAllIn(t.id, origin, phase, branches, |branches|, k, invocation, planned);
      assert ReadyGroup(t.id, origin, phase, branches, |branches|, invocation, caseSteps, hookSteps);
      assert WellPlacedGroup(branches);
      forall q | PlannedBranch(b, at, q)
        ensures HasPath(planned, q)
      {
        assert InGroup(branches, |branches|, at, q);
      }
      forall i | 0 <= i < |planned| && BranchPath(at, b) <= planned[i].path
        ensures PlannedBranch(b, at, planned[i].path)
      {
        GroupPlanned(t, invocation, origin, phase, planned[i].path);
        BranchPlanned(branches, k, at, planned[i].path);
      }
      BranchClean(at, branches, k, r0, s0, o);
    }

    /** The branches before the k-th record nothing in its scope. */
    lemma BranchClean(at: Path, branches: seq<Branch>, k: nat, r0: seq<Result>, s0: seq<Path>, o: Outcome)
      requires k < |branches| && WellPlacedGroup(branches)
      requires Clean(r0, s0, Under(at))
      requires Piece(planned, r0, s0, results, starts, Branches(at, branches[..k]), o)
      ensures Clean(results, starts, Under(BranchPath(at, branches[k])))
    {
      var b := branches[k];
      forall q | In(Branches(at, branches[..k]), q)
        ensures !In(Under(BranchPath(at, b)), q)
      {
        var j :| 0 <= j < k && BranchPath(at, branches[j]) <= q;
        BranchPathsApart(at, branches[j], b, q);
      }
      assert Clean(r0, s0, Under(BranchPath(at, b)));
      CleanStays(r0, s0, results, starts, Branches(at, branches[..k]), Under(BranchPath(at, b)));
    }

    lemma BranchPathsApart(at: Path, a: Branch, b: Branch, q: Path)
      requires !SamePlace(b, a) && BranchPath(at, a) <= q
      ensures !(BranchPath(at, b) <= q)
    {
      assert BranchPath(at, a)[|at|] == Num(a.hook) && BranchPath(at, a)[|at| + 1] == Num(a.action);
      assert BranchPath(at, b)[|at|] == Num(b.hook) && BranchPath(at, b)[|at| + 1] == Num(b.action);
    }

    lemma HooksGrow(r0: seq<Result>, s0: seq<Path>, r1: seq<Result>, s1: seq<Path>, at: Path, branches: seq<Branch>,
                    k: nat, o1: Outcome, o2: Outcome)
      requires k < |branches| && Valid() && Clean(r0, s0, Under(at)) && o1.Returned? && o2.Returned?
      requires Piece(planned, r0, s0, r1, s1, Branches(at, branches[..k]), o1)
      requires Piece(planned, r1, s1, results, starts, Under(BranchPath(at, branches[k])), o2)
      ensures Piece(planned, r0, s0, results, starts, Branches(at, branches[..k + 1]), Returned(o1.ok && o2.ok))
    {
      hide Told, Done, Counts, AllPassed, NoneWaiting;
      var g1, g2, g := Branches(at, branches[..k]), Under(BranchPath(at, branches[k])), Branches(at, branches[..k + 1]);
      forall q
        ensures In(g, q) <==> In(g1, q) || In(g2, q)
      {
        assert forall j | 0 <= j < k :: branches[..k + 1][j] == branches[..k][j] == branches[j];
        assert branches[..k + 1][k] == branches[k];
      }
      assert Clean(r0, s0, g);
      assert forall i | 0 <= i < |r1| :: results[i] == r1[i];
      Compose(planned, r0, s0, r1, s1, results, starts, g1, g2, g, o1, o2);
    }

    lemma HooksSkipped(r0: seq<Result>, s0: seq<Path>, r1: seq<Result>, at: Path, branches: seq<Branch>, k: nat)
      requires k < |branches| && Valid() && Clean(r0, s0, Under(at))
      requires Piece(planned, r0, s0, r1, starts, Branches(at, branches[..k + 1]), Returned(false))
      requires Adds(r1, starts, results, starts, Under(at))
      requires forall i | 0 <= i < |planned| && at <= planned[i].path ::
                 RecordedIn(results, planned[i].path) || planned[i].path in starts
      requires Told(r1, results, starts, true)
      ensures Piece(planned, r0, s0, results, starts, Under(at), Returned(false))
    {
      var g := Branches(at, branches[..k + 1]);
      SkippedIsDone(planned, r0, s0, r1, starts, results, g, Under(at));
      FailThenSkip(planned, r0, s0, r1, starts, results, starts, g, Under(at), Under(at));
    }

    lemma HooksEnd(t: Tree, origin: Origin, phase: Phase, r0: seq<Result>, s0: seq<Path>, o: Outcome)
      requires CasePlanned(t, invocation) && Clean(r0, s0, Under(Scope(invocation, origin, phase)))
      requires Piece(planned, r0, s0, results, starts,
                     Branches(Scope(invocation, origin, phase),
                              Group(t, origin, phase)[..|Group(t, origin, phase)|]), o)
      ensures Piece(planned, r0, s0, results, starts, Under(Scope(invocation, origin, phase)), o)
    {
      var at, branches := Scope(invocation, origin, phase), Group(t, origin, phase);
      assert branches[..|branches|] == branches;
      forall i | 0 <= i < |planned| && at <= planned[i].path
        ensures In(Branches(at, branches), planned[i].path)
      {
        GroupPlanned(t, invocation, origin, phase, planned[i].path);
        var j :| 0 <= j < |branches| && PlannedBranch(branches[j], at, planned[i].path);
        BranchShape(branches[j], at, planned[i].path);
      }
      Widen(planned, r0, s0, results, starts, Branches(at, branches), Under(at), o);
    }

    /** The try block of _execute_case: start hooks, then the body. */
    method StartAndMain(path: CasePath, stack: seq<CasePath>, root: bool, ghost t: Tree) returns (o: Outcome)
      requires Valid() && path in files && path !in stack && Unfold(files, cfg, path, stack, root) == Some(t)
      requires CasePlanned(t, invocation) && Clean(results, starts, Under(invocation))
      modifies this`results, this`starts, this`issuedIds, this`generated, this`lastResult, this`attempts,
               this`invocation, this`completionDepth
      ensures Valid() && invocation == old(invocation) && completionDepth == old(completionDepth)
      ensures Piece(planned, old(results), old(starts), results, starts, MainOf(invocation), o)
      decreases Left(files, stack + [path]), 6
    {
      hide Consistent, Ready, WellPlaced, Planned, Clean, Piece, DirectStarts, HasPath, RecordedIn, CasePlanned,
           UnfoldSlots, Adds, BranchPaths, Done, AttemptsOf, LeftAlone, GroupEnds, BodyRun, BodySteps, ActionFailed,
           Told;
      ghost var inv, r0, s0 := invocation, results, starts;
      var id, below := files[path].id, stack + [path];
      UnfoldGroup(files, cfg, path, stack, root, FromConfig, OnCaseStart);
      UnfoldGroup(files, cfg, path, stack, root, FromCase, OnCaseStart);
      UnfoldIffGroups(files, cfg, path, stack, root);
      var startOk := true;
      CleanParts(r0, s0, inv);
      NoConfigHooks(files, cfg, path, stack, root);
      if root {
        var o1, _, _ := ExecuteHooks(id, FromConfig, OnCaseStart, Slots(cfg.onStart), below, false, false, t);
        if o1.Raised? {
          PartRaised(r0, s0, inv);
          return Raised;
        }
        startOk := o1.ok;
      } else {
        NoGroup(t, FromConfig, OnCaseStart, r0, s0);
      }
      ghost var r1, s1 := results, starts;
      AfterConfig(r0, s0, inv, Returned(startOk));
      if startOk {
        var o2, _, _ := ExecuteHooks(id, FromCase, OnCaseStart, Slots(files[path].onStart), below, false, false, t);
        if o2.Raised? {
          PartsRaised(r0, s0, r1, s1, inv, Returned(true));
          return Raised;
        }
        startOk := o2.ok;
        BothStarts(t, r0, s0, r1, s1, o2);
      } else {
        SkipScope(Scope(invocation, FromCase, OnCaseStart), Skipped);
        StartSkipTold(r1, FromCase, Scope(invocation, FromCase, OnCaseStart));
        StartSkipped(t, r0, s0, r1, s1);
      }
      ghost var r2, s2 := results, starts;
      AfterStart(r0, s0, inv, Returned(startOk));
      if startOk {
        var verdict, _, _ := ExecuteCaseCommands(t);
        o := verdict;
        MainDone(t, r0, s0, r2, s2, o);
      } else {
        var raised, _, _ := BlockBody(t);
        MainBlocked(t, r0, s0, r2, s2, raised);
        o := if raised then Raised else Returned(false);
      }
    }

    lemma CleanParts(r: seq<Result>, s: seq<Path>, inv: Path)
      requires Clean(r, s, Under(inv))
      ensures Clean(r, s, Under(Scope(inv, FromConfig, OnCaseStart))) && Clean(r, s, StartOf(inv))
      ensures Clean(r, s, MainOf(inv))
    {}

    lemma ScopeInPhase(inv: Path, origin: Origin, phase: Phase)
      ensures forall q | Scope(inv, origin, phase) <= q :: InPhase(inv, phase, q) && q[|inv|] == Org(origin)
    {
      var at := Scope(inv, origin, phase);
      assert at[|inv|] == Org(origin) && at[|inv| + 1] == Ph(phase);
      forall q | at <= q
        ensures InPhase(inv, phase, q) && q[|inv|] == Org(origin)
      {
        assert q[|inv|] == at[|inv|] && q[|inv| + 1] == at[|inv| + 1];
      }
    }

    lemma ScopesApart(inv: Path, o1: Origin, p1: Phase, o2: Origin, p2: Phase)
      requires o1 != o2
      ensures forall q | In(Under(Scope(inv, o1, p1)), q) :: !In(Under(Scope(inv, o2, p2)), q)
    {
      ScopeInPhase(inv, o1, p1);
      ScopeInPhase(inv, o2, p2);
      forall q | In(Under(Scope(inv, o1, p1)), q)
        ensures !In(Under(Scope(inv, o2, p2)), q)
      {
        assert q[|inv|] == Org(o1);
      }
    }

    lemma PartRaised(r0: seq<Result>, s0: seq<Path>, inv: Path)
      requires Piece(planned, r0, s0, results, starts, Under(Scope(inv, FromConfig, OnCaseStart)), Raised)
      ensures Piece(planned, r0, s0, results, starts, MainOf(inv), Raised)
    {
      ScopeInPhase(inv, FromConfig, OnCaseStart);
    }

    lemma PartsRaised(r0: seq<Result>, s0: seq<Path>, r1: seq<Result>, s1: seq<Path>, inv: Path, o: Outcome)
      requires Piece(planned, r0, s0, r1, s1, Under(Scope(inv, FromConfig, OnCaseStart)), o)
      requires Piece(planned, r1, s1, results, starts, Under(Scope(inv, FromCase, OnCaseStart)), Raised)
      ensures Piece(planned, r0, s0, results, starts, MainOf(inv), Raised)
    {
      ScopeInPhase(inv, FromConfig, OnCaseStart);
      ScopeInPhase(inv, FromCase, OnCaseStart);
      hide Told;
      AddsTwice(r0, s0, r1, s1, results, starts, Under(Scope(inv, FromConfig, OnCaseStart)),
                Under(Scope(inv, FromCase, OnCaseStart)), MainOf(inv));
      ToldTwice(r0, s0, r1, s1, results, starts, Under(Scope(inv, FromConfig, OnCaseStart)),
                Under(Scope(inv, FromCase, OnCaseStart)), o.Returned?, false, false);
    }

    /** A group without actions is done without doing anything. */
    lemma NoGroup(t: Tree, origin: Origin, phase: Phase, r: seq<Result>, s: seq<Path>)
      requires CasePlanned(t, invocation) && Group(t, origin, phase) == []
      requires Clean(r, s, Under(Scope(invocation, origin, phase)))
      ensures Piece(planned, r, s, r, s, Under(Scope(invocation, origin, phase)), Returned(true))
    {
      forall i | 0 <= i < |planned|
        ensures !(Scope(invocation, origin, phase) <= planned[i].path)
      {
        if Scope(invocation, origin, phase) <= planned[i].path {
          GroupPlanned(t, invocation, origin, phase, planned[i].path);
        }
      }
      EmptyPiece(planned, r, s, Under(Scope(invocation, origin, phase)));
    }

    lemma NoConfigHooks(files: Files, cfg: Config, path: CasePath, stack: seq<CasePath>, root: bool)
      requires path in files && Unfold(files, cfg, path, stack, root).Some?
      ensures var t := Unfold(files, cfg, path, stack, root).value;
              !root ==> t.cfgStart == [] && t.cfgComplete == []
    {}

    lemma AfterConfig(r0: seq<Result>, s0: seq<Path>, inv: Path, o: Outcome)
      requires Clean(r0, s0, Under(inv))
      requires Piece(planned, r0, s0, results, starts, Under(Scope(inv, FromConfig, OnCaseStart)), o)
      ensures Clean(results, starts, Under(Scope(inv, FromCase, OnCaseStart)))
    {
      ScopesApart(inv, FromConfig, OnCaseStart, FromCase, OnCaseStart);
      CleanStays(r0, s0, results, starts, Under(Scope(inv, FromConfig, OnCaseStart)),
                 Under(Scope(inv, FromCase, OnCaseStart)));
    }

    lemma PhaseRegions(t: Tree, inv: Path, phase: Phase)
      requires CasePlanned(t, inv)
      ensures var a, b := Scope(inv, FromConfig, phase), Scope(inv, FromCase, phase);
              && (forall q | a <= q :: InPhase(inv, phase, q))
              && (forall q | b <= q :: InPhase(inv, phase, q))
              && (forall i | 0 <= i < |planned| && InPhase(inv, phase, planned[i].path) ::
                    a <= planned[i].path || b <= planned[i].path)
    {
      ScopeInPhase(inv, FromConfig, phase);
      ScopeInPhase(inv, FromCase, phase);
      forall i | 0 <= i < |planned| && InPhase(inv, phase, planned[i].path)
        ensures Scope(inv, FromConfig, phase) <= planned[i].path || Scope(inv, FromCase, phase) <= planned[i].path
      {
        PartOf(t, inv, planned[i].path);
      }
    }

    /** The two components after the case's invocation decide where a planned step belongs. */
    lemma PartOf(t: Tree, inv: Path, q: Path)
      requires Planned(t, inv, q)
      ensures inv <= q && |q| >= |inv| + 2
      ensures InPhase(inv, OnCaseStart, q) ==>
                Scope(inv, FromConfig, OnCaseStart) <= q || Scope(inv, FromCase, OnCaseStart) <= q
      ensures InPhase(inv, OnCaseComplete, q) ==>
                Scope(inv, FromConfig, OnCaseComplete) <= q || Scope(inv, FromCase, OnCaseComplete) <= q
      ensures !InPhase(inv, OnCaseStart, q) && !InPhase(inv, OnCaseComplete, q) ==> inv + [Body] <= q
    {
      PlannedShape(t, inv, q);
      PlannedScopes(t, inv, q);
      ScopeInPhase(inv, FromConfig, OnCaseStart);
      ScopeInPhase(inv, FromCase, OnCaseStart);
      ScopeInPhase(inv, FromCase, OnCaseComplete);
      ScopeInPhase(inv, FromConfig, OnCaseComplete);
      BodyNotInPhase(inv);
    }

    lemma BodyNotInPhase(inv: Path)
      ensures forall q, phase | inv + [Body] <= q :: !InPhase(inv, phase, q)
    {
      assert (inv + [Body])[|inv|] == Body;
      forall q, phase | inv + [Body] <= q
        ensures !InPhase(inv, phase, q)
      {
        assert q[|inv|] == (inv + [Body])[|inv|];
      }
    }

    lemma BothStarts(t: Tree, r0: seq<Result>, s0: seq<Path>, r1: seq<Result>, s1: seq<Path>, o: Outcome)
      requires Valid() && CasePlanned(t, invocation) && Clean(r0, s0, Under(invocation)) && o.Returned?
      requires Piece(planned, r0, s0, r1, s1, Under(Scope(invocation, FromConfig, OnCaseStart)), Returned(true))
      requires Piece(planned, r1, s1, results, starts, Under(Scope(invocation, FromCase, OnCaseStart)), o)
      ensures Piece(planned, r0, s0, results, starts, StartOf(invocation), o)
    {
      PhaseRegions(t, invocation, OnCaseStart);
      assert forall i | 0 <= i < |r1| :: results[i] == r1[i];
      Compose(planned, r0, s0, r1, s1, results, starts, Under(Scope(invocation, FromConfig, OnCaseStart)),
              Under(Scope(invocation, FromCase, OnCaseStart)), StartOf(invocation), Returned(true), o);
    }

    lemma StartSkipped(t: Tree, r0: seq<Result>, s0: seq<Path>, r1: seq<Result>, s1: seq<Path>)
      requires Valid() && CasePlanned(t, invocation) && Clean(r0, s0, Under(invocation)) && starts == s1
      requires Piece(planned, r0, s0, r1, s1, Under(Scope(invocation, FromConfig, OnCaseStart)), Returned(false))
      requires Adds(r1, s1, results, starts, Under(Scope(invocation, FromCase, OnCaseStart)))
      requires Clean(r1, s1, Under(Scope(invocation, FromCase, OnCaseStart)))
      requires forall i | 0 <= i < |planned| && Scope(invocation, FromCase, OnCaseStart) <= planned[i].path ::
                 RecordedIn(results, planned[i].path) || planned[i].path in starts
      requires Told(r1, results, starts, true)
      ensures Piece(planned, r0, s0, results, starts, StartOf(invocation), Returned(false))
    {
      hide Told;
      var a, b := Scope(invocation, FromConfig, OnCaseStart), Scope(invocation, FromCase, OnCaseStart);
      PhaseRegions(t, invocation, OnCaseStart);
      DoneStays(planned, r1, results, Under(a));
      assert Done(planned, results, Under(b));
      DoneUnion(planned, results, Under(a), Under(b), StartOf(invocation));
      FailThenSkip(planned, r0, s0, r1, s1, results, starts, Under(a), Under(b), StartOf(invocation));
    }

    lemma AfterStart(r0: seq<Result>, s0: seq<Path>, inv: Path, o: Outcome)
      requires Clean(r0, s0, Under(inv)) && Piece(planned, r0, s0, results, starts, StartOf(inv), o)
      ensures Clean(results, starts, Under(inv + [Body]))
    {
      BodyNotInPhase(inv);
      CleanStays(r0, s0, results, starts, StartOf(inv), Under(inv + [Body]));
    }

    lemma MainRegions(t: Tree, inv: Path)
      requires CasePlanned(t, inv)
      ensures forall q | InPhase(inv, OnCaseStart, q) :: In(MainOf(inv), q)
      ensures forall q | inv + [Body] <= q :: In(MainOf(inv), q)
      ensures forall i | 0 <= i < |planned| && In(MainOf(inv), planned[i].path) ::
                InPhase(inv, OnCaseStart, planned[i].path) || inv + [Body] <= planned[i].path
    {
      BodyNotInPhase(inv);
      forall i | 0 <= i < |planned| && In(MainOf(inv), planned[i].path)
        ensures InPhase(inv, OnCaseStart, planned[i].path) || inv + [Body] <= planned[i].path
      {
        PartOf(t, inv, planned[i].path);
      }
    }

    lemma MainDone(t: Tree, r0: seq<Result>, s0: seq<Path>, r1: seq<Result>, s1: seq<Path>, o: Outcome)
      requires Valid() && CasePlanned(t, invocation) && Clean(r0, s0, Under(invocation))
      requires Piece(planned, r0, s0, r1, s1, StartOf(invocation), Returned(true))
      requires Piece(planned, r1, s1, results, starts, Under(invocation + [Body]), o)
      ensures Piece(planned, r0, s0, results, starts, MainOf(invocation), o)
    {
      hide Told;
      MainRegions(t, invocation);
      assert forall i | 0 <= i < |r1| :: results[i] == r1[i];
      if o.Returned? {
        Compose(planned, r0, s0, r1, s1, results, starts, StartOf(invocation), Under(invocation + [Body]),
                MainOf(invocation), Returned(true), o);
      } else {
        AddsTwice(r0, s0, r1, s1, results, starts, StartOf(invocation), Under(invocation + [Body]), MainOf(invocation));
        ToldTwice(r0, s0, r1, s1, results, starts, StartOf(invocation), Under(invocation + [Body]), true, false, false);
      }
    }

    lemma MainBlocked(t: Tree, r0: seq<Result>, s0: seq<Path>, r1: seq<Result>, s1: seq<Path>, raised: bool)
      requires Valid() && CasePlanned(t, invocation) && Clean(r0, s0, Under(invocation))
      requires Piece(planned, r0, s0, r1, s1, StartOf(invocation), Returned(false))
      requires Adds(r1, s1, results, starts, Under(invocation + [Body]))
      requires !raised ==> Done(planned, results, Under(invocation + [Body]))
      requires Told(r1, results, starts, !raised)
      ensures Piece(planned, r0, s0, results, starts, MainOf(invocation), if raised then Raised else Returned(false))
    {
      hide Told;
      MainRegions(t, invocation);
      if raised {
        AddsTwice(r0, s0, r1, s1, results, starts, StartOf(invocation), Under(invocation + [Body]), MainOf(invocation));
        ToldTwice(r0, s0, r1, s1, results, starts, StartOf(invocation), Under(invocation + [Body]), true, false, false);
      } else {
        DoneStays(planned, r1, results, StartOf(invocation));
        DoneUnion(planned, results, StartOf(invocation), Under(invocation + [Body]), MainOf(invocation));
        FailThenSkip(planned, r0, s0, r1, s1, results, starts, StartOf(invocation), Under(invocation + [Body]),
                     MainOf(invocation));
      }
    }

    /** The finally block: completion hooks with cancellation switched off. */
    method Completion(path: CasePath, stack: seq<CasePath>, root: bool, interrupted: bool, ghost t: Tree)
      returns (o: Outcome)
      requires Valid() && path in files && path !in stack && Unfold(files, cfg, path, stack, root) == Some(t)
      requires CasePlanned(t, invocation) && Clean(results, starts, CompletionOf(invocation))
      modifies this`results, this`starts, this`issuedIds, this`generated, this`lastResult, this`attempts,
               this`invocation, this`completionDepth
      ensures Valid() && invocation == old(invocation) && completionDepth == old(completionDepth)
      ensures Piece(planned, old(results), old(starts), results, starts, CompletionOf(invocation), o)
      ensures DirectStarts(starts, invocation, OnCaseComplete) <= CompletionPaths(t, invocation)
      ensures o.Returned? ==> DirectStarts(starts, invocation, OnCaseComplete) == CompletionPaths(t, invocation)
      ensures o.Raised? ==>
                BrokenOff(planned, results, DirectStarts(starts, invocation, OnCaseComplete),
                          CompletionPaths(t, invocation))
      decreases Left(files, stack + [path]), 6
    {
      hide Consistent, Ready, WellPlaced, Planned, Clean, Piece, DirectStarts, HasPath, RecordedIn, CasePlanned,
           UnfoldSlots, Adds, Done, BranchPaths, AllTrue, BrokenOff, CompletionPaths;
      ghost var inv, r0, s0 := invocation, results, starts;
      var id, below := files[path].id, stack + [path];
      UnfoldGroup(files, cfg, path, stack, root, FromCase, OnCaseComplete);
      UnfoldGroup(files, cfg, path, stack, root, FromConfig, OnCaseComplete);
      UnfoldIffGroups(files, cfg, path, stack, root);
      NoConfigHooks(files, cfg, path, stack, root);
      CompletionStart(t, r0, s0, inv);
      completionDepth := completionDepth + 1;
      var o1, n1, v1 := ExecuteHooks(id, FromCase, OnCaseComplete, Slots(files[path].onComplete), below, true,
                                     interrupted, t);
      CompletionRaised(r0, s0, inv, o1);
      PathsPrefix(t, inv, n1, 0);
      o := o1;
      if o1.Raised? {
        OwnActionsBreakOff(planned, results, DirectStarts(starts, inv, OnCaseComplete), t, inv, |v1|);
      } else {
        ghost var r1, s1 := results, starts;
        AfterCompletion(r0, s0, inv, o1);
        var o2 := Returned(true);
        if root {
          ghost var n2, v2;
          o2, n2, v2 := ExecuteHooks(id, FromConfig, OnCaseComplete, Slots(cfg.onComplete), below, true, interrupted,
                                     t);
          PathsPrefix(t, inv, n1, n2);
          if o2.Raised? {
            OwnActionsDone(r0, s0, r1, s1, inv, o1, o2);
            ConfigActionsBreakOff(planned, results, DirectStarts(starts, inv, OnCaseComplete), t, inv, |v2|);
          }
        } else {
          NoGroup(t, FromConfig, OnCaseComplete, r1, s1);
        }
        BothCompletions(t, r0, s0, r1, s1, o1, o2);
        o := if o2.Raised? then Raised else Returned(o1.ok && o2.ok);
      }
      completionDepth := completionDepth - 1;
    }

    lemma CompletionStart(t: Tree, r: seq<Result>, s: seq<Path>, inv: Path)
      requires Clean(r, s, CompletionOf(inv))
      ensures Clean(r, s, Under(Scope(inv, FromCase, OnCaseComplete)))
      ensures DirectStarts(s, inv, OnCaseComplete) == []
    {
      ScopeInPhase(inv, FromCase, OnCaseComplete);
      NoDirect(s, inv, OnCaseComplete);
    }

    lemma CompletionRaised(r0: seq<Result>, s0: seq<Path>, inv: Path, o: Outcome)
      requires Piece(planned, r0, s0, results, starts, Under(Scope(inv, FromCase, OnCaseComplete)), o)
      ensures Piece(planned, r0, s0, results, starts, CompletionOf(inv), Raised)
    {
      hide Told;
      ToldLess(r0, results, starts, o.Returned?, false);
      ScopeInPhase(inv, FromCase, OnCaseComplete);
    }

    lemma AfterCompletion(r0: seq<Result>, s0: seq<Path>, inv: Path, o: Outcome)
      requires Clean(r0, s0, CompletionOf(inv))
      requires Piece(planned, r0, s0, results, starts, Under(Scope(inv, FromCase, OnCaseComplete)), o)
      ensures Clean(results, starts, Under(Scope(inv, FromConfig, OnCaseComplete)))
    {
      ScopeInPhase(inv, FromConfig, OnCaseComplete);
      ScopesApart(inv, FromCase, OnCaseComplete, FromConfig, OnCaseComplete);
      CleanStays(r0, s0, results, starts, Under(Scope(inv, FromCase, OnCaseComplete)),
                 Under(Scope(inv, FromConfig, OnCaseComplete)));
    }

    lemma OwnActionsDone(r0: seq<Result>, s0: seq<Path>, r1: seq<Result>, s1: seq<Path>, inv: Path, o1: Outcome,
                         o2: Outcome)
      requires o1.Returned? && Piece(planned, r0, s0, r1, s1, Under(Scope(inv, FromCase, OnCaseComplete)), o1)
      requires Piece(planned, r1, s1, results, starts, Under(Scope(inv, FromConfig, OnCaseComplete)), o2)
      ensures Done(planned, results, Under(Scope(inv, FromCase, OnCaseComplete)))
    {
      DoneStays(planned, r1, results, Under(Scope(inv, FromCase, OnCaseComplete)));
    }

    lemma BothCompletions(t: Tree, r0: seq<Result>, s0: seq<Path>, r1: seq<Result>, s1: seq<Path>, o1: Outcome,
                          o2: Outcome)
      requires Valid() && CasePlanned(t, invocation) && Clean(r0, s0, CompletionOf(invocation)) && o1.Returned?
      requires Piece(planned, r0, s0, r1, s1, Under(Scope(invocation, FromCase, OnCaseComplete)), o1)
      requires Piece(planned, r1, s1, results, starts, Under(Scope(invocation, FromConfig, OnCaseComplete)), o2)
      ensures Piece(planned, r0, s0, results, starts, CompletionOf(invocation),
                    if o2.Raised? then Raised else Returned(o1.ok && o2.ok))
    {
      hide Told;
      var a, g := Under(Scope(invocation, FromCase, OnCaseComplete)), CompletionOf(invocation);
      var b := Under(Scope(invocation, FromConfig, OnCaseComplete));
      PhaseRegions(t, invocation, OnCaseComplete);
      assert forall i | 0 <= i < |r1| :: results[i] == r1[i];
      if o2.Returned? {
        Compose(planned, r0, s0, r1, s1, results, starts, a, b, g, o1, o2);
      } else {
        AddsTwice(r0, s0, r1, s1, results, starts, a, b, g);
        ToldTwice(r0, s0, r1, s1, results, starts, a, b, true, false, false);
      }
    }

    lemma PathsPrefix(t: Tree, inv: Path, n1: nat, n2: nat)
      requires n1 <= |t.complete| && n2 <= |t.cfgComplete|
      ensures [] + BranchPaths(Scope(inv, FromCase, OnCaseComplete), t.complete, n1) <= CompletionPaths(t, inv)
      ensures n1 == |t.complete| ==>
                var p := [] + BranchPaths(Scope(inv, FromCase, OnCaseComplete), t.complete, n1);
                && p + BranchPaths(Scope(inv, FromConfig, OnCaseComplete), t.cfgComplete, n2) <= CompletionPaths(t, inv)
                && (n2 == |t.cfgComplete| ==>
                      p + BranchPaths(Scope(inv, FromConfig, OnCaseComplete), t.cfgComplete, n2)
                          == CompletionPaths(t, inv))
                && (n2 == 0 ==> p + BranchPaths(Scope(inv, FromConfig, OnCaseComplete), t.cfgComplete, n2) == p)
    {}

    /** _execute_case. Once the case has been entered its completion actions start in order, all of
        them unless one of them raises; an interrupted case leaves no planned step of its own
        without a result or a recorded start. */
    method ExecuteCase(path: CasePath, stack: seq<CasePath>, hasParent: bool, ghost t: Tree)
      returns (o: Outcome, ghost entered: bool, ghost completionRaised: bool)
      requires Valid() && Unfold(files, cfg, path, stack, !hasParent && path == casePath) == Some(t)
      requires CasePlanned(t, invocation) && Clean(results, starts, Under(invocation))
      modifies this`results, this`starts, this`issuedIds, this`generated, this`lastResult, this`attempts,
               this`invocation, this`completionDepth
      ensures Valid() && invocation == old(invocation) && completionDepth == old(completionDepth)
      ensures Piece(planned, old(results), old(starts), results, starts, Under(invocation), o)
      ensures o == Returned(true) && NoneWaiting(planned, old(results), Under(invocation)) ==>
                AllPassed(results, Under(invocation))
      ensures o.Raised? && entered ==>
                forall i | 0 <= i < |planned| && invocation <= planned[i].path ::
                    RecordedIn(results, planned[i].path) || planned[i].path in starts
      ensures !entered ==> o.Raised? && results == old(results) && starts == old(starts)
      ensures entered ==> DirectStarts(starts, invocation, OnCaseComplete) <= CompletionPaths(t, invocation)
      ensures entered && !completionRaised ==>
                DirectStarts(starts, invocation, OnCaseComplete) == CompletionPaths(t, invocation)
      ensures entered && completionRaised ==>
                BrokenOff(planned, results, DirectStarts(starts, invocation, OnCaseComplete),
                          CompletionPaths(t, invocation))
      ensures completionDepth > 0 ==> entered
      decreases Left(files, stack), 3, 0
    {
      hide Consistent, Ready, WellPlaced, Planned, Clean, DirectStarts, HasPath, CasePlanned, Adds, Done,
           BranchPaths, CompletionPaths, BrokenOff, NoneWaiting, AllPassed, Counts;
      ghost var r0, s0 := results, starts;
      entered, completionRaised := false, false;
      var cancelled := CheckCancel();
      if cancelled {
        NothingDone(r0, s0, Under(invocation));
        return Raised, false, false;
      }
      if path in stack {
        assert false;
      }
      UnfoldFound(path, stack, !hasParent && path == casePath);
      LeftShrinks(files, stack, path);
      entered := true;
      var root := !hasParent && path == casePath;
      var o1 := StartAndMain(path, stack, root, t);
      ghost var r1, s1 := results, starts;
      BeforeCompletion(r0, s0, invocation, o1);
      var o2 := Completion(path, stack, root, o1.Raised?, t);
      completionRaised := o2.Raised?;
      WholeCase(t, r0, s0, r1, s1, o1, o2);
      if o1.Raised? || o2.Raised? {
        ghost var r2 := results;
        SkipScope(invocation, Incomplete);
        ThenSkipped(r0, s0, r2, invocation);
        if completionRaised {
          BrokenOffStays(planned, r2, results, DirectStarts(starts, invocation, OnCaseComplete),
                         CompletionPaths(t, invocation));
        }
        o := Raised;
      } else {
        o := Returned(o1.ok && o2.ok);
      }
    }

    lemma UnfoldFound(path: CasePath, stack: seq<CasePath>, root: bool)
      requires Unfold(files, cfg, path, stack, root).Some?
      ensures path in files && path !in stack
    {}

    lemma BeforeCompletion(r0: seq<Result>, s0: seq<Path>, inv: Path, o: Outcome)
      requires Clean(r0, s0, Under(inv)) && Piece(planned, r0, s0, results, starts, MainOf(inv), o)
      ensures Clean(results, starts, CompletionOf(inv))
    {
      assert Clean(r0, s0, CompletionOf(inv));
      CleanStays(r0, s0, results, starts, MainOf(inv), CompletionOf(inv));
    }

    lemma WholeCase(t: Tree, r0: seq<Result>, s0: seq<Path>, r1: seq<Result>, s1: seq<Path>, o1: Outcome, o2: Outcome)
      requires Valid() && Clean(r0, s0, Under(invocation))
      requires Piece(planned, r0, s0, r1, s1, MainOf(invocation), o1)
      requires Piece(planned, r1, s1, results, starts, CompletionOf(invocation), o2)
      ensures Piece(planned, r0, s0, results, starts, Under(invocation), if o1.Raised?
                    || o2.Raised? then Raised else Returned(o1.ok && o2.ok))
    {
      hide Told;
      assert forall i | 0 <= i < |r1| :: results[i] == r1[i];
      if o1.Returned? && o2.Returned? {
        Compose(planned, r0, s0, r1, s1, results, starts, MainOf(invocation), CompletionOf(invocation),
                Under(invocation), o1, o2);
      } else {
        AddsTwice(r0, s0, r1, s1, results, starts, MainOf(invocation), CompletionOf(invocation), Under(invocation));
        ToldTwice(r0, s0, r1, s1, results, starts, MainOf(invocation), CompletionOf(invocation), o1.Returned?,
                  o2.Returned?, false);
      }
    }

    lemma ThenSkipped(r0: seq<Result>, s0: seq<Path>, r1: seq<Result>, inv: Path)
      requires Piece(planned, r0, s0, r1, starts, Under(inv), Raised) && Adds(r1, starts, results, starts, Under(inv))
      requires LeftAlone(r1, results, starts, Incomplete)
      ensures Piece(planned, r0, s0, results, starts, Under(inv), Raised)
    {
      hide Told;
      IncompleteTold(r1, results, starts);
      ToldTwice(r0, s0, r1, starts, results, starts, Under(inv), Under(inv), false, false, false);
      AddsTwice(r0, s0, r1, starts, results, starts, Under(inv), Under(inv), Under(inv));
    }

    // ---- the whole run ----

    /** A planned step has its result, and no result belongs to anything else. */
    ghost predicate OneResultEach()
      reads this
    {
      && (forall i | 0 <= i < |planned| :: RecordedIn(results, planned[i].path))
      && (forall i | 0 <= i < |results| :: HasPath(planned, results[i].path))
      && (forall i, j | 0 <= i < j < |results| :: results[i].path != results[j].path)
    }

    /** run: plan the tree of cases, check its steps, poll, execute the root case. A run that
        returns has recorded exactly the plan, and its verdict is exact; a run that is interrupted
        once the root case was entered leaves every planned step with a result or a start; a run
        that fails earlier records nothing. */
    method Run() returns (o: Outcome, ghost entered: bool, ghost completionRaised: bool)
      requires invocation == [Root] && completionDepth == 0
      requires planned == [] && results == [] && starts == [] && caseSteps == map[] && hookSteps == map[]
      requires issuedIds == {} && generated == 0 && lastResult == None
      modifies this
      ensures Unfold(files, cfg, casePath, [], true).None? ==> !entered
      ensures !entered ==> o.Raised? && results == [] && starts == []
      ensures entered ==> Valid() && planned == Steps(Unfold(files, cfg, casePath, [], true).value, [Root])
      ensures o.Returned? ==> OneResultEach() && (o.ok <==> forall i | 0 <= i < |results| :: results[i].status.Passed?)
      ensures o.Raised? && entered ==> forall i | 0 <= i < |planned| ::
                RecordedIn(results, planned[i].path) || planned[i].path in starts
      ensures o.Returned? ==> forall i | 0 <= i < |results| ::
                if results[i].path !in starts then results[i].status == Skipped && Blocked(results, i)
                else if OfBody(results[i].path) then results[i].executed
                else results[i].status == Passed || results[i].status == Failed
      ensures Told([], results, starts, o.Returned?)
      ensures entered ==>
                var want := CompletionPaths(Unfold(files, cfg, casePath, [], true).value, [Root]);
                && DirectStarts(starts, [Root], OnCaseComplete) <= want
                && (!completionRaised ==> DirectStarts(starts, [Root], OnCaseComplete) == want)
                && (completionRaised ==>
                      BrokenOff(planned, results, DirectStarts(starts, [Root], OnCaseComplete), want))
    {
      hide Ready, CasePlanned, Piece, WellPlaced, Planned, DirectStarts, CompletionPaths, Unfold, Steps, BrokenOff;
      entered, completionRaised := false, false;
      var planOk := PlanCase(casePath, [], false, [Root]);
      if !planOk {
        return Raised, false, false;
      }
      var rejected: bool := *;
      if rejected {
        return Raised, false, false;
      }
      var cancelled := Poll();
      if cancelled {
        return Raised, false, false;
      }
      ghost var t := Unfold(files, cfg, casePath, [], true).value;
      assert planned == Steps(t, [Root]);
      RootPlanned(t);
      o, entered, completionRaised := ExecuteCase(casePath, [], false, t);
      RootDone(t, o);
    }

    lemma RootPlanned(t: Tree)
      requires Unfold(files, cfg, casePath, [], true) == Some(t) && planned == Steps(t, [Root])
      requires Ready(t, [Root], caseSteps, hookSteps)
      requires results == [] && starts == [] && lastResult == None
      ensures Valid() && CasePlanned(t, [Root]) && Clean(results, starts, Under([Root]))
    {
      UnfoldWellPlaced(files, cfg, casePath, [], true);
      StepsExact(t, [Root]);
      hide Planned, Ready, WellPlaced, Steps, Unfold;
      forall i | 0 <= i < |planned| && [Root] <= planned[i].path
        ensures Planned(t, [Root], planned[i].path)
      {
        assert HasPath(planned, planned[i].path);
      }
    }

    lemma RootDone(t: Tree, o: Outcome)
      requires Valid() && planned == Steps(t, [Root]) && Piece(planned, [], [], results, starts, Under([Root]), o)
      ensures forall i | 0 <= i < |planned| :: [Root] <= planned[i].path
      ensures o.Returned? ==> OneResultEach() && (o.ok <==> forall i | 0 <= i < |results| :: results[i].status.Passed?)
      ensures Told([], results, starts, o.Returned?)
      ensures o.Returned? ==> forall i | 0 <= i < |results| ::
                if results[i].path !in starts then results[i].status == Skipped && Blocked(results, i)
                else if OfBody(results[i].path) then results[i].executed
                else results[i].status == Passed || results[i].status == Failed
    {
      hide Planned, Steps, Blocked, OfBody;
      forall i | 0 <= i < |planned|
        ensures [Root] <= planned[i].path
      {
        StepsExact(t, [Root]);
        assert HasPath(planned, planned[i].path);
        PlannedShape(t, [Root], planned[i].path);
      }
    }
  }
}
