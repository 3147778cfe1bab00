/** Freezing the conclusion of a Run (fsq_agent/execution/runs.py:411-510) and the validator of the
    frozen document (fsq_agent/models/_runs.py:32-51, 168-213). Redaction, summaries and times are
    not part of this model. */
module Freeze {
  import opened Wrappers

  /** The status texts that occur in steps, verdicts and conclusions. */
  datatype Word =
    | Success | Passed | Failed | Skipped | Inconclusive | Cancelled | Incomplete | Error
    | NotRequested | NotApplicable | Other(text: string)

  datatype Mode = Strict | Explore

  /** An artifact reference: its kind, the two kinds its metadata may say were requested, and
      whether its availability is "available" or "not_applicable". */
  datatype Artifact = Artifact(kind: string, requestedKind: Option<string>, requestedArtifactKind: Option<string>,
                               usable: bool)

  datatype Phase = Prepare | Finalize | OtherPhase(name: string)

  datatype PhaseReport = PhaseReport(phase: Phase, artifacts: seq<Artifact>)

  datatype Policy = Policy(captureBefore: bool, captureAfter: bool, kinds: seq<string>)

  /** A step result of the evidence bundle. `executed` says that it has a step execution id. */
  datatype Step = Step(id: string, source: Option<string>, invocation: seq<string>, metaInvocation: seq<string>,
                       runCase: bool, status: Word, executed: bool, category: Option<string>, evidenceErrors: nat,
                       policy: Option<Policy>, reports: seq<PhaseReport>)

  datatype Completeness = Complete | Partial | Unavailable | NotApplicableEvidence

  datatype Bundle = Bundle(steps: seq<Step>, artifacts: seq<Artifact>, completeness: Completeness)

  /** The verification a caller supplies: none, or one whose status may be missing. */
  datatype Verification = NoVerification | Verified(status: Option<Word>)

  datatype Counts = Counts(total: nat, passed: nat, failed: nat, skipped: nat, cancelled: nat, incomplete: nat,
                           attempts: nat)

  datatype Evidence = Evidence(status: Completeness, errors: bool)

  datatype ExecutionResult = ExecutionResult(mode: Mode, outcome: Word, counts: Counts, failedStep: Option<string>,
                                             verdict: Option<Word>, evidence: Evidence)

  // ---- logical leaves ----

  /** Where a step ran: its invocation path, else the one in its metadata, else "root". */
  datatype Place = At(path: seq<string>) | RootPlace

  datatype Key = Key(source: string, place: Place)

  function KeyOf(s: Step): Key {
    Key(if s.source.Some? && s.source.value != "" then s.source.value else s.id,
        if s.invocation != [] then At(s.invocation) else if s.metaInvocation != [] then At(s.metaInvocation)
        else RootPlace)
  }

  /** A dictionary that keeps the order in which its keys first came. */
  type Leaves = seq<(Key, Step)>

  predicate HasKey(leaves: Leaves, k: Key) {
    exists i :: 0 <= i < |leaves| && leaves[i].0 == k
  }

  function Put(leaves: Leaves, k: Key, s: Step): Leaves {
    if leaves == [] then [(k, s)]
    else if leaves[0].0 == k then [(k, s)] + leaves[1..]
    else [leaves[0]] + Put(leaves[1..], k, s)
  }

  function LeavesOf(steps: seq<Step>): Leaves {
    if steps == [] then []
    else
      var s, before := steps[|steps| - 1], LeavesOf(steps[..|steps| - 1]);
      if s.runCase then before else Put(before, KeyOf(s), s)
  }

  predicate Attempt(s: Step) {
    !s.runCase && (s.executed || (s.status != Skipped && s.status != Incomplete))
  }

  function Attempts(steps: seq<Step>): nat {
    if steps == [] then 0
    else Attempts(steps[..|steps| - 1]) + if Attempt(steps[|steps| - 1]) then 1 else 0
  }

  predicate DistinctKeys(leaves: Leaves) {
    forall i, j | 0 <= i < j < |leaves| :: leaves[i].0 != leaves[j].0
  }

  /** The n-th step is the last one recorded for its key. */
  predicate LastOfItsKey(steps: seq<Step>, n: int) {
    0 <= n < |steps| && !steps[n].runCase && forall m | n < m < |steps| && !steps[m].runCase ::
        KeyOf(steps[m]) != KeyOf(steps[n])
  }

  ghost predicate IsLeaf(steps: seq<Step>, leaf: (Key, Step)) {
    exists n :: LastOfItsKey(steps, n) && leaf == (KeyOf(steps[n]), steps[n])
  }

  lemma {:induction false} PutFacts(leaves: Leaves, k: Key, s: Step)
    requires DistinctKeys(leaves)
    ensures DistinctKeys(Put(leaves, k, s))
    ensures forall l :: l in Put(leaves, k, s) <==> l == (k, s) || (l in leaves && l.0 != k)
    ensures |Put(leaves, k, s)| == if HasKey(leaves, k) then |leaves| else |leaves| + 1
    ensures forall i | 0 <= i < |leaves| :: Put(leaves, k, s)[i].0 == leaves[i].0
  {
    if leaves != [] && leaves[0].0 != k {
      PutFacts(leaves[1..], k, s);
      assert forall l :: l in leaves <==> l == leaves[0] || l in leaves[1..];
      var r := Put(leaves[1..], k, s);
      assert forall l :: l in [leaves[0]] + r <==> l == leaves[0] || l in r;
      assert forall i | 0 <= i < |leaves[1..]| :: leaves[1..][i] == leaves[i + 1];
      assert HasKey(leaves, k) <==> HasKey(leaves[1..], k) by {
        if HasKey(leaves, k) {
          var i :| 0 <= i < |leaves| && leaves[i].0 == k;
          assert leaves[1..][i - 1].0 == k;
        }
      }
      forall i, j | 0 <= i < j < |r| + 1
        ensures ([leaves[0]] + r)[i].0 != ([leaves[0]] + r)[j].0
      {
        if i == 0 {
          assert r[j - 1] in r;
          assert r[j - 1] == (k, s) || r[j - 1] in leaves[1..];
          if r[j - 1] in leaves[1..] {
            var m :| 0 <= m < |leaves[1..]| && leaves[1..][m] == r[j - 1];
            assert leaves[m + 1].0 != leaves[0].0;
          }
        }
      }
    } else if leaves != [] {
      assert forall l :: l in leaves <==> l == leaves[0] || l in leaves[1..];
      assert forall l | l in leaves[1..] :: l.0 != k by {
        assert forall i | 0 < i < |leaves| :: leaves[i].0 != leaves[0].0;
      }
    }
  }

  lemma LeafGrows(steps: seq<Step>, leaf: (Key, Step))
    requires steps != []
    ensures var s, before := steps[|steps| - 1], steps[..|steps| - 1];
            IsLeaf(steps, leaf) <==> if s.runCase then IsLeaf(before, leaf)
                                     else leaf == (KeyOf(s), s) || (IsLeaf(before, leaf) && leaf.0 != KeyOf(s))
  {
    var last := |steps| - 1;
    var s, before := steps[last], steps[..last];
    assert forall j | 0 <= j < last :: before[j] == steps[j];
    assert LastOfItsKey(steps, last) <==> !s.runCase;
    forall m | 0 <= m < last
      ensures LastOfItsKey(steps, m) <==> LastOfItsKey(before, m) && (s.runCase || KeyOf(s) != KeyOf(steps[m]))
    {}
    if n :| LastOfItsKey(before, n) && leaf == (KeyOf(before[n]), before[n]) {
      assert LastOfItsKey(steps, n) <==> s.runCase || leaf.0 != KeyOf(s);
    }
  }

  /** Every logical leaf carries the last result recorded for it, and every recorded step that is
      not a runCase container belongs to a leaf. */
  lemma {:induction false} LeavesAreLastResults(steps: seq<Step>)
    ensures DistinctKeys(LeavesOf(steps))
    ensures forall l :: l in LeavesOf(steps) <==> IsLeaf(steps, l)
  {
    if steps != [] {
      var s, before := steps[|steps| - 1], steps[..|steps| - 1];
      LeavesAreLastResults(before);
      PutFacts(LeavesOf(before), KeyOf(s), s);
      hide IsLeaf, Put, DistinctKeys;
      forall l
        ensures l in LeavesOf(steps) <==> IsLeaf(steps, l)
      {
        LeafGrows(steps, l);
      }
    }
  }

  predicate HasSource(s: Step) {
    s.source.Some? && s.source.value != ""
  }

  predicate SameSource(s: Step, t: Step) {
    if HasSource(s) then s.source == t.source else !HasSource(t) && s.id == t.id
  }

  predicate SamePlace(s: Step, t: Step) {
    if s.invocation != [] then s.invocation == t.invocation
    else t.invocation == [] && s.metaInvocation == t.metaInvocation
  }

  /** When two results are of the same logical leaf, by what is recorded of them: the source id decides, or
      the step id where there is none; and the invocation, or that of the metadata where there is none. */
  lemma SameLeaf(s: Step, t: Step)
    requires !s.runCase && !t.runCase
    ensures |LeavesOf([s, t])| == 1 || |LeavesOf([s, t])| == 2
    ensures var same := |LeavesOf([s, t])| == 1;
            && (HasSource(s) && HasSource(t) && s.source != t.source ==> !same)
            && (!HasSource(s) && !HasSource(t) && s.id != t.id ==> !same)
            && (s.invocation != t.invocation && s.invocation != [] && t.invocation != [] ==> !same)
            && (s.invocation == t.invocation == [] && s.metaInvocation != t.metaInvocation ==> !same)
            && (SameSource(s, t) && SamePlace(s, t) ==> same)
  {
    var one := [s, t][..1];
    assert one[..0] == [] && LeavesOf(one) == [(KeyOf(s), s)];
    assert LeavesOf([s, t]) == Put(LeavesOf(one), KeyOf(t), t);
    assert LeavesOf(one)[1..] == [];
  }

  // ---- counts ----

  /** The bucket a leaf is counted in: anything that is not final counts as incomplete. */
  function Bucket(status: Word): Word {
    if status in {Passed, Failed, Skipped, Cancelled, Incomplete} then status else Incomplete
  }

  function Number(leaves: Leaves, w: Word): nat {
    if leaves == [] then 0
    else Number(leaves[..|leaves| - 1], w) + if Bucket(leaves[|leaves| - 1].1.status) == w then 1 else 0
  }

  function CountsOf(leaves: Leaves, attempts: nat): Counts {
    Counts(|leaves|, Number(leaves, Passed), Number(leaves, Failed), Number(leaves, Skipped), Number(leaves, Cancelled),
           Number(leaves, Incomplete), attempts)
  }

  /** RunStepCounts.validate_counts */
  predicate EveryLeafCounted(c: Counts) {
    c.total == c.passed + c.failed + c.skipped + c.cancelled + c.incomplete
  }

  lemma {:induction false} CountsPartition(leaves: Leaves, attempts: nat)
    ensures EveryLeafCounted(CountsOf(leaves, attempts))
    decreases |leaves|
  {
    if leaves != [] {
      CountsPartition(leaves[..|leaves| - 1], attempts);
    }
  }

  /** A bucket is empty exactly when no leaf belongs in it. */
  lemma {:induction false} NumberZero(leaves: Leaves, w: Word)
    ensures Number(leaves, w) == 0 <==> forall i | 0 <= i < |leaves| :: Bucket(leaves[i].1.status) != w
    ensures Number(leaves, w) <= |leaves|
    ensures Number(leaves, w) == |leaves| <==> forall i | 0 <= i < |leaves| :: Bucket(leaves[i].1.status) == w
  {
    if leaves != [] {
      NumberZero(leaves[..|leaves| - 1], w);
    }
  }

  predicate Ended(s: Step) {
    s.status == Passed || s.status == Failed || s.status == Cancelled
  }

  function EndedLeaves(leaves: Leaves): nat {
    if leaves == [] then 0 else EndedLeaves(leaves[1..]) + if Ended(leaves[0].1) then 1 else 0
  }

  lemma {:induction false} EndedSnoc(leaves: Leaves, leaf: (Key, Step))
    ensures EndedLeaves(leaves + [leaf]) == EndedLeaves(leaves) + if Ended(leaf.1) then 1 else 0
  {
    if leaves != [] {
      assert (leaves + [leaf])[1..] == leaves[1..] + [leaf];
      EndedSnoc(leaves[1..], leaf);
    }
  }

  lemma {:induction false} EndedIsNumber(leaves: Leaves)
    ensures EndedLeaves(leaves) == Number(leaves, Passed) + Number(leaves, Failed) + Number(leaves, Cancelled)
  {
    if leaves != [] {
      var n := |leaves| - 1;
      EndedIsNumber(leaves[..n]);
      EndedSnoc(leaves[..n], leaves[n]);
      assert leaves[..n] + [leaves[n]] == leaves;
    }
  }

  lemma {:induction false} PutEnded(leaves: Leaves, k: Key, s: Step)
    ensures EndedLeaves(Put(leaves, k, s)) <= EndedLeaves(leaves) + if Ended(s) then 1 else 0
    ensures |Put(leaves, k, s)| >= |leaves|
  {
    if leaves != [] && leaves[0].0 != k {
      PutEnded(leaves[1..], k, s);
    }
  }

  /** Every leaf that passed, failed or was cancelled took an attempt; without leaves there was none. */
  lemma {:induction false} AttemptsCoverLeaves(steps: seq<Step>)
    ensures EndedLeaves(LeavesOf(steps)) <= Attempts(steps)
    ensures LeavesOf(steps) == [] ==> Attempts(steps) == 0
  {
    if steps != [] {
      var n := |steps| - 1;
      AttemptsCoverLeaves(steps[..n]);
      if !steps[n].runCase {
        PutEnded(LeavesOf(steps[..n]), KeyOf(steps[n]), steps[n]);
        assert |Put(LeavesOf(steps[..n]), KeyOf(steps[n]), steps[n])| > 0;
      }
    }
  }

  // ---- the failed step, and gaps in the evidence ----

  /** A failed leaf, or one that was skipped for a reason of its own. */
  predicate Blocked(s: Step) {
    s.status == Failed || (s.status == Skipped && ((s.category.Some? && s.category.value != "") || s.executed))
  }

  /** The first blocked leaf, if any. */
  function FirstBlocked(leaves: Leaves): (r: Option<Step>)
    ensures r.None? ==> forall i | 0 <= i < |leaves| :: !Blocked(leaves[i].1)
    ensures r.Some? ==> exists i ::
              0 <= i < |leaves| && leaves[i].1 == r.value && Blocked(r.value) && forall j | 0 <= j < i ::
                  !Blocked(leaves[j].1)
  {
    if leaves == [] then None
    else if Blocked(leaves[0].1) then Some(leaves[0].1)
    else
      var r := FirstBlocked(leaves[1..]);
      assert r.Some? ==> exists i :: 0 <= i < |leaves[1..]| && leaves[1..][i].1 == r.value && forall j | 0 <= j < i ::
             !Blocked(leaves[1..][j].1);
      assert forall i | 0 <= i < |leaves[1..]| :: leaves[1..][i] == leaves[i + 1];
      r
  }

  predicate OfKind(a: Artifact, kind: string) {
    a.kind == kind || a.requestedKind == Some(kind) || a.requestedArtifactKind == Some(kind)
  }

  predicate Captured(s: Step, phase: Phase, kind: string) {
    exists i, j :: 0 <= i < |s.reports| && s.reports[i].phase == phase && 0 <= j < |s.reports[i].artifacts|
                   && OfKind(s.reports[i].artifacts[j], kind) && s.reports[i].artifacts[j].usable
  }

  predicate Requires(s: Step, phase: Phase, kind: string) {
    && s.policy.Some? && kind in s.policy.value.kinds
    && ((phase == Prepare && s.policy.value.captureBefore) || (phase == Finalize && s.policy.value.captureAfter))
    && (s.executed || (s.status != Skipped && s.status != Incomplete))
  }

  /** A capture that the policy requires of an executed step is missing. */
  ghost predicate MissesCapture(s: Step) {
    exists phase, kind :: Requires(s, phase, kind) && !Captured(s, phase, kind)
  }

  ghost predicate HasErrors(b: Bundle) {
    exists i :: 0 <= i < |b.steps| && (b.steps[i].evidenceErrors > 0 || MissesCapture(b.steps[i]))
  }

  /** The evidence is not complete. */
  ghost predicate Gap(b: Bundle) {
    || HasErrors(b)
    || (exists i :: 0 <= i < |b.steps| && b.steps[i].category == Some("artifact_error"))
    || b.completeness == Partial || b.completeness == Unavailable
    || (exists i :: 0 <= i < |b.artifacts| && !b.artifacts[i].usable)
  }

  // ---- the conclusion ----

  function VerdictOf(v: Verification): Option<Word> {
    match v
    case NoVerification => Some(NotRequested)
    case Verified(status) => status
  }

  /** A status the caller states; the empty text states none. */
  function Stated(status: Option<Word>): Option<Word> {
    if status == Some(Other("")) then None else status
  }

  /** What the conclusion depends on. */
  datatype Facts = Facts(mode: Mode, status: Option<Word>, verdict: Option<Word>, fatal: bool, gap: bool,
                         counts: Counts, blocked: bool)

  predicate WellCounted(f: Facts) {
    && EveryLeafCounted(f.counts)
    && f.counts.passed + f.counts.failed + f.counts.cancelled <= f.counts.attempts
    && (f.counts.total == 0 ==> f.counts.attempts == 0)
    && (f.counts.failed > 0 ==> f.blocked)
    && (f.blocked ==> f.counts.failed + f.counts.skipped > 0)
  }

  predicate AllPassed(c: Counts) {
    c.passed == c.total
  }

  predicate IsCancelled(f: Facts) {
    f.status == Some(Cancelled) || f.counts.cancelled > 0 || f.verdict == Some(Cancelled)
  }

  /** The run went well, as far as its steps and its verdict say; evidence is not considered. */
  predicate WentWell(f: Facts) {
    var stated := Stated(f.status);
    match f.mode
    case Strict =>
      && AllPassed(f.counts) && f.verdict != Some(Failed)
      && ((stated.None? && f.counts.total > 0)
          || (stated == Some(Success)
              && (f.counts.total > 0 || f.verdict == Some(Success) || f.verdict == Some(Passed))))
    case Explore =>
      && f.counts.incomplete == 0
      && (if stated.None? then f.verdict == Some(Success)
          else (stated == Some(Success)
                && (f.counts.attempts > 0 || f.verdict == Some(Success) || f.verdict == Some(Passed))))
  }

  predicate IsError(f: Facts) {
    f.fatal || f.status == Some(Error) || f.verdict == Some(Error) || (f.gap && WentWell(f))
  }

  predicate IsFailed(f: Facts) {
    var stated := Stated(f.status);
    || stated == Some(Failed)
    || (f.mode == Explore && stated.None? && f.counts.incomplete == 0 && f.verdict == Some(Failed))
    || (f.mode == Strict && stated == Some(Success) && (f.blocked || f.verdict == Some(Failed)))
    || (f.mode == Strict && stated.None? && f.counts.incomplete == 0 && f.counts.attempts > 0
        && (f.blocked || f.verdict == Some(Failed)))
  }

  /** The five conclusions in order of precedence. */
  function Conclusion(f: Facts): Word {
    if IsCancelled(f) then Cancelled
    else if IsError(f) then Error
    else if WentWell(f) then Success
    else if IsFailed(f) then Failed
    else Inconclusive
  }

  /** The source's decision, branch by branch. */
  method Decide(f: Facts) returns (outcome: Word)
    requires WellCounted(f)
    ensures outcome == Conclusion(f)
  {
    var c := f.counts;
    var stated := Stated(f.status);
    outcome := if stated.Some? then stated.value
               else if c.cancelled > 0 then Cancelled
               else if c.incomplete > 0 || c.total == 0 || c.attempts == 0 then Inconclusive
               else if c.failed > 0 then Failed else Success;
    if f.mode == Explore && stated.None? && c.cancelled == 0 && c.incomplete == 0 {
      outcome := if f.verdict.Some? then f.verdict.value else Inconclusive;
    }
    if f.mode == Strict && outcome == Success && (f.blocked || c.skipped > 0 || f.verdict == Some(Failed)) {
      outcome := if f.blocked || f.verdict == Some(Failed) then Failed else Inconclusive;
    }
    if f.fatal || f.status == Some(Error) {
      outcome := Error;
    }
    if f.status == Some(Cancelled) || c.cancelled > 0 || f.verdict == Some(Cancelled) {
      outcome := Cancelled;
    } else if f.verdict == Some(Error) {
      outcome := Error;
    } else if (c.incomplete > 0 && outcome == Success)
              || (c.attempts == 0 && f.verdict != Some(Success) && f.verdict != Some(Passed) && outcome == Success) {
      outcome := Inconclusive;
    }
    if f.gap && outcome == Success {
      outcome := Error;
    }
    if outcome !in {Success, Failed, Inconclusive, Cancelled, Error} {
      outcome := Inconclusive;
    }
  }

  // ---- freezing ----

  ghost function FactsOf(mode: Mode, b: Bundle, v: Verification, status: Option<Word>, fatal: bool): (f: Facts)
    ensures WellCounted(f)
  {
    var leaves := LeavesOf(b.steps);
    CountsAreWell(b.steps);
    Facts(mode, status, VerdictOf(v), fatal, Gap(b), CountsOf(leaves, Attempts(b.steps)), FirstBlocked(leaves).Some?)
  }

  lemma CountsAreWell(steps: seq<Step>)
    ensures var leaves := LeavesOf(steps);
            var c := CountsOf(leaves, Attempts(steps));
            && EveryLeafCounted(c) && c.passed + c.failed + c.cancelled <= c.attempts
            && (c.total == 0 ==> c.attempts == 0)
            && (c.failed > 0 ==> FirstBlocked(leaves).Some?)
            && (FirstBlocked(leaves).Some? ==> c.failed + c.skipped > 0)
  {
    var leaves := LeavesOf(steps);
    CountsPartition(leaves, Attempts(steps));
    AttemptsCoverLeaves(steps);
    EndedIsNumber(leaves);
    NumberZero(leaves, Failed);
    NumberZero(leaves, Skipped);
  }

  /** The frozen document of a Run. */
  ghost function Frozen(mode: Mode, b: Bundle, v: Verification, status: Option<Word>, fatal: bool): ExecutionResult {
    var f := FactsOf(mode, b, v, status, fatal);
    var outcome, first := Conclusion(f), FirstBlocked(LeavesOf(b.steps));
    ExecutionResult(mode, outcome, f.counts,
                    if first.None? || (mode == Explore && outcome == Success) then None
                    else Some(first.value.id), f.verdict,
                    Evidence(if f.gap then Partial else if b.steps != [] then Complete else NotApplicableEvidence,
                             HasErrors(b)))
  }

  method CollectLeaves(steps: seq<Step>) returns (leaves: Leaves, attempts: nat)
    ensures leaves == LeavesOf(steps) && attempts == Attempts(steps)
  {
    leaves, attempts := [], 0;
    for i := 0 to |steps|
      invariant leaves == LeavesOf(steps[..i]) && attempts == Attempts(steps[..i])
    {
      assert steps[..i + 1][..i] == steps[..i];
      var step := steps[i];
      if step.runCase {
        continue;
      }
      leaves := Put(leaves, KeyOf(step), step);
      if step.executed || (step.status != Skipped && step.status != Incomplete) {
        attempts := attempts + 1;
      }
    }
    assert steps[..|steps|] == steps;
  }

  method CountLeaves(leaves: Leaves, attempts: nat) returns (c: Counts)
    ensures c == CountsOf(leaves, attempts)
  {
    var counts: map<Word, nat> := map[Passed := 0, Failed := 0, Skipped := 0, Cancelled := 0, Incomplete := 0];
    for i := 0 to |leaves|
      invariant counts.Keys == {Passed, Failed, Skipped, Cancelled, Incomplete}
      invariant forall w | w in counts :: counts[w] == Number(leaves[..i], w)
    {
      assert leaves[..i + 1][..i] == leaves[..i];
      var w := if leaves[i].1.status in counts then leaves[i].1.status else Incomplete;
      counts := counts[w := counts[w] + 1];
    }
    assert leaves[..|leaves|] == leaves;
    c := Counts(|leaves|, counts[Passed], counts[Failed], counts[Skipped], counts[Cancelled], counts[Incomplete],
                attempts);
  }

  method MissingCaptures(s: Step) returns (missing: bool)
    ensures missing <==> MissesCapture(s)
  {
    missing := false;
    if s.policy.None? || (!s.executed && (s.status == Skipped || s.status == Incomplete)) {
      return;
    }
    var policy := s.policy.value;
    var phases := [(Prepare, policy.captureBefore), (Finalize, policy.captureAfter)];
    for i := 0 to |phases|
      invariant missing <==> exists m, kind ::
                  0 <= m < i && Requires(s, phases[m].0, kind) && !Captured(s, phases[m].0, kind)
    {
      var phase := phases[i].0;
      if phases[i].1 {
        ghost var before := missing;
        for j := 0 to |policy.kinds|
          invariant missing <==> before || exists n :: 0 <= n < j && !Captured(s, phase, policy.kinds[n])
        {
          if !Captured(s, phase, policy.kinds[j]) {
            missing := true;
          }
        }
        assert forall kind :: Requires(s, phase, kind) <==> kind in policy.kinds;
      } else {
        assert forall kind :: !Requires(s, phase, kind);
      }
    }
    assert phases[0].0 == Prepare && phases[1].0 == Finalize;
  }

  /** The evidence errors and whether the evidence has a gap. */
  method CheckEvidence(b: Bundle) returns (gap: bool, errors: bool)
    ensures gap == Gap(b) && errors == HasErrors(b)
  {
    errors := exists i :: 0 <= i < |b.steps| && b.steps[i].evidenceErrors > 0;
    gap := errors || exists i :: 0 <= i < |b.steps| && b.steps[i].category == Some("artifact_error");
    gap := gap || b.completeness in {Partial, Unavailable} || exists i ::
        0 <= i < |b.artifacts| && !b.artifacts[i].usable;
    ghost var gap0, errors0 := gap, errors;
    for i := 0 to |b.steps|
      invariant errors <==> errors0 || exists n :: 0 <= n < i && MissesCapture(b.steps[n])
      invariant gap <==> gap0 || exists n :: 0 <= n < i && MissesCapture(b.steps[n])
    {
      var missing := MissingCaptures(b.steps[i]);
      if missing {
        gap, errors := true, true;
      }
    }
  }

  /** freeze, up to the validation and the write of the document. */
  method FreezeBundle(mode: Mode, b: Bundle, v: Verification, status: Option<Word>, fatal: bool)
    returns (r: ExecutionResult)
    ensures r == Frozen(mode, b, v, status, fatal)
  {
    hide Conclusion, WellCounted, LeavesOf, Attempts, Number, Gap, HasErrors, FirstBlocked;
    var leaves, attempts := CollectLeaves(b.steps);
    var counts := CountLeaves(leaves, attempts);
    var first := FirstBlocked(leaves);
    var gap, errors := CheckEvidence(b);
    ghost var f := FactsOf(mode, b, v, status, fatal);
    assert f == Facts(mode, status, VerdictOf(v), fatal, gap, counts, first.Some?);
    var outcome := Decide(Facts(mode, status, VerdictOf(v), fatal, gap, counts, first.Some?));
    if mode == Explore && outcome == Success {
      first := None;
    }
    r := ExecutionResult(mode, outcome, counts, if first.Some? then Some(first.value.id) else None, VerdictOf(v),
                         Evidence(if gap then Partial else if b.steps != [] then Complete else NotApplicableEvidence,
                                  errors));
  }

  // ---- what the conclusions mean ----

  /** Some step is a logical leaf, not a runCase container. */
  predicate HasLeaf(steps: seq<Step>) {
    exists n :: 0 <= n < |steps| && !steps[n].runCase
  }

  /** The last result of every logical leaf passed. */
  ghost predicate LastResultsPassed(steps: seq<Step>) {
    forall n | LastOfItsKey(steps, n) :: steps[n].status == Passed
  }

  /** No logical leaf's last result is counted in the bucket. */
  ghost predicate NoLastResult(steps: seq<Step>, w: Word) {
    forall n | LastOfItsKey(steps, n) :: Bucket(steps[n].status) != w
  }

  /** No logical leaf's last result was cancelled. */
  ghost predicate NoneCancelled(steps: seq<Step>) {
    forall n | LastOfItsKey(steps, n) :: steps[n].status != Cancelled
  }

  /** Every logical leaf's last result is final, and of a kind that is known. */
  ghost predicate AllFinal(steps: seq<Step>) {
    forall n | LastOfItsKey(steps, n) :: steps[n].status in {Passed, Failed, Skipped, Cancelled}
  }

  /** The last result of some logical leaf failed, or was skipped for a reason of its own. */
  ghost predicate SomeBlocked(steps: seq<Step>) {
    exists n :: LastOfItsKey(steps, n) && Blocked(steps[n])
  }

  predicate HasAttempt(steps: seq<Step>) {
    exists n :: 0 <= n < |steps| && Attempt(steps[n])
  }

  lemma AllLeavesPassed(steps: seq<Step>)
    ensures Number(LeavesOf(steps), Passed) == |LeavesOf(steps)| <==> LastResultsPassed(steps)
  {
    var leaves := LeavesOf(steps);
    NumberZero(leaves, Passed);
    LeavesAreLastResults(steps);
    hide Number, LeavesOf, DistinctKeys;
    if LastResultsPassed(steps) {
      forall i | 0 <= i < |leaves|
        ensures Bucket(leaves[i].1.status) == Passed
      {
        assert leaves[i] in leaves;
        var n :| LastOfItsKey(steps, n) && leaves[i] == (KeyOf(steps[n]), steps[n]);
      }
    }
    if Number(leaves, Passed) == |leaves| {
      forall n | LastOfItsKey(steps, n)
        ensures steps[n].status == Passed
      {
        LeafOfLast(steps, n);
      }
    }
  }

  /** The leaf that carries a given last result. */
  lemma LeafOfLast(steps: seq<Step>, n: int)
    requires LastOfItsKey(steps, n)
    ensures 0 <= n < |steps| && exists i :: 0 <= i < |LeavesOf(steps)| && LeavesOf(steps)[i].1 == steps[n]
  {
    LeavesAreLastResults(steps);
    assert IsLeaf(steps, (KeyOf(steps[n]), steps[n]));
    var i :| 0 <= i < |LeavesOf(steps)| && LeavesOf(steps)[i] == (KeyOf(steps[n]), steps[n]);
  }

  lemma NoneInBucket(steps: seq<Step>, w: Word)
    ensures Number(LeavesOf(steps), w) == 0 <==> NoLastResult(steps, w)
  {
    var leaves := LeavesOf(steps);
    NumberZero(leaves, w);
    LeavesAreLastResults(steps);
    hide Number, LeavesOf, DistinctKeys;
    if NoLastResult(steps, w) {
      forall i | 0 <= i < |leaves|
        ensures Bucket(leaves[i].1.status) != w
      {
        assert leaves[i] in leaves;
        var n :| LastOfItsKey(steps, n) && leaves[i] == (KeyOf(steps[n]), steps[n]);
      }
    }
    if Number(leaves, w) == 0 {
      forall n | LastOfItsKey(steps, n)
        ensures Bucket(steps[n].status) != w
      {
        LeafOfLast(steps, n);
      }
    }
  }

  lemma NothingIn(steps: seq<Step>)
    ensures Number(LeavesOf(steps), Cancelled) == 0 <==> NoneCancelled(steps)
    ensures Number(LeavesOf(steps), Incomplete) == 0 <==> AllFinal(steps)
  {
    hide Number, LeavesOf, LastOfItsKey;
    NoneInBucket(steps, Cancelled);
    NoneInBucket(steps, Incomplete);
  }

  lemma BlockedLeaf(steps: seq<Step>)
    ensures FirstBlocked(LeavesOf(steps)).Some? <==> SomeBlocked(steps)
    ensures FirstBlocked(LeavesOf(steps)).Some? ==>
              exists n :: LastOfItsKey(steps, n) && Blocked(steps[n]) && steps[n] == FirstBlocked(LeavesOf(steps)).value
  {
    var leaves := LeavesOf(steps);
    LeavesAreLastResults(steps);
    hide LeavesOf, DistinctKeys;
    if FirstBlocked(leaves).Some? {
      var i :| 0 <= i < |leaves| && leaves[i].1 == FirstBlocked(leaves).value && Blocked(leaves[i].1);
      assert leaves[i] in leaves;
      var n :| LastOfItsKey(steps, n) && leaves[i] == (KeyOf(steps[n]), steps[n]);
    }
    if n :| LastOfItsKey(steps, n) && Blocked(steps[n]) {
      LeafOfLast(steps, n);
    }
  }

  lemma {:induction false} SomeLeaf(steps: seq<Step>)
    ensures LeavesOf(steps) != [] <==> HasLeaf(steps)
  {
    if steps != [] {
      var last := |steps| - 1;
      SomeLeaf(steps[..last]);
      assert forall n | 0 <= n < last :: steps[..last][n] == steps[n];
      assert |Put(LeavesOf(steps[..last]), KeyOf(steps[last]), steps[last])| > 0;
    }
  }

  lemma {:induction false} SomeAttempt(steps: seq<Step>)
    ensures Attempts(steps) > 0 <==> HasAttempt(steps)
  {
    if steps != [] {
      var last := |steps| - 1;
      SomeAttempt(steps[..last]);
      assert forall n | 0 <= n < last :: steps[..last][n] == steps[n];
    }
  }

  /** The facts a conclusion rests on, in terms of the recorded steps. */
  lemma WhatFactsSay(mode: Mode, b: Bundle, v: Verification, status: Option<Word>, fatal: bool)
    ensures var f, r := FactsOf(mode, b, v, status, fatal), Frozen(mode, b, v, status, fatal);
            && f.mode == mode && f.status == status && f.verdict == VerdictOf(v) && f.fatal == fatal && f.gap == Gap(b)
            && (AllPassed(f.counts) <==> LastResultsPassed(b.steps))
            && (f.counts.total > 0 <==> HasLeaf(b.steps))
            && (f.counts.attempts > 0 <==> HasAttempt(b.steps))
            && (f.counts.cancelled == 0 <==> NoneCancelled(b.steps))
            && (f.counts.incomplete == 0 <==> AllFinal(b.steps))
            && (f.blocked <==> SomeBlocked(b.steps))
            && r.mode == mode && r.outcome == Conclusion(f) && r.counts == f.counts && r.verdict == f.verdict
            && (r.evidence.status == Partial <==> f.gap) && r.evidence.status != Unavailable
               && (r.evidence.errors ==> f.gap)
  {
    hide Number, LeavesOf, Attempts, LastOfItsKey, HasAttempt, HasLeaf, FirstBlocked, Conclusion, LastResultsPassed,
         NoneCancelled, AllFinal, SomeBlocked;
    AllLeavesPassed(b.steps);
    BlockedLeaf(b.steps);
    SomeLeaf(b.steps);
    SomeAttempt(b.steps);
    NothingIn(b.steps);
    assert HasErrors(b) ==> Gap(b);
  }

  /** Strict success, for callers that state no status: some step is a logical leaf, the last
      result of every logical leaf passed, the evidence has no gap, and neither the verdict nor a
      fatal error objects. */
  lemma StrictSuccess(b: Bundle, v: Verification, fatal: bool)
    ensures Frozen(Strict, b, v, None, fatal).outcome == Success
            <==> && HasLeaf(b.steps) && LastResultsPassed(b.steps) && !Gap(b) && !fatal
                 && VerdictOf(v) !in {Some(Failed), Some(Error), Some(Cancelled)}
  {
    hide FactsOf, Frozen, Gap, HasLeaf, LastResultsPassed, HasAttempt, NoneCancelled, AllFinal;
    WhatFactsSay(Strict, b, v, None, fatal);
  }

  /** Explore success, for callers that state no status: the verdict is success, no leaf was
      cancelled or left incomplete, the evidence has no gap and there was no fatal error. */
  lemma ExploreSuccess(b: Bundle, v: Verification, fatal: bool)
    ensures Frozen(Explore, b, v, None, fatal).outcome == Success
            <==> && VerdictOf(v) == Some(Success)
                 && NoneCancelled(b.steps) && AllFinal(b.steps)
                 && !Gap(b) && !fatal
  {
    hide FactsOf, Frozen, Gap, HasLeaf, LastResultsPassed, HasAttempt, NoneCancelled, AllFinal;
    WhatFactsSay(Explore, b, v, None, fatal);
  }

  /** Cancellation dominates everything else, in both modes and for every stated status. */
  lemma CancellationDominates(mode: Mode, b: Bundle, v: Verification, status: Option<Word>, fatal: bool)
    ensures Frozen(mode, b, v, status, fatal).outcome == Cancelled
            <==> status == Some(Cancelled) || VerdictOf(v) == Some(Cancelled) || !NoneCancelled(b.steps)
  {
    hide FactsOf, Frozen, Gap, HasLeaf, LastResultsPassed, HasAttempt, NoneCancelled, AllFinal;
    WhatFactsSay(mode, b, v, status, fatal);
  }

  /** Nothing says that the run was cancelled, nor that it broke. */
  ghost predicate Undisturbed(b: Bundle, v: Verification, fatal: bool) {
    NoneCancelled(b.steps) && VerdictOf(v) != Some(Cancelled) && !fatal && VerdictOf(v) != Some(Error)
  }

  /** The other conclusions of a strict run, for callers that state no status. A success without complete
      evidence is an error. A run is failed if some leaf is blocked or the verdict says so, provided that
      something was attempted and nothing is incomplete; and inconclusive in all remaining cases. */
  lemma StrictOutcomes(b: Bundle, v: Verification, fatal: bool)
    ensures var outcome, verdict := Frozen(Strict, b, v, None, fatal).outcome, VerdictOf(v);
            && (outcome == Error
                <==> && NoneCancelled(b.steps) && verdict != Some(Cancelled)
                     && (|| fatal || verdict == Some(Error)
                         || (Gap(b) && HasLeaf(b.steps) && LastResultsPassed(b.steps) && verdict != Some(Failed))))
            && (outcome == Failed
                <==> && Undisturbed(b, v, fatal) && AllFinal(b.steps) && HasAttempt(b.steps)
                     && (SomeBlocked(b.steps) || verdict == Some(Failed)))
            && (outcome == Inconclusive
                <==> && Undisturbed(b, v, fatal)
                     && (|| !AllFinal(b.steps) || !HasAttempt(b.steps)
                         || (!SomeBlocked(b.steps) && verdict != Some(Failed) && !LastResultsPassed(b.steps))))
  {
    hide FactsOf, Frozen, Gap, HasLeaf, LastResultsPassed, HasAttempt, NoneCancelled, AllFinal, SomeBlocked;
    WhatFactsSay(Strict, b, v, None, fatal);
  }

  /** The other conclusions of an explore run, for callers that state no status: they follow the verdict. */
  lemma ExploreOutcomes(b: Bundle, v: Verification, fatal: bool)
    ensures var outcome, verdict := Frozen(Explore, b, v, None, fatal).outcome, VerdictOf(v);
            && (outcome == Error
                <==> && NoneCancelled(b.steps) && verdict != Some(Cancelled)
                     && (|| fatal || verdict == Some(Error)
                         || (Gap(b) && verdict == Some(Success) && AllFinal(b.steps))))
            && (outcome == Failed
                <==> Undisturbed(b, v, fatal) && AllFinal(b.steps) && verdict == Some(Failed))
            && (outcome == Inconclusive
                <==> && Undisturbed(b, v, fatal)
                     && (|| !AllFinal(b.steps)
                         || (verdict != Some(Success) && verdict != Some(Failed))))
  {
    hide FactsOf, Frozen, Gap, HasLeaf, LastResultsPassed, HasAttempt, NoneCancelled, AllFinal, SomeBlocked;
    WhatFactsSay(Explore, b, v, None, fatal);
  }

  /** A stated status other than success is the conclusion, unless the run was cancelled or broke; one that
      is no conclusion counts as inconclusive. */
  lemma StatedOutcomes(mode: Mode, b: Bundle, v: Verification, status: Word, fatal: bool)
    requires status != Success && status != Other("")
    ensures Frozen(mode, b, v, Some(status), fatal).outcome
            == if status == Cancelled || VerdictOf(v) == Some(Cancelled)
                || !NoneCancelled(b.steps) then Cancelled
               else if status == Error || fatal || VerdictOf(v) == Some(Error) then Error
               else if status == Failed then Failed
               else Inconclusive
  {
    hide FactsOf, Frozen, Gap, HasLeaf, LastResultsPassed, HasAttempt, NoneCancelled, AllFinal, SomeBlocked;
    WhatFactsSay(mode, b, v, Some(status), fatal);
  }

  /** A stated success is believed where the steps and the verdict bear it out. */
  ghost predicate BorneOut(mode: Mode, b: Bundle, v: Verification) {
    var verdict := VerdictOf(v);
    match mode
    case Strict =>
      && LastResultsPassed(b.steps) && verdict != Some(Failed)
      && (HasLeaf(b.steps) || verdict == Some(Success) || verdict == Some(Passed))
    case Explore =>
      && AllFinal(b.steps)
      && (HasAttempt(b.steps) || verdict == Some(Success) || verdict == Some(Passed))
  }

  lemma StatedSuccess(mode: Mode, b: Bundle, v: Verification, fatal: bool)
    ensures Frozen(mode, b, v, Some(Success), fatal).outcome
            == if VerdictOf(v) == Some(Cancelled) || !NoneCancelled(b.steps) then Cancelled
               else if fatal || VerdictOf(v) == Some(Error) then Error
               else if BorneOut(mode, b, v) then if Gap(b) then Error else Success
               else if mode == Strict && (SomeBlocked(b.steps) || VerdictOf(v) == Some(Failed)) then Failed
               else Inconclusive
  {
    hide FactsOf, Frozen, Gap, HasLeaf, LastResultsPassed, HasAttempt, NoneCancelled, AllFinal, SomeBlocked;
    WhatFactsSay(mode, b, v, Some(Success), fatal);
  }

  /** The failed step of the document is a blocked one, and is named unless an explore run succeeded; the
      evidence is partial where it has a gap, complete where it has none, and does not apply without steps. */
  lemma FailedStepAndEvidence(mode: Mode, b: Bundle, v: Verification, status: Option<Word>, fatal: bool)
    ensures var r := Frozen(mode, b, v, status, fatal);
            && (r.failedStep.Some? <==> SomeBlocked(b.steps) && !(mode == Explore && r.outcome == Success))
            && (r.failedStep.Some? ==>
                  exists n :: LastOfItsKey(b.steps, n) && Blocked(b.steps[n]) && r.failedStep == Some(b.steps[n].id))
            && (r.evidence.status == Partial <==> Gap(b))
            && (r.evidence.status == Complete <==> !Gap(b) && b.steps != [])
            && (r.evidence.errors <==> HasErrors(b))
  {
    hide Number, LeavesOf, Attempts, LastOfItsKey, FirstBlocked, Conclusion, Gap, HasErrors, Blocked;
    BlockedLeaf(b.steps);
  }

  // ---- the validator of the frozen document ----

  predicate Recognised(verdict: Option<Word>) {
    verdict in {Some(Success), Some(Passed), Some(Failed), Some(Inconclusive), Some(Cancelled), Some(Error),
                Some(NotRequested), Some(NotApplicable)}
  }

  predicate Adverse(verdict: Option<Word>) {
    verdict == Some(Failed) || verdict == Some(Error) || verdict == Some(Cancelled) || verdict == Some(Inconclusive)
  }

  /** RunExecutionResult.validate_conclusions, with validate_counts and _validate_evidence. */
  predicate Validates(r: ExecutionResult) {
    && EveryLeafCounted(r.counts)
    && Recognised(r.verdict)
    && (r.evidence.status == Complete || r.evidence.status == NotApplicableEvidence ==> !r.evidence.errors)
    && (r.outcome == Success ==>
          && !Adverse(r.verdict)
          && r.counts.cancelled == 0 && r.counts.incomplete == 0
          && r.evidence.status != Partial && r.evidence.status != Unavailable
          && (r.mode == Strict ==> r.counts.failed == 0 && r.counts.skipped == 0)
          && (r.counts.attempts == 0 ==> r.verdict == Some(Success) || r.verdict == Some(Passed)))
  }

  /** What a caller can see in its arguments before it freezes: the verdict is inconclusive (or, in
      explore mode, failed) although everything else says success. */
  ghost predicate Clash(mode: Mode, b: Bundle, v: Verification, status: Option<Word>, fatal: bool) {
    && !fatal && !Gap(b)
    && match mode
       case Strict =>
         && VerdictOf(v) == Some(Inconclusive) && (Stated(status).None? || Stated(status) == Some(Success))
         && HasLeaf(b.steps) && LastResultsPassed(b.steps)
       case Explore =>
         && (VerdictOf(v) == Some(Inconclusive) || VerdictOf(v) == Some(Failed)) && Stated(status) == Some(Success)
         && HasAttempt(b.steps) && NoneCancelled(b.steps) && AllFinal(b.steps)
  }

  /** A frozen document is valid exactly when its verdict is one of the recognised ones and does not
      clash with the rest. */
  lemma ValidIff(mode: Mode, b: Bundle, v: Verification, status: Option<Word>, fatal: bool)
    ensures Validates(Frozen(mode, b, v, status, fatal))
            <==> Recognised(VerdictOf(v)) && !Clash(mode, b, v, status, fatal)
  {
    hide FactsOf, Frozen, Gap, HasLeaf, LastResultsPassed, HasAttempt, NoneCancelled, AllFinal, Recognised, Adverse,
         Validates, Conclusion, AllPassed, WellCounted;
    WhatFactsSay(mode, b, v, status, fatal);
    var f, r := FactsOf(mode, b, v, status, fatal), Frozen(mode, b, v, status, fatal);
    SuccessValidates(f, r);
    ClashFacts(f);
  }

  /** Only a success can be invalid, and only because of its verdict. */
  lemma SuccessValidates(f: Facts, r: ExecutionResult)
    requires WellCounted(f) && r.mode == f.mode && r.outcome == Conclusion(f) && r.counts == f.counts
    requires r.verdict == f.verdict
    requires (r.evidence.status == Partial <==> f.gap) && r.evidence.status != Unavailable
    requires (r.evidence.errors ==> f.gap)
    ensures Validates(r) <==> Recognised(f.verdict) && !(Conclusion(f) == Success && Adverse(f.verdict))
  {}

  lemma ClashFacts(f: Facts)
    requires WellCounted(f)
    ensures Conclusion(f) == Success && Adverse(f.verdict)
            <==> && !f.fatal && !f.gap
                 && (f.mode == Strict ==>
                       && f.verdict == Some(Inconclusive)
                          && (Stated(f.status).None? || Stated(f.status) == Some(Success))
                       && f.counts.total > 0 && AllPassed(f.counts))
                 && (f.mode == Explore ==>
                       && (f.verdict == Some(Inconclusive) || f.verdict == Some(Failed))
                          && Stated(f.status) == Some(Success)
                       && f.counts.attempts > 0 && f.counts.cancelled == 0 && f.counts.incomplete == 0)
  {}

  /** Explore runs never clash for callers that state no status, or "cancelled", or "error"; strict
      runs do not clash unless a verdict is supplied. */
  lemma CallersAreValid(mode: Mode, b: Bundle, v: Verification, status: Option<Word>, fatal: bool)
    requires Recognised(VerdictOf(v)) && (status == None || status == Some(Cancelled) || status == Some(Error))
    requires mode == Explore || v == NoVerification
    ensures Validates(Frozen(mode, b, v, status, fatal))
  {
    hide Gap, Frozen, Validates, LastResultsPassed, HasLeaf, NoneCancelled, AllFinal, HasAttempt;
    ValidIff(mode, b, v, status, fatal);
  }

  /** A strict run whose steps all passed cannot be frozen with an inconclusive verdict: the decision
      says success, and the validator rejects it. */
  lemma InconclusiveClashes()
    ensures exists b, v ::
              Frozen(Strict, b, v, None, false).outcome == Success && !Validates(Frozen(Strict, b, v, None, false))
  {
    var step := Step("open", None, [], [], false, Passed, true, None, 0, None, []);
    var b, v := Bundle([step], [], Complete), Verified(Some(Inconclusive));
    assert b.steps[0] == step;
    assert !MissesCapture(step);
    assert !Gap(b);
    hide Gap, Frozen, Validates;
    StrictSuccess(b, v, false);
    ValidIff(Strict, b, v, None, false);
    assert Frozen(Strict, b, v, None, false).outcome == Success && !Validates(Frozen(Strict, b, v, None, false));
  }
}
