/** What the strict lifecycle executor records, and how accounting facts about parts of an
    execution combine into facts about the whole. */
module LifecycleFacts {
  import opened Wrappers
  import opened LifecyclePlan

  datatype Status = Passed | Failed | Skipped | Cancelled | Incomplete

  /** The identity a result is compared by: its execution id when it was executed, else its step
      id. Generated stands for the "-invocation-N-attempt-M" form, which is never a step id. */
  datatype Identity = Plain(id: StepId) | Generated(n: nat)

  datatype Result = Result(path: Path, status: Status, identity: Identity, executed: bool)

  /** How a call ends: a Python return value, or an exception that propagates. */
  datatype Outcome = Returned(ok: bool) | Raised

  predicate RecordedIn(results: seq<Result>, q: Path) {
    exists i :: 0 <= i < |results| && results[i].path == q
  }

  /** A part of the tree of invocation paths. */
  datatype Region =
    | Under(at: Path)
    | StartOf(invocation: Path)
    | MainOf(invocation: Path)
    | CompletionOf(invocation: Path)
    | Branches(at: Path, branches: seq<Branch>)

  /** The path lies below a hook group of the case at `invocation`, in the given phase. */
  predicate InPhase(invocation: Path, phase: Phase, q: Path) {
    invocation <= q && |q| > |invocation| + 1 && q[|invocation|].Org? && q[|invocation| + 1] == Ph(phase)
  }

  predicate In(g: Region, q: Path) {
    match g
    case Under(at) => at <= q
    case StartOf(invocation) => InPhase(invocation, OnCaseStart, q)
    case MainOf(invocation) => invocation <= q && !InPhase(invocation, OnCaseComplete, q)
    case CompletionOf(invocation) => InPhase(invocation, OnCaseComplete, q)
    case Branches(at, branches) => exists k :: 0 <= k < |branches| && BranchPath(at, branches[k]) <= q
  }

  /** Every planned step of the region has a result. */
  predicate Done(planned: seq<Step>, results: seq<Result>, g: Region) {
    forall i | 0 <= i < |planned| && In(g, planned[i].path) :: RecordedIn(results, planned[i].path)
  }

  predicate Clean(results: seq<Result>, starts: seq<Path>, g: Region) {
    && (forall i | 0 <= i < |results| :: !In(g, results[i].path))
    && (forall i | 0 <= i < |starts| :: !In(g, starts[i]))
  }

  predicate AllPassed(results: seq<Result>, g: Region) {
    forall i | 0 <= i < |results| && In(g, results[i].path) :: results[i].status.Passed?
  }

  /** The id of a command step has been recorded, and never for an execution. */
  predicate Waiting(results: seq<Result>, id: StepId) {
    && id.LeafId?
    && (exists i :: 0 <= i < |results| && results[i].identity == Plain(id))
    && forall i | 0 <= i < |results| && results[i].identity == Plain(id) :: !results[i].executed
  }

  predicate NoneWaiting(planned: seq<Step>, results: seq<Result>, g: Region) {
    forall i | 0 <= i < |planned| && In(g, planned[i].path) :: !Waiting(results, planned[i].id)
  }

  /** Facts are only appended, and only facts of the region; nothing is started that has a result. */
  predicate Adds(r0: seq<Result>, s0: seq<Path>, r1: seq<Result>, s1: seq<Path>, g: Region) {
    && |r0| <= |r1| && r1[..|r0|] == r0
    && |s0| <= |s1| && s1[..|s0|] == s0
    && (forall i | |r0| <= i < |r1| :: In(g, r1[i].path))
    && (forall i | |s0| <= i < |s1| :: In(g, s1[i]) && !RecordedIn(r0, s1[i]))
  }

  predicate Issued(identity: Identity, issuedIds: set<StepId>, generated: nat) {
    match identity
    case Plain(id) => id in issuedIds
    case Generated(n) => n < generated
  }

  /** The recorder's own consistency: one result per path, results and starts only for planned
      steps, executed steps under identities that were handed out, and no body step that passed
      without being executed. */
  predicate Consistent(planned: seq<Step>, results: seq<Result>, starts: seq<Path>, issuedIds: set<StepId>,
                       generated: nat) {
    && Distinct(planned)
    && (forall i, j | 0 <= i < j < |results| :: results[i].path != results[j].path)
    && (forall i | 0 <= i < |results| :: HasPath(planned, results[i].path))
    && (forall i | 0 <= i < |starts| :: HasPath(planned, starts[i]))
    && (forall i | 0 <= i < |results| && results[i].executed :: Issued(results[i].identity, issuedIds, generated))
    && (forall i | 0 <= i < |results| && !results[i].executed :: results[i].identity.Plain?)
    && PassedMeansExecuted(results)
  }

  predicate PassedMeansExecuted(results: seq<Result>) {
    forall i | 0 <= i < |results| && results[i].status.Passed? && results[i].identity.Plain?
        && results[i].identity.id.LeafId? ::
      results[i].executed
  }

  predicate IdentityIn(results: seq<Result>, identity: Identity) {
    exists i :: 0 <= i < |results| && results[i].identity == identity
  }

  /** The result of a body step that does not count: its identity was recorded before. */
  predicate Hidden(results: seq<Result>, i: nat)
    requires i < |results|
  {
    && results[i].identity.Plain? && results[i].identity.id.LeafId?
    && IdentityIn(results[..i], results[i].identity)
  }

  /** Every result added since r0 passed or does not count. */
  predicate Counts(r0: seq<Result>, r1: seq<Result>) {
    forall i | |r0| <= i < |r1| :: r1[i].status.Passed? || Hidden(r1, i)
  }

  lemma CountsTwice(r0: seq<Result>, r1: seq<Result>, r2: seq<Result>)
    requires |r0| <= |r1| <= |r2| && r2[..|r1|] == r1
    ensures Counts(r0, r2) <==> Counts(r0, r1) && Counts(r1, r2)
  {
    hide IdentityIn;
    forall i | 0 <= i < |r1|
      ensures r2[i] == r1[i] && Hidden(r2, i) == Hidden(r1, i)
    {
      assert r2[..i] == r1[..i];
    }
  }

  lemma CountsOne(r0: seq<Result>, r: Result)
    requires !(r.identity.Plain? && r.identity.id.LeafId?)
    ensures Counts(r0, r0 + [r]) <==> r.status.Passed?
  {
    assert (r0 + [r])[|r0|] == r;
  }

  // ---- which status a result has ----

  /** The path of a command step of some body. */
  predicate OfBody(q: Path) {
    |q| >= 2 && q[|q| - 2].Body?
  }

  /** The status of a result, by what was started and whether the part that recorded it returned. A step
      that was never started is skipped, or incomplete if the part was interrupted. A hook or a container
      that was started passed or failed; an interruption leaves a started hook cancelled. A command step
      has the status that its execution gave it, and incomplete if it was interrupted without one. */
  predicate Fits(r: Result, starts: seq<Path>, returned: bool) {
    if r.path !in starts then !r.executed && (r.status.Skipped? || (r.status.Incomplete? && !returned))
    else if OfBody(r.path) then r.executed || (r.status.Incomplete? && !returned)
    else r.status.Passed? || r.status.Failed? || (r.status.Cancelled? && r.executed && !returned)
  }

  /** The result of a hook action of the case at `invocation`, shell or container, that failed. */
  predicate FailedAction(c: Result, invocation: Path, phase: Phase) {
    IsDirect(c.path, invocation, phase) && c.status.Failed?
  }

  /** Why a step is skipped: a start action of a case failed, and the step belongs to the same case but not
      to its completion; or a command step of a body was executed and did not pass, and the step belongs to
      the same body. */
  predicate Blocks(c: Result, q: Path) {
    || (|c.path| >= 4 && var invocation := c.path[..|c.path| - 4];
                         FailedAction(c, invocation, OnCaseStart) && In(MainOf(invocation), q))
    || (OfBody(c.path) && c.executed && !c.status.Passed? && c.path[..|c.path| - 1] <= q)
  }

  predicate Blocked(results: seq<Result>, i: nat)
    requires i < |results|
  {
    exists j :: 0 <= j < i && Blocks(results[j], results[i].path)
  }

  /** Every result added has a status that fits, and those of skipped steps have a reason before them. */
  predicate Told(r0: seq<Result>, r1: seq<Result>, starts: seq<Path>, returned: bool) {
    forall i | |r0| <= i < |r1| ::
      && Fits(r1[i], starts, returned)
      && (!r1[i].executed && r1[i].status.Skipped? ==> Blocked(r1, i))
  }

  lemma ToldTwice(r0: seq<Result>, s0: seq<Path>, r1: seq<Result>, s1: seq<Path>, r2: seq<Result>, s2: seq<Path>,
                  g1: Region, g2: Region, a: bool, b: bool, c: bool)
    requires Adds(r0, s0, r1, s1, g1) && Adds(r1, s1, r2, s2, g2) && Told(r0, r1, s1, a) && Told(r1, r2, s2, b)
    requires c ==> a && b
    ensures Told(r0, r2, s2, c)
  {
    hide Blocks, In, OfBody;
    forall i | |r0| <= i < |r2|
      ensures Fits(r2[i], s2, c) && (!r2[i].executed && r2[i].status.Skipped? ==> Blocked(r2, i))
    {
      if i < |r1| {
        assert r2[i] == r1[i];
        StillUnstarted(r1, s1, r2, s2, g2, i);
        if Blocked(r1, i) {
          var j :| 0 <= j < i && Blocks(r1[j], r1[i].path);
          assert r2[j] == r1[j];
        }
      }
    }
  }

  lemma StillUnstarted(r1: seq<Result>, s1: seq<Path>, r2: seq<Result>, s2: seq<Path>, g: Region, i: nat)
    requires Adds(r1, s1, r2, s2, g) && i < |r1|
    ensures r1[i].path in s1 <==> r1[i].path in s2
  {
    assert RecordedIn(r1, r1[i].path);
    if r1[i].path in s1 {
      var k :| 0 <= k < |s1| && s1[k] == r1[i].path;
      assert s2[k] == s1[k];
    }
    if r1[i].path in s2 {
      var k :| 0 <= k < |s2| && s2[k] == r1[i].path;
      assert k < |s1|;
      assert s1[k] == s2[k];
    }
  }

  lemma ToldLess(r0: seq<Result>, r1: seq<Result>, starts: seq<Path>, a: bool, b: bool)
    requires Told(r0, r1, starts, a) && (b ==> a)
    ensures Told(r0, r1, starts, b)
  {
    hide Blocked;
  }

  /** What skipping leaves behind: skipped when a start action had failed, incomplete after an interruption. */
  lemma SkippedTold(r0: seq<Result>, r1: seq<Result>, starts: seq<Path>, invocation: Path, prefix: Path)
    requires LeftAlone(r0, r1, starts, Skipped) && Adds(r0, starts, r1, starts, Under(prefix))
    requires StartFailed(r0, invocation) && forall q | prefix <= q :: In(MainOf(invocation), q)
    ensures Told(r0, r1, starts, true)
  {
    var j :| 0 <= j < |r0| && FailedAction(r0[j], invocation, OnCaseStart);
    assert r0[j].path[..|r0[j].path| - 4] == invocation;
    forall i | |r0| <= i < |r1|
      ensures Fits(r1[i], starts, true) && Blocked(r1, i)
    {
      assert r1[j] == r0[j];
      assert Blocks(r1[j], r1[i].path);
    }
  }

  lemma IncompleteTold(r0: seq<Result>, r1: seq<Result>, starts: seq<Path>)
    requires LeftAlone(r0, r1, starts, Incomplete)
    ensures Told(r0, r1, starts, false)
  {}

  /** A hook action of the case has failed. */
  predicate ActionFailed(results: seq<Result>, invocation: Path, phase: Phase) {
    exists j :: 0 <= j < |results| && FailedAction(results[j], invocation, phase)
  }

  predicate StartFailed(results: seq<Result>, invocation: Path) {
    ActionFailed(results, invocation, OnCaseStart)
  }

  lemma ActionFailedStays(r0: seq<Result>, r1: seq<Result>, invocation: Path, phase: Phase)
    requires |r0| <= |r1| && r1[..|r0|] == r0 && ActionFailed(r0, invocation, phase)
    ensures ActionFailed(r1, invocation, phase)
  {
    var j :| 0 <= j < |r0| && FailedAction(r0[j], invocation, phase);
    assert r1[j] == r0[j];
  }

  /** How a hook action that returned is recorded: last, passed if its verdict is true and failed if not. */
  predicate Concluded(results: seq<Result>, q: Path, ok: bool) {
    results != [] && results[|results| - 1].path == q && results[|results| - 1].status == if ok then Passed else Failed
  }

  /** What a piece of the execution promises about its region. Its verdict is exact: it is true if
      and only if every result added passed or does not count. Every status fits. Unless an earlier step was left
      unexecuted they all count. */
  predicate Piece(planned: seq<Step>, r0: seq<Result>, s0: seq<Path>, r1: seq<Result>, s1: seq<Path>, g: Region,
                  o: Outcome) {
    && Adds(r0, s0, r1, s1, g)
    && (o.Returned? ==> Done(planned, r1, g))
    && (o.Returned? ==> (o.ok <==> Counts(r0, r1)))
    && (o == Returned(true) && NoneWaiting(planned, r0, g) ==> AllPassed(r1, g))
    && Told(r0, r1, s1, o.Returned?)
  }

  /** What was added are steps that were never started, all with the same status. */
  predicate LeftAlone(r0: seq<Result>, r1: seq<Result>, starts: seq<Path>, status: Status) {
    forall i | |r0| <= i < |r1| :: !r1[i].executed && r1[i].status == status && r1[i].path !in starts
  }

  lemma RecordedStays(r0: seq<Result>, r1: seq<Result>, q: Path)
    requires |r0| <= |r1| && r1[..|r0|] == r0 && RecordedIn(r0, q)
    ensures RecordedIn(r1, q)
  {
    var i :| 0 <= i < |r0| && r0[i].path == q;
    assert r1[i] == r0[i];
  }

  lemma DoneStays(planned: seq<Step>, r0: seq<Result>, r1: seq<Result>, g: Region)
    requires |r0| <= |r1| && r1[..|r0|] == r0 && Done(planned, r0, g)
    ensures Done(planned, r1, g)
  {
    forall i | 0 <= i < |planned| && In(g, planned[i].path)
      ensures RecordedIn(r1, planned[i].path)
    {
      RecordedStays(r0, r1, planned[i].path);
    }
  }

  lemma AddsTwice(r0: seq<Result>, s0: seq<Path>, r1: seq<Result>, s1: seq<Path>, r2: seq<Result>, s2: seq<Path>,
                  g1: Region, g2: Region, g: Region)
    requires Adds(r0, s0, r1, s1, g1) && Adds(r1, s1, r2, s2, g2)
    requires forall q :: In(g1, q) ==> In(g, q)
    requires forall q :: In(g2, q) ==> In(g, q)
    ensures Adds(r0, s0, r2, s2, g)
  {
    assert r2[..|r0|] == r1[..|r0|] && s2[..|s0|] == s1[..|s0|];
    forall i | |r0| <= i < |r2|
      ensures In(g, r2[i].path)
    {
      assert i < |r1| ==> r2[i] == r1[i];
    }
    forall i | |s0| <= i < |s2|
      ensures In(g, s2[i]) && !RecordedIn(r0, s2[i])
    {
      assert i < |s1| ==> s2[i] == s1[i];
      if i >= |s1| && RecordedIn(r0, s2[i]) {
        RecordedStays(r0, r1, s2[i]);
      }
    }
  }

  /** A clean region stays clean while another region runs. */
  lemma CleanStays(r0: seq<Result>, s0: seq<Path>, r1: seq<Result>, s1: seq<Path>, g1: Region, g: Region)
    requires Adds(r0, s0, r1, s1, g1) && Clean(r0, s0, g)
    requires forall q :: In(g1, q) ==> !In(g, q)
    ensures Clean(r1, s1, g)
  {
    forall i | 0 <= i < |r1|
      ensures !In(g, r1[i].path)
    {
      assert i < |r0| ==> r1[i] == r0[i];
    }
    forall i | 0 <= i < |s1|
      ensures !In(g, s1[i])
    {
      assert i < |s0| ==> s1[i] == s0[i];
    }
  }

  /** After a piece whose steps all passed, no more ids wait than before. */
  lemma StillWaiting(r0: seq<Result>, s0: seq<Path>, r1: seq<Result>, s1: seq<Path>, g: Region, id: StepId)
    requires Adds(r0, s0, r1, s1, g) && AllPassed(r1, g) && PassedMeansExecuted(r1) && Waiting(r1, id)
    ensures Waiting(r0, id)
  {
    assert forall i | 0 <= i < |r0| :: r1[i] == r0[i];
    assert forall i | |r0| <= i < |r1| :: r1[i].status.Passed?;
    var i :| 0 <= i < |r1| && r1[i].identity == Plain(id);
    assert i < |r0|;
  }

  lemma StillNoneWaiting(planned: seq<Step>, r0: seq<Result>, s0: seq<Path>, r1: seq<Result>, s1: seq<Path>, g1: Region,
                         g2: Region, g: Region)
    requires Adds(r0, s0, r1, s1, g1) && AllPassed(r1, g1) && PassedMeansExecuted(r1) && NoneWaiting(planned, r0, g)
    requires forall q :: In(g2, q) ==> In(g, q)
    ensures NoneWaiting(planned, r1, g2)
  {
    hide AllPassed, PassedMeansExecuted, Adds, Waiting, In;
    forall i | 0 <= i < |planned| && In(g2, planned[i].path)
      ensures !Waiting(r1, planned[i].id)
    {
      if Waiting(r1, planned[i].id) {
        StillWaiting(r0, s0, r1, s1, g1, planned[i].id);
      }
    }
  }

  /** Two pieces in sequence that together cover a region. */
  lemma Compose(planned: seq<Step>, r0: seq<Result>, s0: seq<Path>, r1: seq<Result>, s1: seq<Path>, r2: seq<Result>,
                s2: seq<Path>, g1: Region, g2: Region, g: Region, o1: Outcome, o2: Outcome)
    requires Clean(r0, s0, g) && PassedMeansExecuted(r1)
    requires Piece(planned, r0, s0, r1, s1, g1, o1) && o1.Returned?
    requires Piece(planned, r1, s1, r2, s2, g2, o2) && o2.Returned?
    requires forall q :: In(g1, q) ==> In(g, q)
    requires forall q :: In(g2, q) ==> In(g, q)
    requires forall i | 0 <= i < |planned| && In(g, planned[i].path) ::
               In(g1, planned[i].path) || In(g2, planned[i].path)
    ensures Piece(planned, r0, s0, r2, s2, g, Returned(o1.ok && o2.ok))
  {
    hide Counts, Waiting, Told;
    AddsTwice(r0, s0, r1, s1, r2, s2, g1, g2, g);
    ToldTwice(r0, s0, r1, s1, r2, s2, g1, g2, true, true, true);
    DoneStays(planned, r1, r2, g1);
    CountsTwice(r0, r1, r2);
    if o1.ok && o2.ok && NoneWaiting(planned, r0, g) {
      StillNoneWaiting(planned, r0, s0, r1, s1, g1, g2, g);
      assert forall i | 0 <= i < |r0| :: r1[i] == r0[i];
      assert forall i | 0 <= i < |r1| :: r2[i] == r1[i];
    }
  }

  /** A piece that failed, followed by skipping whatever is left of a larger region. */
  lemma FailThenSkip(planned: seq<Step>, r0: seq<Result>, s0: seq<Path>, r1: seq<Result>, s1: seq<Path>,
                     r2: seq<Result>, s2: seq<Path>, g1: Region, g2: Region, g: Region)
    requires Piece(planned, r0, s0, r1, s1, g1, Returned(false))
    requires Adds(r1, s1, r2, s2, g2) && Told(r1, r2, s2, true) && Done(planned, r2, g)
    requires forall q :: In(g1, q) ==> In(g, q)
    requires forall q :: In(g2, q) ==> In(g, q)
    ensures Piece(planned, r0, s0, r2, s2, g, Returned(false))
  {
    hide Counts, Told;
    AddsTwice(r0, s0, r1, s1, r2, s2, g1, g2, g);
    ToldTwice(r0, s0, r1, s1, r2, s2, g1, g2, true, true, true);
    CountsTwice(r0, r1, r2);
  }

  lemma Widen(planned: seq<Step>, r0: seq<Result>, s0: seq<Path>, r1: seq<Result>, s1: seq<Path>, g1: Region, g: Region,
              o: Outcome)
    requires Clean(r0, s0, g) && Piece(planned, r0, s0, r1, s1, g1, o)
    requires forall q :: In(g1, q) ==> In(g, q)
    requires forall i | 0 <= i < |planned| && In(g, planned[i].path) :: In(g1, planned[i].path)
    ensures Piece(planned, r0, s0, r1, s1, g, o)
  {
    hide Counts;
    assert forall i | 0 <= i < |r0| :: r1[i] == r0[i];
  }

  lemma DoneUnion(planned: seq<Step>, results: seq<Result>, g1: Region, g2: Region, g: Region)
    requires Done(planned, results, g1) && Done(planned, results, g2)
    requires forall i | 0 <= i < |planned| && In(g, planned[i].path) ::
               In(g1, planned[i].path) || In(g2, planned[i].path)
    ensures Done(planned, results, g)
  {}

  /** Once a region is done, skipping a larger one leaves nothing of the larger one open, provided
      only steps of the smaller one were started. */
  lemma SkippedIsDone(planned: seq<Step>, r0: seq<Result>, s0: seq<Path>, r1: seq<Result>, s1: seq<Path>,
                      r2: seq<Result>, g1: Region, g: Region)
    requires Adds(r0, s0, r1, s1, g1) && Clean(r0, s0, g) && Done(planned, r1, g1)
    requires |r1| <= |r2| && r2[..|r1|] == r1
    requires forall i | 0 <= i < |planned| && In(g, planned[i].path) ::
               RecordedIn(r2, planned[i].path) || planned[i].path in s1
    ensures Done(planned, r2, g)
  {
    assert forall k | 0 <= k < |s0| :: s0[k] == s1[k];
    forall i | 0 <= i < |planned| && In(g, planned[i].path)
      ensures RecordedIn(r2, planned[i].path)
    {
      if !RecordedIn(r2, planned[i].path) {
        var k :| 0 <= k < |s1| && s1[k] == planned[i].path;
        RecordedStays(r1, r2, planned[i].path);
      }
    }
  }

  /** A container around a child case. */
  lemma ContainerPiece(planned: seq<Step>, r0: seq<Result>, s0: seq<Path>, r1: seq<Result>, s1: seq<Path>, q: Path,
                       container: Result, o: Outcome)
    requires Clean(r0, s0, Under(q)) && o.Returned?
    requires Piece(planned, r0, s0 + [q], r1, s1, Under(q + [Child]), o)
    requires container.path == q && container.status == (if o.ok then Passed else Failed) && !OfBody(q)
    requires container.identity.Plain? && container.identity.id.ContainerId?
    requires forall i | 0 <= i < |planned| && q <= planned[i].path ::
               planned[i].path == q || q + [Child] <= planned[i].path
    ensures Piece(planned, r0, s0, r1 + [container], s1, Under(q), o)
  {
    hide Told, Fits, OfBody;
    var r2 := r1 + [container];
    assert forall i | 0 <= i < |r1| :: r2[i] == r1[i];
    assert r2[|r1|] == container;
    assert forall i | 0 <= i < |r0| :: r1[i] == r0[i];
    assert (s0 + [q])[..|s0|] == s0 && s1[..|s0|] == s1[..|s0 + [q]|][..|s0|];
    assert s1[|s0|] == q;
    DoneStays(planned, r1, r2, Under(q + [Child]));
    CountsTwice(r0, r1, r2);
    CountsOne(r1, container);
    ToldOne(r1, container, s1, true);
    ToldTwice(r0, s0 + [q], r1, s1, r2, s1, Under(q + [Child]), Under(q), true, true, true);
  }

  /** A hook or a container that was started and has its verdict, or was interrupted. */
  lemma ToldOne(r: seq<Result>, one: Result, starts: seq<Path>, returned: bool)
    requires one.path in starts && !OfBody(one.path)
    requires one.status.Passed? || one.status.Failed? || (one.status.Cancelled? && one.executed && !returned)
    ensures Told(r, r + [one], starts, returned)
  {
    hide Blocked, OfBody;
    assert (r + [one])[|r|] == one;
  }

  /** One executed step that is all there is to its region. */
  lemma SingleStep(planned: seq<Step>, r0: seq<Result>, s0: seq<Path>, r: Result, o: Outcome)
    requires Clean(r0, s0, Under(r.path)) && o.Returned? && r.status == (if o.ok then Passed else Failed)
    requires !OfBody(r.path)
    requires !(r.identity.Plain? && r.identity.id.LeafId?)
    requires forall i | 0 <= i < |planned| && r.path <= planned[i].path :: planned[i].path == r.path
    ensures Piece(planned, r0, s0, r0 + [r], s0 + [r.path], Under(r.path), o)
  {
    hide Told, Fits, OfBody;
    var r1 := r0 + [r];
    assert r1[|r0|] == r && r.path <= r.path;
    assert (s0 + [r.path])[|s0|] == r.path;
    ToldOne(r0, r, s0 + [r.path], true);
    CountsOne(r0, r);
    assert forall i | 0 <= i < |r0| :: r1[i] == r0[i];
  }

  lemma EmptyPiece(planned: seq<Step>, r: seq<Result>, s: seq<Path>, g: Region)
    requires Clean(r, s, g)
    requires forall i | 0 <= i < |planned| :: !In(g, planned[i].path)
    ensures Piece(planned, r, s, r, s, g, Returned(true))
  {}

  // ---- the order in which a case's own hook actions start ----

  predicate IsDirect(q: Path, invocation: Path, phase: Phase) {
    |q| == |invocation| + 4 && InPhase(invocation, phase, q)
  }

  /** Among all step starts, those of the hook actions of one case in one phase. */
  function DirectStarts(starts: seq<Path>, invocation: Path, phase: Phase): seq<Path> {
    if starts == [] then []
    else DirectStarts(starts[..|starts| - 1], invocation, phase)
         + if IsDirect(starts[|starts| - 1], invocation, phase) then [starts[|starts| - 1]] else []
  }

  function BranchPaths(at: Path, branches: seq<Branch>, n: nat): seq<Path>
    requires n <= |branches|
  {
    seq(n, i requires 0 <= i < n => BranchPath(at, branches[i]))
  }

  lemma DirectAppend(starts: seq<Path>, q: Path, invocation: Path, phase: Phase)
    ensures DirectStarts(starts + [q], invocation, phase)
            == DirectStarts(starts, invocation, phase) + if IsDirect(q, invocation, phase) then [q] else []
  {
    assert (starts + [q])[..|starts|] == starts;
  }

  lemma BranchIsDirect(origin: Origin, phase: Phase, b: Branch, invocation: Path)
    ensures IsDirect(BranchPath(Scope(invocation, origin, phase), b), invocation, phase)
  {
    var q := BranchPath(Scope(invocation, origin, phase), b);
    assert q == invocation + [Org(origin), Ph(phase), Num(b.hook), Num(b.action)];
  }

  /** Starts that are not the case's own leave the order alone. */
  lemma {:induction false} DirectUnchanged(s0: seq<Path>, s1: seq<Path>, invocation: Path, phase: Phase)
    requires |s0| <= |s1| && s1[..|s0|] == s0
    requires forall i | |s0| <= i < |s1| :: !IsDirect(s1[i], invocation, phase)
    ensures DirectStarts(s1, invocation, phase) == DirectStarts(s0, invocation, phase)
    decreases |s1|
  {
    if |s0| == |s1| {
      assert s1 == s0;
    } else {
      var before := s1[..|s1| - 1];
      assert before[..|s0|] == s0;
      DirectUnchanged(s0, before, invocation, phase);
    }
  }

  lemma {:induction false} NoDirect(starts: seq<Path>, invocation: Path, phase: Phase)
    requires forall i | 0 <= i < |starts| :: !IsDirect(starts[i], invocation, phase)
    ensures DirectStarts(starts, invocation, phase) == []
  {
    DirectUnchanged([], starts, invocation, phase);
  }

  /** What one hook action does to the order of its case's own starts: it is started once, at the
      latest when it returns. */
  predicate DirectStep(s0: seq<Path>, s1: seq<Path>, invocation: Path, phase: Phase, q: Path, started: bool) {
    || DirectStarts(s1, invocation, phase) == DirectStarts(s0, invocation, phase) + [q]
    || (!started && DirectStarts(s1, invocation, phase) == DirectStarts(s0, invocation, phase))
  }

  /** How a hook group that was not interrupted ends: its verdict is that of all actions run; all of
      them are run, except that a group which does not go on ends with its first failure. */
  predicate GroupEnds(verdicts: seq<bool>, size: nat, goesOn: bool, ok: bool) {
    && |verdicts| <= size
    && (ok <==> AllTrue(verdicts))
    && (goesOn || ok ==> |verdicts| == size)
    && (!goesOn && verdicts != [] ==> AllTrue(verdicts[..|verdicts| - 1]))
  }

  predicate AllTrue(verdicts: seq<bool>) {
    forall k | 0 <= k < |verdicts| :: verdicts[k]
  }

  lemma NoVerdicts()
    ensures AllTrue([])
  {}

  lemma OneMoreVerdict(verdicts: seq<bool>, ok: bool)
    ensures AllTrue(verdicts + [ok]) <==> AllTrue(verdicts) && ok
    ensures (verdicts + [ok])[..|verdicts|] == verdicts
  {
    var more := verdicts + [ok];
    assert more[|verdicts|] == ok && forall k | 0 <= k < |verdicts| :: more[k] == verdicts[k];
  }

  /** The order in which a case's completion actions are to start: its own, then the configuration's. */
  function CompletionPaths(t: Tree, invocation: Path): seq<Path> {
    BranchPaths(Scope(invocation, FromCase, OnCaseComplete), t.complete, |t.complete|)
    + BranchPaths(Scope(invocation, FromConfig, OnCaseComplete), t.cfgComplete, |t.cfgComplete|)
  }

  /** The wanted actions started up to and including one that raised: those before it are done. */
  predicate EndedBy(planned: seq<Step>, results: seq<Result>, started: seq<Path>, want: seq<Path>, n: nat) {
    n < |want| && started == want[..n + 1] && forall k | 0 <= k < n :: Done(planned, results, Under(want[k]))
  }

  ghost predicate BrokenOff(planned: seq<Step>, results: seq<Result>, started: seq<Path>, want: seq<Path>) {
    exists n: nat :: EndedBy(planned, results, started, want, n)
  }

  lemma BrokenOffStays(planned: seq<Step>, r0: seq<Result>, r1: seq<Result>, started: seq<Path>, want: seq<Path>)
    requires BrokenOff(planned, r0, started, want) && |r0| <= |r1| && r1[..|r0|] == r0
    ensures BrokenOff(planned, r1, started, want)
  {
    hide Done;
    var n: nat :| EndedBy(planned, r0, started, want, n);
    forall k | 0 <= k < n
      ensures Done(planned, r1, Under(want[k]))
    {
      DoneStays(planned, r0, r1, Under(want[k]));
    }
    assert EndedBy(planned, r1, started, want, n);
  }

  /** The case's own completion actions, or those of the configuration after all of them, break off. */
  lemma OwnActionsBreakOff(planned: seq<Step>, results: seq<Result>, started: seq<Path>, t: Tree, inv: Path, n: nat)
    requires n < |t.complete| && Done(planned, results, Branches(Scope(inv, FromCase, OnCaseComplete), t.complete[..n]))
    requires started == [] + BranchPaths(Scope(inv, FromCase, OnCaseComplete), t.complete, n + 1)
    ensures BrokenOff(planned, results, started, CompletionPaths(t, inv))
  {
    hide Scope, BranchPath;
    var at, want := Scope(inv, FromCase, OnCaseComplete), CompletionPaths(t, inv);
    forall k | 0 <= k < n
      ensures Done(planned, results, Under(want[k]))
    {
      BranchDone(planned, results, at, t.complete, n, k);
    }
    assert want[..n + 1] == started;
    assert EndedBy(planned, results, started, want, n);
  }

  lemma ConfigActionsBreakOff(planned: seq<Step>, results: seq<Result>, started: seq<Path>, t: Tree, inv: Path, n: nat)
    requires n < |t.cfgComplete|
    requires Done(planned, results, Branches(Scope(inv, FromConfig, OnCaseComplete), t.cfgComplete[..n]))
    requires Done(planned, results, Under(Scope(inv, FromCase, OnCaseComplete)))
    requires started == [] + BranchPaths(Scope(inv, FromCase, OnCaseComplete), t.complete, |t.complete|)
                        + BranchPaths(Scope(inv, FromConfig, OnCaseComplete), t.cfgComplete, n + 1)
    ensures BrokenOff(planned, results, started, CompletionPaths(t, inv))
  {
    hide Scope;
    var own, at := Scope(inv, FromCase, OnCaseComplete), Scope(inv, FromConfig, OnCaseComplete);
    var want := CompletionPaths(t, inv);
    var m := |t.complete|;
    forall k | 0 <= k < m + n
      ensures Done(planned, results, Under(want[k]))
    {
      if k < m {
        assert own <= want[k];
      } else {
        BranchDone(planned, results, at, t.cfgComplete, n, k - m);
      }
    }
    assert want[..m + n + 1] == started;
    assert EndedBy(planned, results, started, want, m + n);
  }

  lemma BranchDone(planned: seq<Step>, results: seq<Result>, at: Path, branches: seq<Branch>, n: nat, k: nat)
    requires k < n <= |branches| && Done(planned, results, Branches(at, branches[..n]))
    ensures Done(planned, results, Under(BranchPath(at, branches[k])))
  {
    hide BranchPath;
    assert branches[..n][k] == branches[k];
    assert forall q | BranchPath(at, branches[k]) <= q :: In(Branches(at, branches[..n]), q);
  }

  // ---- the verdict on a case's own commands ----

  /** Everything added since r0 passed. */
  predicate PassedSince(r0: seq<Result>, r1: seq<Result>) {
    forall i | |r0| <= i < |r1| :: r1[i].status.Passed?
  }

  /** The identity of an executed step: its step id unless that was handed out before. */
  predicate IdentityFor(identity: Identity, id: StepId, issuedIds: set<StepId>, generated: nat) {
    if id in issuedIds then identity.Generated? && generated <= identity.n else identity == Plain(id)
  }

  /** The result of the k-th of a body's steps, of which the first `normals` are normal steps and
      the rest teardown: a normal step is executed when every normal step before it passed and is
      skipped otherwise; a teardown step is always executed. */
  predicate StepResult(all: seq<Step>, normals: nat, k: nat, r0: seq<Result>, r1: seq<Result>, issuedIds: set<StepId>,
                       generated: nat)
    requires k < |all| && |r0| + k < |r1|
  {
    var r := r1[|r0| + k];
    && r.path == all[k].path
    && (r.executed <==> k >= normals || PassedSince(r0, r1[..|r0| + k]))
    && (if r.executed then IdentityFor(r.identity, all[k].id, issuedIds, generated)
        else (r.identity == Plain(all[k].id) && r.status == Skipped))
  }

  /** What an uninterrupted StepSequenceRunner has added after n steps. */
  predicate BodyRun(all: seq<Step>, normals: nat, n: nat, r0: seq<Result>, r1: seq<Result>, issuedIds: set<StepId>,
                    generated: nat)
    requires n <= |all|
  {
    && |r1| == |r0| + n && r1[..|r0|] == r0
    && forall k | 0 <= k < n :: StepResult(all, normals, k, r0, r1, issuedIds, generated)
  }

  /** Later results leave a step's result as it was. */
  lemma StepResultStays(all: seq<Step>, normals: nat, k: nat, r0: seq<Result>, r1: seq<Result>, r2: seq<Result>,
                        issuedIds: set<StepId>, generated: nat)
    requires k < |all| && |r0| + k < |r1| <= |r2| && r2[..|r1|] == r1
    ensures StepResult(all, normals, k, r0, r1, issuedIds, generated)
            <==> StepResult(all, normals, k, r0, r2, issuedIds, generated)
  {
    assert r2[..|r0| + k] == r1[..|r0| + k];
    assert r2[|r0| + k] == r1[|r0| + k];
  }

  function PathsOf(steps: seq<Step>): (r: seq<Path>)
    ensures |r| == |steps| && forall i | 0 <= i < |r| :: r[i] == steps[i].path
  {
    seq(|steps|, i requires 0 <= i < |steps| => steps[i].path)
  }

  /** The trailing teardown steps start at n. */
  predicate SplitsAt(steps: seq<Step>, n: nat) {
    && n <= |steps|
    && (forall i | n <= i < |steps| :: steps[i].teardown)
    && (n > 0 ==> !steps[n - 1].teardown)
  }

  /** The step runner was called for the first normal steps, as many as were tried, and for every
      trailing teardown step. */
  predicate AttemptsOf(steps: seq<Step>, n: nat, tried: nat, a0: seq<Path>, a1: seq<Path>) {
    SplitsAt(steps, n) && tried <= n && a1 == a0 + PathsOf(steps[..n])[..tried] + PathsOf(steps[n..])
  }

  lemma OneMoreTried(a0: seq<Path>, steps: seq<Step>, k: nat)
    requires k < |steps|
    ensures a0 + PathsOf(steps)[..k] + [steps[k].path] == a0 + PathsOf(steps)[..k + 1]
    ensures k == 0 ==> a0 + PathsOf(steps)[..k] == a0
    ensures k + 1 == |steps| ==> PathsOf(steps)[..k + 1] == PathsOf(steps)
  {}

  lemma AttemptsMade(steps: seq<Step>, normal: seq<Step>, teardown: seq<Step>, tried: nat, a0: seq<Path>, a1: seq<Path>)
    requires steps == normal + teardown && SplitsAt(steps, |normal|) && tried <= |normal|
    requires a1 == a0 + PathsOf(normal)[..tried] + PathsOf(teardown)
    ensures AttemptsOf(steps, |normal|, tried, a0, a1)
  {
    assert steps[..|normal|] == normal && steps[|normal|..] == teardown;
  }

  lemma LeftAloneTwice(r0: seq<Result>, r1: seq<Result>, r2: seq<Result>, starts: seq<Path>, status: Status)
    requires LeftAlone(r0, r1, starts, status) && LeftAlone(r1, r2, starts, status)
    requires |r1| <= |r2| && r2[..|r1|] == r1
    ensures LeftAlone(r0, r2, starts, status)
  {
    assert forall i | 0 <= i < |r1| :: r2[i] == r1[i];
  }

  predicate BodyIds(all: seq<Step>) {
    && (forall i | 0 <= i < |all| :: all[i].id.LeafId?)
    && (forall i, j | 0 <= i < j < |all| :: all[i].id != all[j].id)
  }

  lemma BodyStepsApart(t: Tree, invocation: Path)
    ensures var steps := BodySteps(t, invocation);
            && Distinct(steps) && BodyIds(steps)
            && forall i | 0 <= i < |steps| :: steps[i].path == invocation + [Body] + [Num(i)]
  {
    var steps := BodySteps(t, invocation);
    forall i | 0 <= i < |steps|
      ensures steps[i].path == invocation + [Body] + [Num(i)] && steps[i].path[|invocation| + 1] == Num(i)
    {}
  }

  /** The first n of a case's own steps have been dealt with. */
  predicate Commands(all: seq<Step>, normals: nat, n: nat, r0: seq<Result>, s0: seq<Path>, r1: seq<Result>,
                     s1: seq<Path>, issuedIds: set<StepId>, generated: nat, issuedNow: set<StepId>, generatedNow: nat,
                     at: Path, raised: bool)
    requires n <= |all|
  {
    && Adds(r0, s0, r1, s1, Under(at))
    && Told(r0, r1, s1, !raised)
    && (forall j | n <= j < |all| :: Clean(r1, s1, Under(all[j].path)))
    && generated <= generatedNow && issuedIds <= issuedNow
    && (forall j | n <= j < |all| && all[j].id in issuedNow :: all[j].id in issuedIds)
    && (!raised ==> BodyRun(all, normals, n, r0, r1, issuedIds, generated))
  }

  /** One more step: at most one result and one start, both of that step. */
  lemma CommandsGrow(all: seq<Step>, normals: nat, n: nat, r0: seq<Result>, s0: seq<Path>, r1: seq<Result>,
                     s1: seq<Path>, r2: seq<Result>, s2: seq<Path>, ids0: set<StepId>, gen0: nat, ids1: set<StepId>,
                     gen1: nat, ids2: set<StepId>, gen2: nat, at: Path, raised: bool, raised': bool)
    requires n < |all| && Commands(all, normals, n, r0, s0, r1, s1, ids0, gen0, ids1, gen1, at, raised) && BodyIds(all)
    requires Distinct(all) && forall j | 0 <= j < |all| :: at <= all[j].path && |all[j].path| == |at| + 1
    requires r2 == r1 || (|r2| == |r1| + 1 && r2[..|r1|] == r1 && r2[|r1|].path == all[n].path)
    requires s2 == s1 || s2 == s1 + [all[n].path]
    requires ids1 <= ids2 <= ids1 + {all[n].id} && gen1 <= gen2
    requires raised ==> raised'
    requires !raised' ==>
               && |r2| == |r1| + 1
               && (r2[|r1|].executed <==> n >= normals || PassedSince(r0, r1))
               && (if r2[|r1|].executed then IdentityFor(r2[|r1|].identity, all[n].id, ids1, gen1)
                   else r2[|r1|].identity == Plain(all[n].id) && r2[|r1|].status == Skipped)
    requires at != [] && at[|at| - 1].Body? && Told(r1, r2, s2, !raised')
    ensures Commands(all, normals, n + 1, r0, s0, r2, s2, ids0, gen0, ids2, gen2, at, raised')
  {
    hide Told;
    assert forall i | 0 <= i < |r1| :: r2[i] == r1[i];
    assert r2[..|r0|] == r1[..|r0|] && s2[..|s0|] == s1[..|s0|];
    CommandsNext(all, normals, n, r0, s0, r1, s1, ids0, gen0, ids1, gen1, at, raised);
    assert Adds(r1, s1, r2, s2, Under(at));
    AddsTwice(r0, s0, r1, s1, r2, s2, Under(at), Under(at), Under(at));
    ToldTwice(r0, s0, r1, s1, r2, s2, Under(at), Under(at), !raised, !raised', !raised');
    forall j | n + 1 <= j < |all|
      ensures Clean(r2, s2, Under(all[j].path))
    {
      assert all[j].path != all[n].path;
      PrefixOfSameLength(all[j].path, all[n].path);
    }
    if !raised' {
      forall k | 0 <= k < n + 1
        ensures StepResult(all, normals, k, r0, r2, ids0, gen0)
      {
        if k < n {
          StepResultStays(all, normals, k, r0, r1, r2, ids0, gen0);
        } else {
          assert r2[..|r0| + n] == r1;
        }
      }
    }
  }

  /** What the results of a command step are: executed, left over by an interruption, or skipped after one
      that was executed and did not pass. */
  lemma ToldCommand(r1: seq<Result>, r: Result, starts: seq<Path>, raised: bool)
    requires OfBody(r.path)
    requires if r.executed then r.path in starts
             else (r.status.Incomplete? && raised)
                  || (r.status.Skipped? && r.path !in starts && BodyFailed(r1, r.path[..|r.path| - 1]))
    ensures Told(r1, r1 + [r], starts, !raised)
  {
    var r2 := r1 + [r];
    assert r2[|r1|] == r;
    if !r.executed && r.status.Skipped? {
      var j :| 0 <= j < |r1| && FailedCommand(r1[j], r.path[..|r.path| - 1]);
      assert r2[j] == r1[j];
      assert Blocks(r2[j], r2[|r1|].path);
    }
  }

  predicate FailedCommand(c: Result, at: Path) {
    OfBody(c.path) && c.executed && !c.status.Passed? && c.path[..|c.path| - 1] == at
  }

  /** A command step of the body was executed and did not pass. */
  predicate BodyFailed(results: seq<Result>, at: Path) {
    exists j :: 0 <= j < |results| && FailedCommand(results[j], at)
  }

  /** When something of a body did not pass, one of its executed steps did not. */
  lemma CommandsFailed(all: seq<Step>, normals: nat, n: nat, r0: seq<Result>, s0: seq<Path>, r1: seq<Result>,
                       s1: seq<Path>, ids0: set<StepId>, gen0: nat, ids1: set<StepId>, gen1: nat, at: Path)
    requires n <= |all| && Commands(all, normals, n, r0, s0, r1, s1, ids0, gen0, ids1, gen1, at, false)
    requires at != [] && at[|at| - 1].Body?
    requires forall j | 0 <= j < |all| :: at <= all[j].path && |all[j].path| == |at| + 1
    requires !PassedSince(r0, r1)
    ensures BodyFailed(r1, at)
  {
    var k := FirstFailure(all, normals, n, r0, r1, ids0, gen0);
    assert StepResult(all, normals, k, r0, r1, ids0, gen0);
    BodyPath(all[k].path, at);
    assert FailedCommand(r1[|r0| + k], at);
  }

  lemma BodyPath(q: Path, at: Path)
    requires at != [] && at[|at| - 1].Body? && at <= q && |q| == |at| + 1
    ensures OfBody(q) && q[..|q| - 1] == at
  {
    assert q[|at| - 1] == at[|at| - 1];
  }

  lemma CommandsStart(all: seq<Step>, normals: nat, r: seq<Result>, s: seq<Path>, issuedIds: set<StepId>,
                      generated: nat, at: Path)
    requires forall i | 0 <= i < |all| :: Clean(r, s, Under(all[i].path))
    ensures Commands(all, normals, 0, r, s, r, s, issuedIds, generated, issuedIds, generated, at, false)
    ensures PassedSince(r, r)
  {}

  lemma CommandsNext(all: seq<Step>, normals: nat, n: nat, r0: seq<Result>, s0: seq<Path>, r1: seq<Result>,
                     s1: seq<Path>, ids0: set<StepId>, gen0: nat, ids1: set<StepId>, gen1: nat, at: Path, raised: bool)
    requires n < |all| && Commands(all, normals, n, r0, s0, r1, s1, ids0, gen0, ids1, gen1, at, raised)
    ensures Clean(r1, s1, Under(all[n].path)) && !RecordedIn(r1, all[n].path) && |r0| <= |r1|
    ensures all[n].path !in s1
  {
    assert all[n].path <= all[n].path;
  }

  lemma CommandsEnd(all: seq<Step>, normals: nat, r0: seq<Result>, s0: seq<Path>, r1: seq<Result>, s1: seq<Path>,
                    ids0: set<StepId>, gen0: nat, ids1: set<StepId>, gen1: nat, at: Path, raised: bool)
    requires Commands(all, normals, |all|, r0, s0, r1, s1, ids0, gen0, ids1, gen1, at, raised)
    ensures Adds(r0, s0, r1, s1, Under(at)) && Told(r0, r1, s1, !raised)
    ensures !raised ==> BodyRun(all, normals, |all|, r0, r1, ids0, gen0)
    ensures !raised ==> forall j | 0 <= j < |all| :: RecordedIn(r1, all[j].path)
  {
    if !raised {
      forall j | 0 <= j < |all|
        ensures RecordedIn(r1, all[j].path)
      {
        assert StepResult(all, normals, j, r0, r1, ids0, gen0);
        assert r1[|r0| + j].path == all[j].path;
      }
    }
  }

  lemma PrefixOfSameLength(a: Path, b: Path)
    requires |a| == |b| && a != b
    ensures !(a <= b)
  {}

  /** The source's verdict on a body: every result whose identity was not there before passed. */
  predicate Verdict(r0: seq<Result>, r1: seq<Result>) {
    forall i | 0 <= i < |r1| && !IdentityIn(r0, r1[i].identity) :: r1[i].status.Passed?
  }

  /** An executed step is overlooked by the verdict when its step id was recorded earlier for a
      step that was never executed, and so never handed out. */
  predicate Overlooked(r0: seq<Result>, id: StepId, issuedIds: set<StepId>) {
    id !in issuedIds && IdentityIn(r0, Plain(id))
  }

  lemma OverlookedIff(planned: seq<Step>, r0: seq<Result>, starts: seq<Path>, issuedIds: set<StepId>, generated: nat,
                      identity: Identity, id: StepId)
    requires Consistent(planned, r0, starts, issuedIds, generated) && IdentityFor(identity, id, issuedIds, generated)
    ensures IdentityIn(r0, identity) <==> Overlooked(r0, id, issuedIds)
    ensures Overlooked(r0, id, issuedIds) && id.LeafId? ==> Waiting(r0, id)
  {
    assert forall i | 0 <= i < |r0| && r0[i].identity == identity ::
        (r0[i].executed ==> Issued(identity, issuedIds, generated)) && (!r0[i].executed ==> identity.Plain?);
  }

  /** If something did not pass, then something executed did not. */
  lemma {:induction false} FirstFailure(all: seq<Step>, normals: nat, n: nat, r0: seq<Result>, r1: seq<Result>,
                                        issuedIds: set<StepId>, generated: nat)
    returns (k: nat)
    requires n <= |all| && BodyRun(all, normals, n, r0, r1, issuedIds, generated) && !PassedSince(r0, r1)
    ensures k < n && r1[|r0| + k].executed && !r1[|r0| + k].status.Passed?
    decreases n
  {
    var before := r1[..|r1| - 1];
    assert StepResult(all, normals, n - 1, r0, r1, issuedIds, generated);
    forall k | 0 <= k < n - 1
      ensures StepResult(all, normals, k, r0, before, issuedIds, generated)
    {
      StepResultStays(all, normals, k, r0, before, r1, issuedIds, generated);
    }
    if PassedSince(r0, before) {
      k := n - 1;
      assert forall i | |r0| <= i < |before| :: r1[i] == before[i];
    } else {
      k := FirstFailure(all, normals, n - 1, r0, before, issuedIds, generated);
    }
  }

  /** Within a body, the results that do not count are those whose identity was recorded before the
      body: its own steps have different ids. */
  lemma HiddenInBody(planned: seq<Step>, all: seq<Step>, normals: nat, k: nat, r0: seq<Result>, s0: seq<Path>,
                     r1: seq<Result>, issuedIds: set<StepId>, generated: nat)
    requires Consistent(planned, r0, s0, issuedIds, generated) && BodyIds(all) && k < |all|
    requires BodyRun(all, normals, |all|, r0, r1, issuedIds, generated)
    ensures IdentityIn(r0, r1[|r0| + k].identity) <==> Hidden(r1, |r0| + k)
  {
    hide PassedSince, HasPath, PassedMeansExecuted;
    var i := |r0| + k;
    assert StepResult(all, normals, k, r0, r1, issuedIds, generated);
    if j :| 0 <= j < |r0| && r0[j].identity == r1[i].identity {
      assert r1[..i][j] == r0[j];
    }
    if Hidden(r1, i) {
      var j :| 0 <= j < i && r1[..i][j].identity == r1[i].identity;
      if j >= |r0| {
        assert StepResult(all, normals, j - |r0|, r0, r1, issuedIds, generated);
      } else {
        assert r0[j] == r1[j];
      }
    }
  }

  /** The verdict on a body is exact at the root, and wherever none of its steps waits. */
  lemma VerdictExact(planned: seq<Step>, all: seq<Step>, normals: nat, r0: seq<Result>, s0: seq<Path>, r1: seq<Result>,
                     s1: seq<Path>, issuedIds: set<StepId>, generated: nat, g: Region)
    requires Consistent(planned, r0, s0, issuedIds, generated) && Clean(r0, s0, g) && BodyIds(all)
    requires Adds(r0, s0, r1, s1, g) && BodyRun(all, normals, |all|, r0, r1, issuedIds, generated)
    requires forall k | 0 <= k < |all| :: all[k] in planned && In(g, all[k].path)
    ensures Verdict(r0, r1) <==> Counts(r0, r1)
    ensures Verdict(r0, r1) && NoneWaiting(planned, r0, g) ==> AllPassed(r1, g)
  {
    assert forall i | 0 <= i < |r0| :: r1[i] == r0[i] && IdentityIn(r0, r0[i].identity);
    forall i | |r0| <= i < |r1|
      ensures IdentityIn(r0, r1[i].identity) <==> Hidden(r1, i)
    {
      HiddenInBody(planned, all, normals, i - |r0|, r0, s0, r1, issuedIds, generated);
    }
    hide Hidden;
    if Verdict(r0, r1) && NoneWaiting(planned, r0, g) && !PassedSince(r0, r1) {
      var k := FirstFailure(all, normals, |all|, r0, r1, issuedIds, generated);
      assert StepResult(all, normals, k, r0, r1, issuedIds, generated);
      OverlookedIff(planned, r0, s0, issuedIds, generated, r1[|r0| + k].identity, all[k].id);
      assert false;
    }
  }
}
