/** The writes of run.json (fsq_agent/execution/runs.py:61-127, 324-328, 407-409): every writer
    checks what it read, and the write itself checks again under the lock. */
module RunMetadata {
  import opened Wrappers
  import opened Freeze

  datatype Status = Preparing | Running | Finalizing | Concluded(outcome: Word)

  /** The fields that a write may not change. */
  datatype Identity = Identity(runId: string, platform: string, workspace: string, mode: Mode, startedAt: int)

  /** What is derived from a frozen conclusion, and what became of it. */
  datatype Stage = Report | Recording | Publication

  datatype Progress = Awaited | Succeeded | Unsuccessful | Stopped | Unrequested

  type Processing = map<Stage, Progress>

  datatype Details = Details(processing: Processing, rest: string)

  /** run.json. `counts` is the step summary of its result; `details` stands for every other field. */
  datatype Metadata = Metadata(identity: Identity, status: Status, revision: nat, counts: Option<Counts>,
                               details: Details)

  function Rank(s: Status): nat {
    match s
    case Preparing => 0
    case Running => 1
    case Finalizing => 2
    case Concluded(_) => 3
  }

  /** The check under the lock, _write_run_metadata. */
  predicate Accepts(disk: Option<Metadata>, m: Metadata) {
    match disk
    case None => m.revision == 0
    case Some(p) =>
      && !p.status.Concluded?
      && p.identity == m.identity
      && m.revision == p.revision + 1
      && (m.status.Concluded? || Rank(p.status) <= Rank(m.status))
  }

  /** What transition_run is about to write, or None when it raises before writing. */
  function Transition(persisted: Metadata, read: Metadata, status: Status, counts: Option<Counts>,
                      details: Details): Option<Metadata> {
    if persisted.identity.runId != read.identity.runId || persisted.identity.platform != read.identity.platform
       || persisted.identity.workspace != read.identity.workspace then None
    else if persisted.status.Concluded? then None
    else if persisted != read then None
    else if !status.Concluded? && Rank(status) <= Rank(read.status) then None
    else Some(read.(status := status, revision := read.revision + 1, counts := counts, details := details))
  }

  /** What snapshot_sources is about to write. */
  function Snapshot(persisted: Metadata, read: Metadata, details: Details): Option<Metadata> {
    if persisted != read || persisted.status.Concluded? then None
    else Some(persisted.(revision := persisted.revision + 1, details := details))
  }

  // ---- schedules of threads in one process ----

  type Thread = nat

  datatype Request =
    | Create(initial: Metadata)
    | Move(read: Metadata, status: Status, counts: Option<Counts>, details: Details)
    | Resnapshot(read: Metadata, details: Details)

  /** A failing file operation leaves the file as it was or, when only the removal of the temporary
      file fails after a first write, as it was to become. */
  datatype Fault = NoFault | BeforeEffect | AfterEffect

  /** A thread first reads and checks, then writes under the lock; other threads may come between. */
  datatype Event = Check(thread: Thread, request: Request) | Commit(thread: Thread, fault: Fault)

  /** What a thread has checked: the metadata it read, if there was any, and what it will write. */
  datatype Pending = Pending(base: Option<Metadata>, next: Metadata)

  datatype State = State(disk: Option<Metadata>, pending: map<Thread, Pending>)

  function Prepare(disk: Option<Metadata>, request: Request): Option<Pending> {
    match request
    case Create(initial) =>
      if disk.None? && initial.revision == 0 && initial.status == Preparing then Some(Pending(None, initial)) else None
    case Move(read, status, counts, details) =>
      if disk.None? then None
      else
        var next := Transition(disk.value, read, status, counts, details);
        if next.None? then None else Some(Pending(disk, next.value))
    case Resnapshot(read, details) =>
      if disk.None? then None
      else
        var next := Snapshot(disk.value, read, details);
        if next.None? then None else Some(Pending(disk, next.value))
  }

  /** Whether a commit changes the file. */
  predicate Effective(s: State, e: Event) {
    && e.Commit? && e.thread in s.pending && Accepts(s.disk, s.pending[e.thread].next)
    && e.fault != BeforeEffect && (e.fault == AfterEffect ==> s.disk.None?)
  }

  function Next(s: State, e: Event): State {
    match e
    case Check(thread, request) =>
      var p := Prepare(s.disk, request);
      if p.None? then s.(pending := s.pending - {thread}) else s.(pending := s.pending[thread := p.value])
    case Commit(thread, _) =>
      State(if Effective(s, e) then Some(s.pending[thread].next) else s.disk, s.pending - {thread})
  }

  /** The states a schedule goes through, starting without a run.json. */
  function After(schedule: seq<Event>): State {
    if schedule == [] then State(None, map[])
    else Next(After(schedule[..|schedule| - 1]), schedule[|schedule| - 1])
  }

  /** The successive contents of run.json. */
  function Writes(schedule: seq<Event>): seq<Metadata> {
    if schedule == [] then []
    else
      var before, e := schedule[..|schedule| - 1], schedule[|schedule| - 1];
      Writes(before) + if Effective(After(before), e) then [After(before).pending[e.thread].next] else []
  }

  /** One identity, status only forward, nothing after a conclusion, one revision per write. */
  predicate HistorySafe(writes: seq<Metadata>) {
    && (forall i | 0 <= i < |writes| :: writes[i].revision == i)
    && (forall i, j | 0 <= i < j < |writes| ::
          && writes[i].identity == writes[j].identity
          && Rank(writes[i].status) <= Rank(writes[j].status)
          && !writes[i].status.Concluded?)
  }

  /** What every checked but uncommitted write was computed from is a past content of the file. */
  predicate PendingKnown(s: State, writes: seq<Metadata>) {
    forall t | t in s.pending :: KnownBase(s.pending[t], writes)
  }

  predicate DiskIsLast(s: State, writes: seq<Metadata>) {
    s.disk == if writes == [] then None else Some(writes[|writes| - 1])
  }

  lemma HistoryGrows(disk: Option<Metadata>, writes: seq<Metadata>, m: Metadata)
    requires HistorySafe(writes) && disk == (if writes == [] then None else Some(writes[|writes| - 1]))
    requires Accepts(disk, m)
    ensures HistorySafe(writes + [m])
  {
    var writes' := writes + [m];
    if writes != [] {
      var last := writes[|writes| - 1];
      forall i | 0 <= i < |writes|
        ensures writes'[i].identity == m.identity && Rank(writes'[i].status) <= Rank(m.status)
        ensures !writes'[i].status.Concluded?
      {
        assert i == |writes| - 1
               || (writes[i].identity == last.identity && Rank(writes[i].status) <= Rank(last.status));
      }
    }
  }

  predicate KnownBase(p: Pending, writes: seq<Metadata>) {
    match p.base
    case None => p.next.revision == 0
    case Some(b) => b.revision < |writes| && writes[b.revision] == b && p.next.revision == b.revision + 1
  }

  lemma StepKeeps(s: State, writes: seq<Metadata>, e: Event)
    requires HistorySafe(writes) && PendingKnown(s, writes) && DiskIsLast(s, writes)
    ensures var writes' := writes + if Effective(s, e) then [s.pending[e.thread].next] else [];
            HistorySafe(writes') && PendingKnown(Next(s, e), writes') && DiskIsLast(Next(s, e), writes')
  {
    var writes' := writes + if Effective(s, e) then [s.pending[e.thread].next] else [];
    if Effective(s, e) {
      HistoryGrows(s.disk, writes, s.pending[e.thread].next);
    } else {
      assert writes' == writes;
    }
    hide HistorySafe;
    assert forall i | 0 <= i < |writes| :: writes'[i] == writes[i];
    var s' := Next(s, e);
    forall t | t in s'.pending
      ensures KnownBase(s'.pending[t], writes')
    {
      if e.Commit? || t != e.thread {
        assert s'.pending[t] == s.pending[t] && KnownBase(s.pending[t], writes);
      } else {
        PreparedKnown(s, writes, e.request);
      }
    }
  }

  lemma PreparedKnown(s: State, writes: seq<Metadata>, request: Request)
    requires HistorySafe(writes) && DiskIsLast(s, writes) && Prepare(s.disk, request).Some?
    ensures KnownBase(Prepare(s.disk, request).value, writes)
  {}

  /** Safety over every interleaving: the contents of run.json form a safe history. */
  lemma {:induction false} EveryScheduleIsSafe(schedule: seq<Event>)
    ensures HistorySafe(Writes(schedule)) && DiskIsLast(After(schedule), Writes(schedule))
    ensures PendingKnown(After(schedule), Writes(schedule))
  {
    if schedule != [] {
      var before := schedule[..|schedule| - 1];
      EveryScheduleIsSafe(before);
      StepKeeps(After(before), Writes(before), schedule[|schedule| - 1]);
    }
  }

  /** Later events only append to the history. */
  lemma {:induction false} WritesGrow(schedule: seq<Event>, n: nat)
    requires n <= |schedule|
    ensures Writes(schedule[..n]) <= Writes(schedule)
    decreases |schedule|
  {
    if n < |schedule| {
      var before := schedule[..|schedule| - 1];
      assert before[..n] == schedule[..n];
      WritesGrow(before, n);
    } else {
      assert schedule[..n] == schedule;
    }
  }

  /** The i-th event changes the file. */
  predicate Succeeds(schedule: seq<Event>, i: int) {
    0 <= i < |schedule| && Effective(After(schedule[..i]), schedule[i])
  }

  function PendingOf(schedule: seq<Event>, i: int): Pending
    requires Succeeds(schedule, i)
  {
    After(schedule[..i]).pending[schedule[i].thread]
  }

  /** No update is lost: a write that succeeds replaces exactly what its thread had read, whatever
      happened in between. */
  lemma NoLostUpdate(schedule: seq<Event>, i: int)
    requires Succeeds(schedule, i)
    ensures After(schedule[..i]).disk == PendingOf(schedule, i).base
  {
    EveryScheduleIsSafe(schedule[..i]);
    var s, writes := After(schedule[..i]), Writes(schedule[..i]);
    var t := schedule[i].thread;
    assert t in s.pending && Accepts(s.disk, s.pending[t].next);
    if writes != [] {
      assert s.disk.value == writes[|writes| - 1];
    }
  }

  /** What a checked write is: a first one of a run that is not there yet; a move of what is on disk to a later
      status or to a conclusion; or the same with other details. Nothing else passes the check. */
  lemma PreparedIff(disk: Option<Metadata>, request: Request)
    ensures Prepare(disk, request).Some?
            <==> match request
                 case Create(initial) => disk.None? && initial.revision == 0 && initial.status == Preparing
                 case Move(read, status, _, _) =>
                   disk == Some(read) && !read.status.Concluded?
                   && (status.Concluded? || (read.status == Preparing && status != Preparing)
                       || (read.status == Running && status == Finalizing))
                 case Resnapshot(read, _) => disk == Some(read) && !read.status.Concluded?
    ensures Prepare(disk, request).Some? ==>
              var p := Prepare(disk, request).value;
              && p.base == disk
              && match request
                 case Create(initial) => p.next == initial
                 case Move(read, status, counts, details) =>
                   p.next == Metadata(read.identity, status, read.revision + 1, counts, details)
                 case Resnapshot(read, details) =>
                   p.next == Metadata(read.identity, read.status, read.revision + 1, read.counts, details)
  {}

  /** A write whose thread nobody came before is accepted: it is refused only where the file is no longer
      what the thread had read. */
  lemma {:induction false} AcceptedIff(schedule: seq<Event>, t: Thread)
    requires t in After(schedule).pending
    ensures var s := After(schedule); Accepts(s.disk, s.pending[t].next) <==> s.disk == s.pending[t].base
  {
    EveryScheduleIsSafe(schedule);
    PendingIsPrepared(schedule, t);
    var s, writes := After(schedule), Writes(schedule);
    var p := s.pending[t];
    if Accepts(s.disk, p.next) {
      assert KnownBase(p, writes);
      if writes != [] {
        assert s.disk.value == writes[|writes| - 1];
      }
    }
  }

  /** What is pending was prepared against what it was computed from. */
  lemma {:induction false} PendingIsPrepared(schedule: seq<Event>, t: Thread)
    requires t in After(schedule).pending
    ensures var p := After(schedule).pending[t]; exists request :: Prepare(p.base, request) == Some(p)
  {
    var before, e := schedule[..|schedule| - 1], schedule[|schedule| - 1];
    if e.Check? && e.thread == t {
      PreparedIff(After(before).disk, e.request);
      assert Prepare(After(before).disk, e.request) == Some(After(schedule).pending[t]);
    } else {
      PendingIsPrepared(before, t);
    }
  }

  /** Of two writers that read the same revision at most one succeeds. */
  lemma OneWinner(schedule: seq<Event>, i: int, j: int)
    requires i < j && Succeeds(schedule, i) && Succeeds(schedule, j)
    ensures PendingOf(schedule, i).base != PendingOf(schedule, j).base
  {
    NoLostUpdate(schedule, i);
    NoLostUpdate(schedule, j);
    var one := schedule[..i + 1];
    assert one[..i] == schedule[..i] && schedule[..j][..i + 1] == one;
    WritesGrow(schedule[..j], i + 1);
    EveryScheduleIsSafe(schedule[..i]);
    EveryScheduleIsSafe(schedule[..j]);
    assert |Writes(one)| == |Writes(schedule[..i])| + 1;
  }

  /** A concluded run.json never changes again. */
  lemma ConclusionIsFinal(schedule: seq<Event>, n: nat)
    requires n <= |schedule| && After(schedule[..n]).disk.Some? && After(schedule[..n]).disk.value.status.Concluded?
    ensures After(schedule).disk == After(schedule[..n]).disk
  {
    WritesGrow(schedule, n);
    EveryScheduleIsSafe(schedule[..n]);
    EveryScheduleIsSafe(schedule);
    hide After, Writes;
    var early, late := Writes(schedule[..n]), Writes(schedule);
    var k := |early| - 1;
    assert late[k] == early[k];
    assert |late| == |early|;
  }
}
