/**
  Runs of the case services in which any number of operations are between their reads and their
  commit. What every such interleaving keeps is `Coherent`; where stale reads break a law that
  serial runs keep, the exact condition is stated beside a failing example.
 */
module CaseRuns {
  import opened Wrappers
  import opened Cases

  function Cap(n: nat): int { if n < 2 then n else 2 }

  lemma AppendEntry(timeline: seq<Entry>, e: Entry)
    ensures Replay(timeline + [e]) == Apply(Replay(timeline), e)
    ensures Escalations(timeline + [e]) == Escalations(timeline) + if Escalates(e.kind) then 1 else 0
    ensures forall kind :: CountKind(timeline + [e], kind) == CountKind(timeline, kind) + if e.kind == kind then 1 else 0
    ensures EventsCalledFor(timeline + [e])
         == if Witnessed(e.kind) then
              EventsCalledFor(timeline)
              + [CaseEvent(e.caseId, Replay(timeline).status, Apply(Replay(timeline), e).status.GetOr(Open))]
            else EventsCalledFor(timeline)
  {
    assert (timeline + [e])[..|timeline|] == timeline;
  }

  lemma ArrivalsAppend(events: seq<CaseEvent>, e: CaseEvent)
    ensures Arrivals(events + [e]) == Arrivals(events) + [e.toStatus]
  {
    assert (events + [e])[..|events|] == events;
  }

  // ---------- The laws of one case ----------

  ghost predicate BreachesAreLate(v: View, now: int) {
    forall i :: 0 <= i < |v.timeline| ==>
      && v.timeline[i].at <= now
      && (v.timeline[i].kind == SlaBreach ==>
            v.row.slaDeadline.Some? && v.row.slaDeadline.value <= v.timeline[i].at)
  }

  ghost predicate StartsWithCreation(timeline: seq<Entry>) {
    && timeline != [] && timeline[0].kind == CaseCreated
    && forall i :: 1 <= i < |timeline| ==> timeline[i].kind != CaseCreated
  }

  /**
    The timeline of a case replays to its row, tells which statuses its events arrive at, and counts
    its complaints and evidence. A breach is never early. The escalation level never exceeds what
    the timeline accounts for, and is 0 only before the first escalation.
   */
  ghost predicate Coherent(v: View, now: int) {
    && StartsWithCreation(v.timeline)
    && Replay(v.timeline) == Replayed(Some(v.row.status), v.row.resolvedAt, v.row.closedAt)
    && Arrivals(v.events) == Arrivals(EventsCalledFor(v.timeline))
    && BreachesAreLate(v, now)
    && 0 <= v.row.escalationLevel <= Cap(Escalations(v.timeline))
    && (v.row.escalationLevel == 0 <==> Escalations(v.timeline) == 0)
    && v.complaints == CountKind(v.timeline, ComplaintGenerated)
    && v.evidence == CountKind(v.timeline, EvidenceUploaded)
  }

  /** What an operation in flight still knows for certain about its case. */
  ghost predicate StillTrue(v: View, op: Operation, now: int)
    requires !op.Create?
  {
    match op
    case SetStatus(_, _, _, _) => true
    case Escalate(_, read) => 0 <= read.escalationLevel <= Cap(Escalations(v.timeline))
    case Breach(_, read) =>
      && 0 <= read.escalationLevel <= Cap(Escalations(v.timeline))
      && v.row.slaDeadline.Some? && v.row.slaDeadline.value <= now
    case Prepare(_) => true
    case Submit(_, _) => true
    case Upload(_) => true
  }

  lemma {:induction false} ArrivalsKept(events: seq<CaseEvent>, timeline: seq<Entry>, e: Entry, added: seq<CaseEvent>)
    requires Arrivals(events) == Arrivals(EventsCalledFor(timeline))
    requires if Witnessed(e.kind) then |added| == 1 && Some(added[0].toStatus) == Apply(Replay(timeline), e).status
             else added == []
    ensures Arrivals(events + added) == Arrivals(EventsCalledFor(timeline + [e]))
  {
    AppendEntry(timeline, e);
    if Witnessed(e.kind) {
      assert added == [added[0]];
      ArrivalsAppend(events, added[0]);
      ArrivalsAppend(EventsCalledFor(timeline),
                     CaseEvent(e.caseId, Replay(timeline).status, Apply(Replay(timeline), e).status.GetOr(Open)));
    } else {
      assert events + added == events;
    }
  }

  /** The new row says what replaying the new entry after the old row says. */
  ghost predicate RowFollows(row: Case, row': Case, e: Entry) {
    && row'.slaDeadline == row.slaDeadline
    && Apply(Replayed(Some(row.status), row.resolvedAt, row.closedAt), e)
       == Replayed(Some(row'.status), row'.resolvedAt, row'.closedAt)
  }

  lemma RowAfterFollows(op: Operation, row: Case, at: int)
    requires !op.Create?
    ensures RowFollows(row, RowAfter(op, row, at), EntryFor(op, at))
    ensures if Witnessed(KindOf(op)) then |EventsFor(op)| == 1 && EventsFor(op)[0].toStatus == RowAfter(op, row, at).status
            else EventsFor(op) == []
  {
  }

  lemma LatenessKept(v: View, row': Case, e: Entry, now: int)
    requires StartsWithCreation(v.timeline) && BreachesAreLate(v, now)
    requires row'.slaDeadline == v.row.slaDeadline && e.at == now && e.kind != CaseCreated
    requires e.kind == SlaBreach ==> v.row.slaDeadline.Some? && v.row.slaDeadline.value <= now
    ensures StartsWithCreation(v.timeline + [e])
    ensures BreachesAreLate(v.(row := row', timeline := v.timeline + [e]), now)
  {
    assert forall i :: 0 <= i < |v.timeline| ==> (v.timeline + [e])[i] == v.timeline[i];
  }

  lemma AdvanceKeepsCoherent(v: View, op: Operation, now: int)
    requires !op.Create? && Coherent(v, now) && StillTrue(v, op, now)
    ensures Coherent(Advance(v, op, now), now)
  {
    var e, row' := EntryFor(op, now), RowAfter(op, v.row, now);
    RowAfterFollows(op, v.row, now);
    AppendEntry(v.timeline, e);
    ArrivalsKept(v.events, v.timeline, e, EventsFor(op));
    LatenessKept(v, row', e, now);
  }

  /** The deadline of a case is never written again and its escalations only grow. */
  lemma AdvanceKeepsTruth(v: View, op: Operation, at: int, other: Operation, now: int)
    requires !op.Create? && !other.Create? && StillTrue(v, other, now)
    ensures StillTrue(Advance(v, op, at), other, now)
  {
    AppendEntry(v.timeline, EntryFor(op, at));
  }

  lemma FirstViewIsCoherent(row: Case, id: nat, at: int)
    requires IsNewRow(row)
    ensures Coherent(FirstView(row, id, at), at)
  {
    var e := Entry(id, CaseCreated, at);
    AppendEntry([], e);
    assert [] + [e] == [e];
    ArrivalsAppend([], CaseEvent(id, None, Open));
    assert EventsCalledFor([e]) == [CaseEvent(id, None, Open)];
  }

  // ---------- Worlds ----------

  /** `unsent` holds the cases whose breach is committed and whose owner is still to be notified. */
  datatype World = World(tables: Tables, now: int, inFlight: seq<Operation>, unsent: seq<nat>)

  datatype Step =
    | Tick(to: int)
    | Start(op: Operation)
    | Finish(k: nat)
    | Abandon(k: nat)
    | Send(k: nat)
    | Lose(k: nat)

  ghost function Next(w: World, s: Step): World {
    match s
    case Tick(to) => if w.now <= to then w.(now := to) else w
    case Start(op) => if Reads(w.tables, op, w.now) then w.(inFlight := w.inFlight + [op]) else w
    case Finish(k) =>
      if k < |w.inFlight| then
        var op := w.inFlight[k];
        w.(tables := Commit(w.tables, op, w.now), inFlight := Without(w.inFlight, k),
           unsent := if op.Breach? then w.unsent + [op.caseId] else w.unsent)
      else w
    case Abandon(k) => if k < |w.inFlight| then w.(inFlight := Without(w.inFlight, k)) else w
    case Send(k) =>
      if k < |w.unsent| && w.unsent[k] < |w.tables.cases| then
        w.(tables := Notify(w.tables, w.unsent[k]), unsent := Without(w.unsent, k))
      else w
    case Lose(k) => if k < |w.unsent| then w.(unsent := Without(w.unsent, k)) else w
  }

  ghost function Run(w: World, steps: seq<Step>): World {
    if steps == [] then w else Next(Run(w, steps[..|steps| - 1]), steps[|steps| - 1])
  }

  /** No notification without a breach: those sent and those to be sent are at most the breaches. */
  ghost predicate NoticesAreOwed(w: World, id: nat)
    requires id < |w.tables.cases|
  {
    var v := ViewOf(w.tables, id);
    |v.notices| + CountOf(w.unsent, id) <= CountKind(v.timeline, SlaBreach)
  }

  ghost predicate CaseIsFine(w: World, id: nat)
    requires id < |w.tables.cases|
  {
    Coherent(ViewOf(w.tables, id), w.now) && NoticesAreOwed(w, id)
  }

  ghost predicate OperationIsFine(w: World, op: Operation) {
    if op.Create? then IsNewRow(op.row)
    else op.caseId < |w.tables.cases| && StillTrue(ViewOf(w.tables, op.caseId), op, w.now)
  }

  ghost predicate Good(w: World) {
    && NoStrays(w.tables)
    && (forall id: nat :: |w.tables.cases| <= id ==> CountOf(w.unsent, id) == 0)
    && (forall id :: 0 <= id < |w.tables.cases| ==> CaseIsFine(w, id))
    && (forall k :: 0 <= k < |w.inFlight| ==> OperationIsFine(w, w.inFlight[k]))
  }

  lemma {:induction false} CountWithout(ids: seq<nat>, k: nat, id: nat)
    requires k < |ids|
    ensures CountOf(Without(ids, k), id) == CountOf(ids, id) - if ids[k] == id then 1 else 0
  {
    var n := |ids| - 1;
    if k == n {
      assert Without(ids, k) == ids[..n];
    } else {
      assert Without(ids, k) == Without(ids[..n], k) + [ids[n]];
      CountWithout(ids[..n], k, id);
      CountAppend(Without(ids[..n], k), ids[n], id);
    }
  }

  lemma TickKeepsGood(w: World, to: int)
    requires Good(w) && w.now <= to
    ensures Good(w.(now := to))
  {
    var w' := w.(now := to);
    forall id | 0 <= id < |w'.tables.cases| ensures CaseIsFine(w', id) { assert CaseIsFine(w, id); }
    forall k | 0 <= k < |w'.inFlight| ensures OperationIsFine(w', w'.inFlight[k]) {
      assert OperationIsFine(w, w.inFlight[k]);
    }
  }

  lemma StartKeepsGood(w: World, op: Operation)
    requires Good(w) && Reads(w.tables, op, w.now)
    ensures Good(w.(inFlight := w.inFlight + [op]))
  {
    if !op.Create? { assert CaseIsFine(w, op.caseId); }
    forall id | 0 <= id < |w.tables.cases| ensures CaseIsFine(w.(inFlight := w.inFlight + [op]), id) {
      assert CaseIsFine(w, id);
    }
  }

  lemma DropKeepsGood(w: World, k: nat)
    requires Good(w) && k < |w.inFlight|
    ensures Good(w.(inFlight := Without(w.inFlight, k)))
  {
    var w' := w.(inFlight := Without(w.inFlight, k));
    forall id | 0 <= id < |w'.tables.cases| ensures CaseIsFine(w', id) { assert CaseIsFine(w, id); }
    forall j | 0 <= j < |w'.inFlight| ensures OperationIsFine(w', w'.inFlight[j]) {
      assert OperationIsFine(w, w.inFlight[if j < k then j else j + 1]);
    }
  }

  lemma OldCaseCoherentAfterCommit(w: World, k: nat, id: nat)
    requires Good(w) && k < |w.inFlight| && id < |w.tables.cases|
    ensures id < |Next(w, Finish(k)).tables.cases| && Coherent(ViewOf(Next(w, Finish(k)).tables, id), w.now)
  {
    var op := w.inFlight[k];
    assert OperationIsFine(w, op) && CaseIsFine(w, id);
    CommitSeenFromACase(w.tables, op, w.now, id);
    if Targets(op, id) { AdvanceKeepsCoherent(ViewOf(w.tables, id), op, w.now); }
  }

  /** A breach owes one more notification than before; nothing else does. */
  lemma OwedAfterAdvance(v: View, op: Operation, at: int, unsent: seq<nat>, id: nat)
    requires |v.notices| + CountOf(unsent, id) <= CountKind(v.timeline, SlaBreach)
    requires !op.Create?
    ensures var v' := if op.caseId == id then Advance(v, op, at) else v;
            |v'.notices| + CountOf(if op.Breach? then unsent + [op.caseId] else unsent, id)
            <= CountKind(v'.timeline, SlaBreach)
  {
    AppendEntry(v.timeline, EntryFor(op, at));
    CountAppend(unsent, op.caseId, id);
  }

  lemma NoticesOwedAfterCommit(w: World, k: nat, id: nat)
    requires Good(w) && k < |w.inFlight| && id < |w.tables.cases|
    ensures id < |Next(w, Finish(k)).tables.cases| && NoticesAreOwed(Next(w, Finish(k)), id)
  {
    var op := w.inFlight[k];
    assert CaseIsFine(w, id);
    CommitSeenFromACase(w.tables, op, w.now, id);
    if !op.Create? { OwedAfterAdvance(ViewOf(w.tables, id), op, w.now, w.unsent, id); }
  }

  lemma NewCaseFineAfterCommit(w: World, k: nat)
    requires Good(w) && k < |w.inFlight| && w.inFlight[k].Create?
    ensures CaseIsFine(Next(w, Finish(k)), |w.tables.cases|)
  {
    var row, id := w.inFlight[k].row, |w.tables.cases|;
    assert OperationIsFine(w, w.inFlight[k]);
    CreateSeenFromTheNewCase(w.tables, row, w.now);
    FirstViewIsCoherent(row, id, w.now);
  }

  lemma TruthAfterCommit(t: Tables, op: Operation, other: Operation, now: int)
    requires !other.Create? && other.caseId < |t.cases| && StillTrue(ViewOf(t, other.caseId), other, now)
    ensures other.caseId < |Commit(t, op, now).cases|
    ensures StillTrue(ViewOf(Commit(t, op, now), other.caseId), other, now)
  {
    CommitSeenFromACase(t, op, now, other.caseId);
    if Targets(op, other.caseId) { AdvanceKeepsTruth(ViewOf(t, other.caseId), op, now, other, now); }
  }

  lemma OperationFineAfterCommit(w: World, w': World, op: Operation, other: Operation)
    requires w'.tables == Commit(w.tables, op, w.now) && w'.now == w.now
    requires OperationIsFine(w, other) && !other.Create?
    ensures OperationIsFine(w', other)
  {
    TruthAfterCommit(w.tables, op, other, w.now);
  }

  lemma FinishKeepsNoStrays(w: World, k: nat)
    requires Good(w) && k < |w.inFlight|
    ensures var w' := Next(w, Finish(k));
            NoStrays(w'.tables) && forall id: nat :: |w'.tables.cases| <= id ==> CountOf(w'.unsent, id) == 0
  {
    var op, w' := w.inFlight[k], Next(w, Finish(k));
    assert OperationIsFine(w, op);
    CommitKeepsNoStrays(w.tables, op, w.now);
    forall id: nat | |w'.tables.cases| <= id ensures CountOf(w'.unsent, id) == 0 {
      if op.Breach? { CountAppend(w.unsent, op.caseId, id); }
    }
  }

  lemma FinishKeepsOperations(w: World, k: nat, j: nat)
    requires Good(w) && k < |w.inFlight| && j < |Next(w, Finish(k)).inFlight|
    ensures OperationIsFine(Next(w, Finish(k)), Next(w, Finish(k)).inFlight[j])
  {
    var other := w.inFlight[if j < k then j else j + 1];
    assert Next(w, Finish(k)).inFlight[j] == other;
    assert OperationIsFine(w, other);
    if !other.Create? { OperationFineAfterCommit(w, Next(w, Finish(k)), w.inFlight[k], other); }
  }

  lemma FinishKeepsCases(w: World, k: nat, id: nat)
    requires Good(w) && k < |w.inFlight| && id < |Next(w, Finish(k)).tables.cases|
    ensures CaseIsFine(Next(w, Finish(k)), id)
  {
    if id < |w.tables.cases| {
      OldCaseCoherentAfterCommit(w, k, id);
      NoticesOwedAfterCommit(w, k, id);
    } else {
      NewCaseFineAfterCommit(w, k);
    }
  }

  lemma FinishKeepsGood(w: World, k: nat)
    requires Good(w) && k < |w.inFlight|
    ensures Good(Next(w, Finish(k)))
  {
    var w' := Next(w, Finish(k));
    FinishKeepsNoStrays(w, k);
    forall id: nat | id < |w'.tables.cases| ensures CaseIsFine(w', id) {
      FinishKeepsCases(w, k, id);
    }
    forall j: nat | j < |w'.inFlight| ensures OperationIsFine(w', w'.inFlight[j]) {
      FinishKeepsOperations(w, k, j);
    }
  }

  lemma SendOrLoseKeepsGood(w: World, s: Step)
    requires Good(w) && (s.Send? || s.Lose?)
    ensures Good(Next(w, s))
  {
    var k, w' := s.k, Next(w, s);
    if k < |w.unsent| {
      var target := w.unsent[k];
      forall id: nat ensures CountOf(Without(w.unsent, k), id) == CountOf(w.unsent, id) - if target == id then 1 else 0 {
        CountWithout(w.unsent, k, id);
      }
      if target < |w.tables.cases| { NotifyKeepsNoStrays(w.tables, target); }
      forall id | 0 <= id < |w'.tables.cases| ensures CaseIsFine(w', id) {
        assert CaseIsFine(w, id);
        if target < |w.tables.cases| { NotifySeenFromACase(w.tables, target, id); }
      }
      forall j | 0 <= j < |w'.inFlight| ensures OperationIsFine(w', w'.inFlight[j]) {
        var op := w.inFlight[j];
        assert OperationIsFine(w, op);
        if !op.Create? && target < |w.tables.cases| { NotifySeenFromACase(w.tables, target, op.caseId); }
      }
    }
  }

  lemma NextKeepsGood(w: World, s: Step)
    requires Good(w)
    ensures Good(Next(w, s))
  {
    match s
    case Tick(to) => if w.now <= to { TickKeepsGood(w, to); }
    case Start(op) => if Reads(w.tables, op, w.now) { StartKeepsGood(w, op); }
    case Finish(k) => if k < |w.inFlight| { FinishKeepsGood(w, k); }
    case Abandon(k) => if k < |w.inFlight| { DropKeepsGood(w, k); }
    case Send(_) => SendOrLoseKeepsGood(w, s);
    case Lose(_) => SendOrLoseKeepsGood(w, s);
  }

  /**
    Safety of all interleavings: from empty tables, after any steps, the timeline of every case
    replays to its row, and every other law of `Coherent` holds of it.
   */
  lemma {:induction false} EveryInterleavingIsCoherent(now: int, steps: seq<Step>)
    ensures Good(Run(World(EMPTY, now, [], []), steps))
  {
    if steps == [] {
    } else {
      EveryInterleavingIsCoherent(now, steps[..|steps| - 1]);
      NextKeepsGood(Run(World(EMPTY, now, [], []), steps[..|steps| - 1]), steps[|steps| - 1]);
    }
  }

  lemma StatusIsTheReplay(now: int, steps: seq<Step>, id: nat)
    requires id < |Run(World(EMPTY, now, [], []), steps).tables.cases|
    ensures var t := Run(World(EMPTY, now, [], []), steps).tables;
            Replay(TimelineOf(t.timeline, id)).status == Some(t.cases[id].status)
  {
    EveryInterleavingIsCoherent(now, steps);
    assert CaseIsFine(Run(World(EMPTY, now, [], []), steps), id);
  }

  /** Later tables: nothing logged is taken back, and what a case was opened with stays. */
  ghost predicate Extends(t: Tables, t': Tables) {
    && |t.cases| <= |t'.cases| && t.timeline <= t'.timeline && t.events <= t'.events && t.notices <= t'.notices
    && t.complaints <= t'.complaints && t.submissions <= t'.submissions && t.evidence <= t'.evidence
    && forall id :: 0 <= id < |t.cases| ==>
         && t'.cases[id].slaDeadline == t.cases[id].slaDeadline
         && t'.cases[id].transactionId == t.cases[id].transactionId
         && t'.cases[id].claimAmount == t.cases[id].claimAmount
         && t'.cases[id].userId == t.cases[id].userId && t'.cases[id].businessId == t.cases[id].businessId
  }

  lemma CommitExtends(t: Tables, op: Operation, at: int)
    ensures Extends(t, Commit(t, op, at))
  {
  }

  /** The records are append-only, and no step of any run touches the deadline of an open case. */
  lemma {:induction false} RecordsOnlyGrow(w: World, steps: seq<Step>)
    ensures Extends(w.tables, Run(w, steps).tables)
  {
    if steps != [] {
      var s, before := steps[|steps| - 1], Run(w, steps[..|steps| - 1]);
      RecordsOnlyGrow(w, steps[..|steps| - 1]);
      if s.Finish? && s.k < |before.inFlight| { CommitExtends(before.tables, before.inFlight[s.k], before.now); }
    }
  }

  lemma {:induction false} RunConcat(w: World, a: seq<Step>, b: seq<Step>)
    ensures Run(w, a + b) == Run(Run(w, a), b)
  {
    if b == [] {
      assert a + b == a;
    } else {
      assert (a + b)[..|a + b| - 1] == a + b[..|b| - 1];
      RunConcat(w, a, b[..|b| - 1]);
    }
  }

  lemma RunOne(w: World, s: Step)
    ensures Run(w, [s]) == Next(w, s)
  {
    assert [s][..0] == [];
    assert Run(w, []) == w;
  }

  // ---------- What stale reads break, and exactly when ----------

  /** The law of serial runs: the level is the number of escalations, capped at 2. */
  ghost predicate LevelCounts(v: View) {
    v.row.escalationLevel == Cap(Escalations(v.timeline))
  }

  /** An escalation keeps the level law exactly when it read level 0 only if the row is still at 0. */
  lemma LevelLawKeptExactlyWhen(v: View, op: Operation, at: int)
    requires op.Escalate? || op.Breach?
    requires 0 <= op.read.escalationLevel <= 2
    requires LevelCounts(v)
    ensures LevelCounts(Advance(v, op, at)) <==> (op.read.escalationLevel == 0 <==> v.row.escalationLevel == 0)
  {
    AppendEntry(v.timeline, EntryFor(op, at));
  }

  /** The level falls exactly when an escalation that read level 0 commits over level 2. */
  lemma LevelFallsExactlyWhen(v: View, op: Operation, at: int)
    requires op.Escalate? || op.Breach?
    requires 0 <= op.read.escalationLevel <= 2 && 0 <= v.row.escalationLevel <= 2
    ensures Advance(v, op, at).row.escalationLevel < v.row.escalationLevel
       <==> op.read.escalationLevel == 0 && v.row.escalationLevel == 2
  {
  }

  /** The event log stays the one the timeline calls for exactly when the status read is still current. */
  lemma EventLawKeptExactlyWhen(v: View, op: Operation, now: int)
    requires op.SetStatus? || op.Escalate? || op.Breach?
    requires Coherent(v, now) && v.events == EventsCalledFor(v.timeline)
    ensures Advance(v, op, now).events == EventsCalledFor(Advance(v, op, now).timeline)
       <==> op.read.status == v.row.status
  {
    var e := EntryFor(op, now);
    var due := CaseEvent(e.caseId, Replay(v.timeline).status, Apply(Replay(v.timeline), e).status.GetOr(Open));
    AppendEntry(v.timeline, e);
    assert (v.events + EventsFor(op))[|v.events|] == EventsFor(op)[0];
    assert (v.events + [due])[|v.events|] == due;
    assert EventsFor(op) == [EventsFor(op)[0]];
  }

  /** Every automatic breach struck a case that was waiting for its provider. */
  ghost predicate BreachesStrikeWatched(timeline: seq<Entry>) {
    forall j :: 0 <= j < |timeline| && timeline[j].kind == SlaBreach ==>
      var before := Replay(timeline[..j]).status; before.Some? && Watched(before.value)
  }

  lemma StrikesAppend(timeline: seq<Entry>, e: Entry)
    requires BreachesStrikeWatched(timeline)
    ensures BreachesStrikeWatched(timeline + [e])
       <==> (e.kind == SlaBreach ==> Replay(timeline).status.Some? && Watched(Replay(timeline).status.value))
  {
    var longer := timeline + [e];
    assert longer[..|timeline|] == timeline;
    assert forall j :: 0 <= j < |timeline| ==> longer[..j] == timeline[..j];
    if BreachesStrikeWatched(longer) && e.kind == SlaBreach { assert longer[|timeline|].kind == SlaBreach; }
  }

  /** The sweep's commit is justified exactly when the case is still in a watched status by then. */
  lemma BreachJustifiedExactlyWhenStillWatched(v: View, op: Operation, now: int)
    requires op.Breach? && Coherent(v, now) && BreachesStrikeWatched(v.timeline)
    ensures BreachesStrikeWatched(Advance(v, op, now).timeline) <==> Watched(v.row.status)
  {
    StrikesAppend(v.timeline, Entry(op.caseId, SlaBreach, now));
  }

  // ---------- Runs in which those laws break ----------

  lemma RunTwo(w: World, a: Step, b: Step)
    ensures Run(w, [a, b]) == Next(Next(w, a), b)
  {
    assert [a, b] == [a] + [b];
    RunConcat(w, [a], [b]);
    RunOne(w, a);
    RunOne(Next(w, a), b);
  }

  /** Both operations read before either commits; `second` commits first. */
  function Race(n: nat, first: Operation, second: Operation): seq<Step> {
    [Start(first), Start(second)] + [Finish(n + 1), Finish(n)]
  }

  lemma RaceRun(w: World, first: Operation, second: Operation)
    requires Reads(w.tables, first, w.now) && Reads(w.tables, second, w.now)
    ensures Run(w, Race(|w.inFlight|, first, second)).tables == Commit(Commit(w.tables, second, w.now), first, w.now)
  {
    var n := |w.inFlight|;
    var read := w.(inFlight := w.inFlight + [first] + [second]);
    RunConcat(w, [Start(first), Start(second)], [Finish(n + 1), Finish(n)]);
    RunTwo(w, Start(first), Start(second));
    assert Run(w, [Start(first), Start(second)]) == read;
    RunTwo(read, Finish(n + 1), Finish(n));
    assert Without(read.inFlight, n + 1) == w.inFlight + [first];
  }

  /** The timeline of a case after two transactions on it, and its row. */
  lemma AfterTwo(t: Tables, a: Operation, b: Operation, id: nat, at: int)
    requires id < |t.cases| && Targets(a, id) && Targets(b, id)
    ensures var t' := Commit(Commit(t, a, at), b, at);
            id < |t'.cases| && ViewOf(t', id) == Advance(Advance(ViewOf(t, id), a, at), b, at)
  {
    CommitSeenFromACase(t, a, at, id);
    CommitSeenFromACase(Commit(t, a, at), b, at, id);
  }

  lemma StruckOffWatch(v: View, id: nat, read: Case, now: int)
    ensures var v' := Advance(Advance(v, SetStatus(id, read, Resolved, ""), now), Breach(id, read), now);
            v'.row.status == Escalated && !BreachesStrikeWatched(v'.timeline)
  {
    var resolved, struck := Entry(id, StatusSet(Resolved), now), Entry(id, SlaBreach, now);
    AppendEntry(v.timeline, resolved);
    var longer := v.timeline + [resolved] + [struck];
    assert longer[..|v.timeline| + 1] == v.timeline + [resolved];
    assert longer[|v.timeline| + 1].kind == SlaBreach;
  }

  /** In every world an overdue case can be resolved under the sweep's hands; it is escalated all the same. */
  lemma AnyOverdueCaseCanBeStruckAfterResolution(w: World, id: nat)
    requires id < |w.tables.cases| && Overdue(w.tables.cases[id], w.now)
    ensures var row := w.tables.cases[id];
            var t := Run(w, Race(|w.inFlight|, Breach(id, row), SetStatus(id, row, Resolved, ""))).tables;
            && id < |t.cases| && t.cases[id].status == Escalated
            && !BreachesStrikeWatched(TimelineOf(t.timeline, id))
  {
    var row := w.tables.cases[id];
    var breach, resolve := Breach(id, row), SetStatus(id, row, Resolved, "");
    RaceRun(w, breach, resolve);
    AfterTwo(w.tables, resolve, breach, id, w.now);
    StruckOffWatch(ViewOf(w.tables, id), id, row, w.now);
  }

  lemma CountedOnce(v: View, id: nat, now: int)
    requires v.row.escalationLevel == 0 && Escalations(v.timeline) == 0
    ensures var v' := Advance(Advance(v, Escalate(id, v.row), now), Escalate(id, v.row), now);
            v'.row.escalationLevel == 1 && Escalations(v'.timeline) == 2 && !LevelCounts(v')
  {
    var e := Entry(id, Escalation, now);
    AppendEntry(v.timeline, e);
    AppendEntry(v.timeline + [e], e);
  }

  /** In every reachable world two escalations of a case at level 0 can leave level 1 beside two entries. */
  lemma AnyCaseCanBeEscalatedTwiceToOne(w: World, id: nat)
    requires Good(w) && id < |w.tables.cases| && w.tables.cases[id].escalationLevel == 0
    ensures var op := Escalate(id, w.tables.cases[id]);
            var t := Run(w, Race(|w.inFlight|, op, op)).tables;
            && id < |t.cases| && t.cases[id].escalationLevel == 1
            && Escalations(TimelineOf(t.timeline, id)) == 2 && !LevelCounts(ViewOf(t, id))
  {
    var op := Escalate(id, w.tables.cases[id]);
    assert CaseIsFine(w, id);
    RaceRun(w, op, op);
    AfterTwo(w.tables, op, op, id, w.now);
    CountedOnce(ViewOf(w.tables, id), id, w.now);
  }

  /** An operation that is not disturbed. */
  function Alone(op: Operation): seq<Step> { [Start(op), Finish(0)] }

  lemma AloneRun(w: World, op: Operation)
    requires w.inFlight == [] && Reads(w.tables, op, w.now) && !op.Breach?
    ensures Run(w, Alone(op)) == w.(tables := Commit(w.tables, op, w.now))
  {
    RunTwo(w, Start(op), Finish(0));
    assert [] + [op] == [op] && Without([op], 0) == [];
  }

  /** A case is opened and submitted at once, and its deadline passes. */
  function OverdueSteps(row: Case, deadline: int): seq<Step> {
    Alone(Create(row)) + Alone(SetStatus(0, row, Submitted, "")) + [Tick(deadline)]
  }

  lemma OverdueRun(row: Case, deadline: int)
    requires IsNewRow(row) && 0 <= deadline
    ensures var w := Run(World(EMPTY, 0, [], []), OverdueSteps(row, deadline));
            w.tables.cases == [row.(status := Submitted)] && w.now == deadline && w.inFlight == []
  {
    var w, submit := World(EMPTY, 0, [], []), SetStatus(0, row, Submitted, "");
    var created := w.(tables := Commit(EMPTY, Create(row), 0));
    RunConcat(w, Alone(Create(row)) + Alone(submit), [Tick(deadline)]);
    RunConcat(w, Alone(Create(row)), Alone(submit));
    AloneRun(w, Create(row));
    assert created.tables.cases == [row];
    AloneRun(created, submit);
    RunOne(created.(tables := Commit(created.tables, submit, 0)), Tick(deadline));
  }

  /**
    A case with a deadline an hour away or later is opened and submitted, and the deadline passes.
    The sweep reads it, the case is resolved, and the sweep escalates it.
   */
  lemma SweepOverwritesAResolution(row: Case, deadline: int, steps: seq<Step>)
    requires IsNewRow(row) && row.slaDeadline == Some(deadline) && HOUR_MS <= deadline
    requires var submitted := row.(status := Submitted);
             steps == OverdueSteps(row, deadline) + Race(0, Breach(0, submitted), SetStatus(0, submitted, Resolved, ""))
    ensures var t := Run(World(EMPTY, 0, [], []), steps).tables;
            0 < |t.cases| && t.cases[0].status == Escalated && !BreachesStrikeWatched(TimelineOf(t.timeline, 0))
  {
    var w, submitted := World(EMPTY, 0, [], []), row.(status := Submitted);
    var overdue := Run(w, OverdueSteps(row, deadline));
    OverdueRun(row, deadline);
    RunConcat(w, OverdueSteps(row, deadline), Race(0, Breach(0, submitted), SetStatus(0, submitted, Resolved, "")));
    AnyOverdueCaseCanBeStruckAfterResolution(overdue, 0);
  }

  /** A case is opened, and two escalations that read it leave level 1 beside two entries. */
  lemma ConcurrentEscalationsCountOnce(row: Case, steps: seq<Step>)
    requires row == Case("u", None, 0, 1.0, Open, 0, None, "", None, None)
    requires steps == Alone(Create(row)) + Race(0, Escalate(0, row), Escalate(0, row))
    ensures var t := Run(World(EMPTY, 5, [], []), steps).tables;
            && |t.cases| == 1 && t.cases[0].escalationLevel == 1
            && Escalations(TimelineOf(t.timeline, 0)) == 2 && !LevelCounts(ViewOf(t, 0))
  {
    var w := World(EMPTY, 5, [], []);
    var created := w.(tables := Commit(EMPTY, Create(row), 5));
    RunConcat(w, Alone(Create(row)), Race(0, Escalate(0, row), Escalate(0, row)));
    AloneRun(w, Create(row));
    assert created.tables.cases == [row];
    EveryInterleavingIsCoherent(5, Alone(Create(row)));
    AnyCaseCanBeEscalatedTwiceToOne(created, 0);
    RaceRun(created, Escalate(0, row), Escalate(0, row));
  }

  // ---------- What the architecture document promises beyond the code ----------

  /** "One transaction, one rescue case." */
  ghost predicate OneCasePerTransaction(t: Tables) {
    forall i, j :: 0 <= i < j < |t.cases| ==> t.cases[i].transactionId != t.cases[j].transactionId
  }

  /** Nothing checks it: an operation keeps it exactly when it does not open a second case on a transaction. */
  lemma OneCaseKeptExactlyWhen(t: Tables, op: Operation, at: int)
    requires OneCasePerTransaction(t)
    ensures OneCasePerTransaction(Commit(t, op, at))
       <==> (op.Create? ==> forall i :: 0 <= i < |t.cases| ==> t.cases[i].transactionId != op.row.transactionId)
  {
    var t' := Commit(t, op, at);
    if op.Create? {
      assert t'.cases[|t.cases|] == op.row;
      assert forall i :: 0 <= i < |t.cases| ==> t'.cases[i] == t.cases[i];
    } else {
      assert forall i :: 0 <= i < |t'.cases| ==> t'.cases[i].transactionId == t.cases[i].transactionId;
    }
  }

  /** The step of a run that is at position `n` commits the opening of a case on the transaction. */
  ghost predicate Opens(w: World, steps: seq<Step>, n: nat, transactionId: nat) {
    && n < |steps| && steps[n].Finish?
    && var before := Run(w, steps[..n]);
       && steps[n].k < |before.inFlight| && before.inFlight[steps[n].k].Create?
       && before.inFlight[steps[n].k].row.transactionId == transactionId
  }

  ghost predicate HasCase(t: Tables, transactionId: nat) {
    exists i :: 0 <= i < |t.cases| && t.cases[i].transactionId == transactionId
  }

  /** What the last step of a run opens, and that the earlier steps open what they did without it. */
  lemma OpensByLast(w: World, steps: seq<Step>, n: nat, transactionId: nat)
    requires steps != [] && n < |steps| - 1
    ensures Opens(w, steps, n, transactionId) <==> Opens(w, steps[..|steps| - 1], n, transactionId)
  {
    assert steps[..|steps| - 1][..n] == steps[..n];
  }

  lemma CommitOnTransaction(t: Tables, op: Operation, at: int, transactionId: nat)
    ensures HasCase(Commit(t, op, at), transactionId)
       <==> HasCase(t, transactionId) || (op.Create? && op.row.transactionId == transactionId)
  {
    var t' := Commit(t, op, at);
    if op.Create? { assert t'.cases[|t.cases|] == op.row; }
    if HasCase(t, transactionId) {
      var i :| 0 <= i < |t.cases| && t.cases[i].transactionId == transactionId;
      assert t'.cases[i].transactionId == transactionId;
    }
  }

  lemma OpensAtLast(w: World, steps: seq<Step>, transactionId: nat)
    requires steps != []
    ensures var before := Run(w, steps[..|steps| - 1]);
            HasCase(Run(w, steps).tables, transactionId)
            <==> HasCase(before.tables, transactionId) || Opens(w, steps, |steps| - 1, transactionId)
  {
    var s, before := steps[|steps| - 1], Run(w, steps[..|steps| - 1]);
    if s.Finish? && s.k < |before.inFlight| {
      CommitOnTransaction(before.tables, before.inFlight[s.k], before.now, transactionId);
    } else if s.Send? {
      assert Run(w, steps).tables.cases == before.tables.cases;
    }
  }

  /** The transactions that have a case are those for which some step of the run opened one. */
  lemma {:induction false} CasesAreOpened(now: int, steps: seq<Step>, transactionId: nat)
    ensures HasCase(Run(World(EMPTY, now, [], []), steps).tables, transactionId)
       <==> exists n: nat :: Opens(World(EMPTY, now, [], []), steps, n, transactionId)
  {
    var w := World(EMPTY, now, [], []);
    if steps != [] {
      var m := |steps| - 1;
      CasesAreOpened(now, steps[..m], transactionId);
      OpensAtLast(w, steps, transactionId);
      if n: nat :| Opens(w, steps[..m], n, transactionId) {
        OpensByLast(w, steps, n, transactionId);
      } else if n: nat :| n < m && Opens(w, steps, n, transactionId) {
        OpensByLast(w, steps, n, transactionId);
      }
    }
  }

  ghost predicate OpenedTwice(w: World, steps: seq<Step>) {
    exists i: nat, j: nat, transactionId: nat ::
      i < j && Opens(w, steps, i, transactionId) && Opens(w, steps, j, transactionId)
  }

  ghost predicate OpenedAgain(w: World, init: seq<Step>, steps: seq<Step>, m: nat) {
    exists i: nat, transactionId: nat :: Opens(w, init, i, transactionId) && Opens(w, steps, m, transactionId)
  }

  lemma OpenedTwiceByLast(w: World, steps: seq<Step>)
    requires steps != []
    ensures OpenedTwice(w, steps)
       <==> OpenedTwice(w, steps[..|steps| - 1]) || OpenedAgain(w, steps[..|steps| - 1], steps, |steps| - 1)
  {
    var init := steps[..|steps| - 1];
    forall n: nat, transactionId: nat | n < |steps| - 1
      ensures Opens(w, steps, n, transactionId) <==> Opens(w, init, n, transactionId)
    {
      OpensByLast(w, steps, n, transactionId);
    }
  }

  lemma OneCaseAfterStep(w: World, s: Step)
    ensures OneCasePerTransaction(Next(w, s).tables)
       <==> OneCasePerTransaction(w.tables)
            && (s.Finish? && s.k < |w.inFlight| && w.inFlight[s.k].Create?
                ==> !HasCase(w.tables, w.inFlight[s.k].row.transactionId))
  {
    var t, t' := w.tables, Next(w, s).tables;
    if s.Finish? && s.k < |w.inFlight| {
      if OneCasePerTransaction(t) {
        OneCaseKeptExactlyWhen(t, w.inFlight[s.k], w.now);
      } else {
        assert forall i :: 0 <= i < |t.cases| ==> i < |t'.cases| && t'.cases[i].transactionId == t.cases[i].transactionId;
      }
    } else {
      assert t'.cases == t.cases;
    }
  }

  /** After any run each transaction has at most one case exactly when no transaction had a case opened twice. */
  lemma {:induction false} OneCaseExactlyWhenOpenedOnce(now: int, steps: seq<Step>)
    ensures OneCasePerTransaction(Run(World(EMPTY, now, [], []), steps).tables)
       <==> !OpenedTwice(World(EMPTY, now, [], []), steps)
  {
    var w := World(EMPTY, now, [], []);
    if steps != [] {
      var m := |steps| - 1;
      var before, s := Run(w, steps[..m]), steps[m];
      OneCaseExactlyWhenOpenedOnce(now, steps[..m]);
      OpenedTwiceByLast(w, steps);
      OneCaseAfterStep(before, s);
      if s.Finish? && s.k < |before.inFlight| && before.inFlight[s.k].Create? {
        CasesAreOpened(now, steps[..m], before.inFlight[s.k].row.transactionId);
        assert Opens(w, steps, m, before.inFlight[s.k].row.transactionId);
      }
    }
  }

  /** Two cases are opened on one transaction, one after the other. */
  lemma TwoCasesOnOneTransaction(row: Case, steps: seq<Step>)
    requires IsNewRow(row) && steps == Alone(Create(row)) + Alone(Create(row))
    ensures !OneCasePerTransaction(Run(World(EMPTY, 5, [], []), steps).tables)
  {
    var w := World(EMPTY, 5, [], []);
    var created := w.(tables := Commit(EMPTY, Create(row), 5));
    RunConcat(w, Alone(Create(row)), Alone(Create(row)));
    AloneRun(w, Create(row));
    AloneRun(created, Create(row));
    assert Commit(created.tables, Create(row), 5).cases == [row, row];
    assert [row, row][0].transactionId == [row, row][1].transactionId;
  }

  /** The arrows of the case lifecycle. */
  const LIFECYCLE: set<(CaseStatus, CaseStatus)> := {
    (Open, EvidenceRequired), (Open, EvidenceReview), (EvidenceRequired, EvidenceReview),
    (EvidenceReview, ReadyForComplaint), (ReadyForComplaint, ComplaintPrepared), (ComplaintPrepared, Submitted),
    (Submitted, ProviderReview), (ProviderReview, Pending), (Pending, Resolved), (Pending, PartiallyResolved),
    (Pending, Rejected), (Pending, Escalated), (Rejected, Escalated), (Escalated, Resolved), (Resolved, Closed),
    (PartiallyResolved, Closed)}

  /** The sweep follows an arrow exactly when the overdue case is PENDING; it also strikes two other statuses. */
  lemma SweepFollowsTheLifecycleExactlyWhenPending(row: Case, now: int)
    requires Overdue(row, now)
    ensures (row.status, Escalated'(row, row).status) in LIFECYCLE <==> row.status == Pending
  {
  }

  /** The entry at `j` takes an arrow, unless it is uploaded evidence. */
  ghost predicate TakesArrow(timeline: seq<Entry>, j: nat)
    requires j < |timeline|
  {
    timeline[j].kind.EvidenceUploaded? ||
    (Replay(timeline[..j]).status.GetOr(Open), Replay(timeline[..j + 1]).status.GetOr(Open)) in LIFECYCLE
  }

  ghost predicate FollowsLifecycle(timeline: seq<Entry>) {
    forall j: nat :: 1 <= j < |timeline| ==> TakesArrow(timeline, j)
  }

  /** Where an operation may find a case so that committing it takes an arrow. */
  predicate HasArrow(op: Operation, status: CaseStatus)
    requires !op.Create?
  {
    match op
    case SetStatus(_, _, to, _) => (status, to) in LIFECYCLE
    case Escalate(_, _) => status == Pending || status == Rejected
    case Breach(_, _) => status == Pending || status == Rejected
    case Prepare(_) => status == ReadyForComplaint
    case Submit(_, _) => status == ComplaintPrepared
    case Upload(_) => true
  }

  lemma ArrowOfPrefix(timeline: seq<Entry>, e: Entry, j: nat)
    requires j < |timeline|
    ensures TakesArrow(timeline + [e], j) <==> TakesArrow(timeline, j)
  {
    assert (timeline + [e])[..j] == timeline[..j] && (timeline + [e])[..j + 1] == timeline[..j + 1];
  }

  lemma ArrowOfLast(timeline: seq<Entry>, e: Entry)
    ensures TakesArrow(timeline + [e], |timeline|)
       <==> (e.kind.EvidenceUploaded?
             || (Replay(timeline).status.GetOr(Open), Apply(Replay(timeline), e).status.GetOr(Open)) in LIFECYCLE)
  {
    AppendEntry(timeline, e);
    assert (timeline + [e])[..|timeline|] == timeline && (timeline + [e])[..|timeline| + 1] == timeline + [e];
  }

  lemma LifecycleAppend(timeline: seq<Entry>, e: Entry)
    requires timeline != [] && FollowsLifecycle(timeline)
    ensures FollowsLifecycle(timeline + [e]) <==> TakesArrow(timeline + [e], |timeline|)
  {
    forall j: nat | 1 <= j < |timeline| ensures TakesArrow(timeline + [e], j) { ArrowOfPrefix(timeline, e, j); }
  }

  lemma ArrowsOf(op: Operation, row: Case, at: int)
    requires !op.Create?
    ensures KindOf(op).EvidenceUploaded? || (row.status, RowAfter(op, row, at).status) in LIFECYCLE <==> HasArrow(op, row.status)
  {
  }

  /**
    No operation checks the diagram. Committed over whatever status the case has by then, each one
    follows it exactly from the statuses with an arrow for it.
   */
  lemma LifecycleKeptExactlyWhen(v: View, op: Operation, now: int)
    requires !op.Create? && Coherent(v, now) && FollowsLifecycle(v.timeline)
    ensures FollowsLifecycle(Advance(v, op, now).timeline) <==> HasArrow(op, v.row.status)
  {
    var e := EntryFor(op, now);
    LifecycleAppend(v.timeline, e);
    ArrowOfLast(v.timeline, e);
    RowAfterFollows(op, v.row, now);
    ArrowsOf(op, v.row, now);
  }

  lemma OpenFollowsLifecycle(row: Case, at: int)
    requires IsNewRow(row)
    ensures var v := FirstView(row, 0, at);
            && FollowsLifecycle(v.timeline)
            && !FollowsLifecycle(Advance(v, Escalate(0, row), at).timeline)
  {
    var v := FirstView(row, 0, at);
    FirstViewIsCoherent(row, 0, at);
    LifecycleKeptExactlyWhen(v, Escalate(0, row), at);
  }

  /** A case is opened and escalated at once: the diagram has no such arrow. */
  lemma EscalationLeavesTheLifecycle(row: Case, steps: seq<Step>)
    requires IsNewRow(row) && steps == Alone(Create(row)) + Alone(Escalate(0, row))
    ensures !FollowsLifecycle(TimelineOf(Run(World(EMPTY, 5, [], []), steps).tables.timeline, 0))
  {
    var w := World(EMPTY, 5, [], []);
    var created := w.(tables := Commit(EMPTY, Create(row), 5));
    RunConcat(w, Alone(Create(row)), Alone(Escalate(0, row)));
    AloneRun(w, Create(row));
    assert created.tables.cases == [row];
    AloneRun(created, Escalate(0, row));
    CreateSeenFromTheNewCase(EMPTY, row, 5);
    CommitSeenFromACase(created.tables, Escalate(0, row), 5, 0);
    OpenFollowsLifecycle(row, 5);
  }
}
