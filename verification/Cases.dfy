/**
  The tables of rescue cases and the database transactions that write them: opening a case, setting
  its status, escalating it by hand or by the SLA sweep, preparing and submitting a complaint, and
  adding evidence. Rows are never deleted, so a row's id is its position in its table.

  `View` is what the tables say about one case. `CommitSeenFromACase` shows that a transaction
  changes the view of its own case only, so every law about cases is proved on views.
 */
module Cases {
  import opened Wrappers

  datatype CaseStatus =
    | Open | EvidenceRequired | EvidenceReview | ReadyForComplaint | ComplaintPrepared | Submitted
    | ProviderReview | Pending | Resolved | PartiallyResolved | Rejected | Escalated | Closed

  datatype EntryKind =
    | CaseCreated | StatusSet(to: CaseStatus) | Escalation | SlaBreach
    | ComplaintGenerated | ComplaintSubmitted | EvidenceUploaded

  datatype Entry = Entry(caseId: nat, kind: EntryKind, at: int)

  datatype CaseEvent = CaseEvent(caseId: nat, fromStatus: Option<CaseStatus>, toStatus: CaseStatus)

  datatype Case = Case(
    userId: string, businessId: Option<string>, transactionId: nat, claimAmount: real,
    status: CaseStatus, escalationLevel: int, slaDeadline: Option<int>,
    resolutionNotes: string, resolvedAt: Option<int>, closedAt: Option<int>)

  datatype Notice = Notice(userId: string, caseId: nat)

  datatype Tables = Tables(
    cases: seq<Case>, timeline: seq<Entry>, events: seq<CaseEvent>,
    complaints: seq<nat>,    // complaint id -> case id
    submissions: seq<nat>,   // submission id -> complaint id
    evidence: seq<nat>,      // evidence id -> case id
    notices: seq<Notice>)

  const EMPTY := Tables([], [], [], [], [], [], [])

  // ---------- The database transactions ----------

  /** A transaction waiting to be committed, with the rows that were read for it. */
  datatype Operation =
    | Create(row: Case)
    | SetStatus(caseId: nat, read: Case, to: CaseStatus, notes: string)
    | Escalate(caseId: nat, read: Case)
    | Breach(caseId: nat, read: Case)
    | Prepare(caseId: nat)
    | Submit(complaintId: nat, caseId: nat)
    | Upload(caseId: nat)

  const HOUR_MS := 60 * 60 * 1000

  predicate Watched(status: CaseStatus) { status in {Submitted, ProviderReview, Pending} }

  /** What the SLA sweep selects. */
  predicate Overdue(c: Case, now: int) {
    Watched(c.status) && c.slaDeadline.Some? && c.slaDeadline.value <= now
  }

  function NextLevel(level: int): int { if level + 1 < 2 then level + 1 else 2 }

  predicate IsNewRow(row: Case) {
    row.status == Open && row.escalationLevel == 0 && row.resolutionNotes == ""
    && row.resolvedAt == None && row.closedAt == None
  }

  /** The row after its status was set: the notes fall back on those that were read. */
  function WithStatus(row: Case, read: Case, to: CaseStatus, notes: string, at: int): Case {
    row.(status := to,
         resolutionNotes := if notes != "" then notes else read.resolutionNotes,
         resolvedAt := if to == Resolved || to == PartiallyResolved then Some(at) else row.resolvedAt,
         closedAt := if to == Closed then Some(at) else row.closedAt)
  }

  function Escalated'(row: Case, read: Case): Case {
    row.(status := Escalated, escalationLevel := NextLevel(read.escalationLevel))
  }

  // What a transaction on an existing case writes: the row, a timeline entry, maybe an event.

  function RowAfter(op: Operation, row: Case, at: int): Case
    requires !op.Create?
  {
    match op
    case SetStatus(_, read, to, notes) => WithStatus(row, read, to, notes, at)
    case Escalate(_, read) => Escalated'(row, read)
    case Breach(_, read) => Escalated'(row, read)
    case Prepare(_) => row.(status := ComplaintPrepared)
    case Submit(_, _) => row.(status := Submitted)
    case Upload(_) => row
  }

  function KindOf(op: Operation): EntryKind {
    match op
    case Create(_) => CaseCreated
    case SetStatus(_, _, to, _) => StatusSet(to)
    case Escalate(_, _) => Escalation
    case Breach(_, _) => SlaBreach
    case Prepare(_) => ComplaintGenerated
    case Submit(_, _) => ComplaintSubmitted
    case Upload(_) => EvidenceUploaded
  }

  function EventsFor(op: Operation): seq<CaseEvent>
    requires !op.Create?
  {
    match op
    case SetStatus(id, read, to, _) => [CaseEvent(id, Some(read.status), to)]
    case Escalate(id, read) => [CaseEvent(id, Some(read.status), Escalated)]
    case Breach(id, read) => [CaseEvent(id, Some(read.status), Escalated)]
    case Prepare(_) => []
    case Submit(_, _) => []
    case Upload(_) => []
  }

  function EntryFor(op: Operation, at: int): Entry
    requires !op.Create?
  {
    Entry(op.caseId, KindOf(op), at)
  }

  predicate Targets(op: Operation, id: nat) { !op.Create? && op.caseId == id }

  /** Commits at time `at`. An update of a row that does not exist is rolled back. */
  function Commit(t: Tables, op: Operation, at: int): Tables {
    if op.Create? then
      t.(cases := t.cases + [op.row],
         timeline := t.timeline + [Entry(|t.cases|, CaseCreated, at)],
         events := t.events + [CaseEvent(|t.cases|, None, Open)])
    else if op.caseId >= |t.cases| then t
    else
      t.(cases := t.cases[op.caseId := RowAfter(op, t.cases[op.caseId], at)],
         timeline := t.timeline + [EntryFor(op, at)],
         events := t.events + EventsFor(op),
         complaints := t.complaints + (if op.Prepare? then [op.caseId] else []),
         submissions := t.submissions + (if op.Submit? then [op.complaintId] else []),
         evidence := t.evidence + (if op.Upload? then [op.caseId] else []))
  }

  /** The rows that an operation needs are those it read. */
  predicate Reads(t: Tables, op: Operation, now: int) {
    match op
    case Create(row) => IsNewRow(row)
    case SetStatus(id, read, _, _) => id < |t.cases| && t.cases[id] == read
    case Escalate(id, read) => id < |t.cases| && t.cases[id] == read
    case Breach(id, read) => id < |t.cases| && t.cases[id] == read && Overdue(read, now)
    case Prepare(id) => id < |t.cases|
    case Submit(complaintId, id) => complaintId < |t.complaints| && t.complaints[complaintId] == id && id < |t.cases|
    case Upload(id) => id < |t.cases|
  }

  function Notify(t: Tables, id: nat): Tables
    requires id < |t.cases|
  {
    t.(notices := t.notices + [Notice(t.cases[id].userId, id)])
  }

  // ---------- Replaying a timeline ----------

  /** What the timeline of a case says about its row. */
  datatype Replayed = Replayed(status: Option<CaseStatus>, resolvedAt: Option<int>, closedAt: Option<int>)

  function Apply(r: Replayed, e: Entry): Replayed {
    match e.kind
    case CaseCreated => r.(status := Some(Open))
    case StatusSet(to) =>
      Replayed(Some(to),
               if to == Resolved || to == PartiallyResolved then Some(e.at) else r.resolvedAt,
               if to == Closed then Some(e.at) else r.closedAt)
    case Escalation => r.(status := Some(Escalated))
    case SlaBreach => r.(status := Some(Escalated))
    case ComplaintGenerated => r.(status := Some(ComplaintPrepared))
    case ComplaintSubmitted => r.(status := Some(Submitted))
    case EvidenceUploaded => r
  }

  function Replay(timeline: seq<Entry>): Replayed {
    if timeline == [] then Replayed(None, None, None)
    else Apply(Replay(timeline[..|timeline| - 1]), timeline[|timeline| - 1])
  }

  predicate Escalates(kind: EntryKind) { kind.Escalation? || kind.SlaBreach? }

  function Escalations(timeline: seq<Entry>): nat {
    if timeline == [] then 0
    else Escalations(timeline[..|timeline| - 1]) + if Escalates(timeline[|timeline| - 1].kind) then 1 else 0
  }

  function CountKind(timeline: seq<Entry>, kind: EntryKind): nat {
    if timeline == [] then 0
    else CountKind(timeline[..|timeline| - 1], kind) + if timeline[|timeline| - 1].kind == kind then 1 else 0
  }

  /** The entries that are written together with a case event. */
  predicate Witnessed(kind: EntryKind) { kind.CaseCreated? || kind.StatusSet? || Escalates(kind) }

  /** The case events that a timeline calls for, each starting from the status replayed so far. */
  function EventsCalledFor(timeline: seq<Entry>): seq<CaseEvent> {
    if timeline == [] then []
    else
      var before, e := timeline[..|timeline| - 1], timeline[|timeline| - 1];
      var called := EventsCalledFor(before);
      if Witnessed(e.kind) then called + [CaseEvent(e.caseId, Replay(before).status, Replay(timeline).status.GetOr(Open))]
      else called
  }

  /** The statuses that case events arrive at. */
  function Arrivals(events: seq<CaseEvent>): seq<CaseStatus> {
    if events == [] then [] else Arrivals(events[..|events| - 1]) + [events[|events| - 1].toStatus]
  }

  // ---------- One case ----------

  function TimelineOf(timeline: seq<Entry>, id: nat): seq<Entry> {
    if timeline == [] then []
    else
      var e := timeline[|timeline| - 1];
      var before := TimelineOf(timeline[..|timeline| - 1], id);
      if e.caseId == id then before + [e] else before
  }

  function EventsOf(events: seq<CaseEvent>, id: nat): seq<CaseEvent> {
    if events == [] then []
    else
      var e := events[|events| - 1];
      var before := EventsOf(events[..|events| - 1], id);
      if e.caseId == id then before + [e] else before
  }

  function CountOf(ids: seq<nat>, id: nat): nat {
    if ids == [] then 0 else CountOf(ids[..|ids| - 1], id) + if ids[|ids| - 1] == id then 1 else 0
  }

  function NoticesOf(notices: seq<Notice>, id: nat): seq<Notice> {
    if notices == [] then []
    else
      var n := notices[|notices| - 1];
      var before := NoticesOf(notices[..|notices| - 1], id);
      if n.caseId == id then before + [n] else before
  }

  datatype View = View(
    row: Case, timeline: seq<Entry>, events: seq<CaseEvent>,
    complaints: nat, evidence: nat, notices: seq<Notice>)

  function ViewOf(t: Tables, id: nat): View
    requires id < |t.cases|
  {
    View(t.cases[id], TimelineOf(t.timeline, id), EventsOf(t.events, id),
         CountOf(t.complaints, id), CountOf(t.evidence, id), NoticesOf(t.notices, id))
  }

  /** A transaction seen from the case it targets. */
  function Advance(v: View, op: Operation, at: int): View
    requires !op.Create?
  {
    View(RowAfter(op, v.row, at), v.timeline + [EntryFor(op, at)], v.events + EventsFor(op),
         v.complaints + (if op.Prepare? then 1 else 0), v.evidence + (if op.Upload? then 1 else 0), v.notices)
  }

  function FirstView(row: Case, id: nat, at: int): View {
    View(row, [Entry(id, CaseCreated, at)], [CaseEvent(id, None, Open)], 0, 0, [])
  }

  /** No record of any table is about a case that does not exist. */
  ghost predicate NoStrays(t: Tables) {
    forall id: nat :: |t.cases| <= id ==>
      && TimelineOf(t.timeline, id) == [] && EventsOf(t.events, id) == []
      && CountOf(t.complaints, id) == 0 && CountOf(t.evidence, id) == 0 && NoticesOf(t.notices, id) == []
  }

  lemma TimelineAppend(timeline: seq<Entry>, e: Entry, id: nat)
    ensures TimelineOf(timeline + [e], id)
         == if e.caseId == id then TimelineOf(timeline, id) + [e] else TimelineOf(timeline, id)
  {
    assert (timeline + [e])[..|timeline|] == timeline;
  }

  lemma EventsAppend(events: seq<CaseEvent>, e: CaseEvent, id: nat)
    ensures EventsOf(events + [e], id)
         == if e.caseId == id then EventsOf(events, id) + [e] else EventsOf(events, id)
  {
    assert (events + [e])[..|events|] == events;
  }

  lemma CountAppend(ids: seq<nat>, x: nat, id: nat)
    ensures CountOf(ids + [x], id) == CountOf(ids, id) + if x == id then 1 else 0
  {
    assert (ids + [x])[..|ids|] == ids;
  }

  lemma NoticesAppend(notices: seq<Notice>, n: Notice, id: nat)
    ensures NoticesOf(notices + [n], id)
         == if n.caseId == id then NoticesOf(notices, id) + [n] else NoticesOf(notices, id)
  {
    assert (notices + [n])[..|notices|] == notices;
  }

  lemma EventsForAppend(events: seq<CaseEvent>, op: Operation, id: nat)
    requires !op.Create?
    ensures EventsOf(events + EventsFor(op), id)
         == if op.caseId == id then EventsOf(events, id) + EventsFor(op) else EventsOf(events, id)
  {
    if EventsFor(op) == [] {
      assert events + EventsFor(op) == events && EventsOf(events, id) + EventsFor(op) == EventsOf(events, id);
    } else {
      EventsAppend(events, EventsFor(op)[0], id);
      assert EventsFor(op) == [EventsFor(op)[0]];
    }
  }

  lemma CountMaybeAppend(ids: seq<nat>, added: bool, x: nat, id: nat)
    ensures CountOf(ids + (if added then [x] else []), id) == CountOf(ids, id) + if added && x == id then 1 else 0
  {
    if added { CountAppend(ids, x, id); } else { assert ids + [] == ids; }
  }

  /** What a transaction does to the records about one case id. */
  lemma CommitRecords(t: Tables, op: Operation, at: int, id: nat)
    requires !op.Create? && op.caseId < |t.cases|
    ensures var t' := Commit(t, op, at);
            && t'.notices == t.notices
            && TimelineOf(t'.timeline, id)
               == (if op.caseId == id then TimelineOf(t.timeline, id) + [EntryFor(op, at)] else TimelineOf(t.timeline, id))
            && EventsOf(t'.events, id)
               == (if op.caseId == id then EventsOf(t.events, id) + EventsFor(op) else EventsOf(t.events, id))
            && CountOf(t'.complaints, id) == CountOf(t.complaints, id) + (if op.Prepare? && op.caseId == id then 1 else 0)
            && CountOf(t'.evidence, id) == CountOf(t.evidence, id) + (if op.Upload? && op.caseId == id then 1 else 0)
  {
    TimelineAppend(t.timeline, EntryFor(op, at), id);
    EventsForAppend(t.events, op, id);
    CountMaybeAppend(t.complaints, op.Prepare?, op.caseId, id);
    CountMaybeAppend(t.evidence, op.Upload?, op.caseId, id);
  }

  lemma CreateSeenFromACase(t: Tables, row: Case, at: int, id: nat)
    requires id < |t.cases|
    ensures ViewOf(Commit(t, Create(row), at), id) == ViewOf(t, id)
  {
    TimelineAppend(t.timeline, Entry(|t.cases|, CaseCreated, at), id);
    EventsAppend(t.events, CaseEvent(|t.cases|, None, Open), id);
  }

  /** A transaction changes the view of the case it targets, and no other. */
  lemma CommitSeenFromACase(t: Tables, op: Operation, at: int, id: nat)
    requires id < |t.cases|
    ensures id < |Commit(t, op, at).cases|
    ensures ViewOf(Commit(t, op, at), id)
         == if Targets(op, id) then Advance(ViewOf(t, id), op, at) else ViewOf(t, id)
  {
    if op.Create? {
      CreateSeenFromACase(t, op.row, at, id);
    } else if op.caseId < |t.cases| {
      CommitRecords(t, op, at, id);
      assert Commit(t, op, at).cases[id] == if op.caseId == id then RowAfter(op, t.cases[id], at) else t.cases[id];
    }
  }

  lemma CreateSeenFromTheNewCase(t: Tables, row: Case, at: int)
    requires NoStrays(t)
    ensures ViewOf(Commit(t, Create(row), at), |t.cases|) == FirstView(row, |t.cases|, at)
  {
    TimelineAppend(t.timeline, Entry(|t.cases|, CaseCreated, at), |t.cases|);
    EventsAppend(t.events, CaseEvent(|t.cases|, None, Open), |t.cases|);
  }

  lemma CommitKeepsNoStrays(t: Tables, op: Operation, at: int)
    requires NoStrays(t)
    ensures NoStrays(Commit(t, op, at))
  {
    var t' := Commit(t, op, at);
    forall id: nat | |t'.cases| <= id
      ensures && TimelineOf(t'.timeline, id) == [] && EventsOf(t'.events, id) == []
              && CountOf(t'.complaints, id) == 0 && CountOf(t'.evidence, id) == 0 && NoticesOf(t'.notices, id) == []
    {
      if op.Create? {
        TimelineAppend(t.timeline, Entry(|t.cases|, CaseCreated, at), id);
        EventsAppend(t.events, CaseEvent(|t.cases|, None, Open), id);
      } else if op.caseId < |t.cases| {
        CommitRecords(t, op, at, id);
      }
    }
  }

  lemma NotifySeenFromACase(t: Tables, target: nat, id: nat)
    requires target < |t.cases| && id < |t.cases|
    ensures ViewOf(Notify(t, target), id)
         == if id == target then ViewOf(t, id).(notices := ViewOf(t, id).notices + [Notice(t.cases[id].userId, id)])
            else ViewOf(t, id)
  {
    NoticesAppend(t.notices, Notice(t.cases[target].userId, target), id);
  }

  lemma NotifyKeepsNoStrays(t: Tables, target: nat)
    requires target < |t.cases| && NoStrays(t)
    ensures NoStrays(Notify(t, target))
  {
    forall id: nat | |t.cases| <= id ensures NoticesOf(Notify(t, target).notices, id) == [] {
      NoticesAppend(t.notices, Notice(t.cases[target].userId, target), id);
    }
  }
}
