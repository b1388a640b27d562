/** The services that write rescue cases, each method proved against the transaction it commits. */
module CaseServices {
  import opened Wrappers
  import opened Cases
  import opened CaseSerial
  import R = CaseRuns
  import L = Ledger
  import Text

  datatype Error = NotFound | BadRequest | ForeignKey

  /** Details from which a transaction is recorded when a case names none. */
  datatype TransactionDetails = TransactionDetails(publicReference: string)

  const MAX_FILE_SIZE := 10 * 1024 * 1024
  const ALLOWED_MIME_TYPES := {"image/jpeg", "image/png", "image/webp", "application/pdf"}

  /** An uploaded file, with the malware scanner's verdict on it. */
  datatype File = File(mimeType: string, size: nat, isClean: bool)

  /** The deadline that opening a case at `now` gives it. */
  function DeadlineFor(slaHours: map<string, int>, providerId: Option<string>, now: int): Option<int> {
    if providerId.Some? && providerId.value in slaHours then Some(now + slaHours[providerId.value] * HOUR_MS) else None
  }

  /** The foreign key of providers: a row names none, or one that exists. */
  predicate ProviderKnown(slaHours: map<string, int>, providerId: Option<string>) {
    providerId.Some? ==> providerId.value in slaHours
  }

  /** The foreign key of complaints, out of the invariant of all runs. */
  lemma ComplaintsNameCases(t: Tables, complaintId: nat)
    requires NoStrays(t) && complaintId < |t.complaints|
    ensures t.complaints[complaintId] < |t.cases|
  {
    CountsOccurrence(t.complaints, complaintId);
  }

  lemma {:induction false} CountsOccurrence(ids: seq<nat>, k: nat)
    requires k < |ids|
    ensures 0 < CountOf(ids, ids[k])
  {
    if k < |ids| - 1 { CountsOccurrence(ids[..|ids| - 1], k); }
  }

  /** Every case names one of the first `n` transactions. */
  ghost predicate ForeignKeys(t: Tables, n: nat) {
    forall i :: 0 <= i < |t.cases| ==> t.cases[i].transactionId < n
  }

  /** No operation but opening a case touches the reference, so the foreign key of cases holds for good. */
  lemma CommitKeepsForeignKeys(t: Tables, op: Operation, at: int, n: nat, more: nat)
    requires ForeignKeys(t, n) && n <= more
    requires op.Create? ==> op.row.transactionId < more
    ensures ForeignKeys(Commit(t, op, at), more)
  {
  }

  /** Opening a case keeps one case per transaction exactly when its transaction has none yet. */
  lemma OpeningKeepsOneCase(t: Tables, row: Case, at: int)
    requires R.OneCasePerTransaction(t)
    ensures R.OneCasePerTransaction(Commit(t, Create(row), at)) <==> !R.HasCase(t, row.transactionId)
  {
    R.OneCaseKeptExactlyWhen(t, Create(row), at);
  }

  /** What opening a case among `n` transactions does to both, be its transaction new or one of them. */
  lemma CaseOpened(t: Tables, t': Tables, row: Case, at: int, n: nat, more: nat)
    requires IsNewRow(row) && t' == Serve(t, One(Create(row)), at) && row.transactionId < more && n <= more
    ensures ForeignKeys(t, n) ==> ForeignKeys(t', more)
    ensures R.OneCasePerTransaction(t) && ForeignKeys(t, n) ==>
              (R.OneCasePerTransaction(t') <==> n <= row.transactionId || !R.HasCase(t, row.transactionId))
  {
    if ForeignKeys(t, n) { CommitKeepsForeignKeys(t, Create(row), at, n, more); }
    if R.OneCasePerTransaction(t) { OpeningKeepsOneCase(t, row, at); }
  }

  class CaseStore {
    var cases: seq<Case>
    var timeline: seq<Entry>
    var events: seq<CaseEvent>
    var complaints: seq<nat>
    var submissions: seq<nat>
    var evidence: seq<nat>
    var notices: seq<Notice>
    const ledger: L.LedgerService
    const slaHours: map<string, int>  // by provider id

    ghost function State(): Tables reads this {
      Tables(cases, timeline, events, complaints, submissions, evidence, notices)
    }

    constructor (ledger: L.LedgerService, slaHours: map<string, int>)
      ensures State() == EMPTY && this.ledger == ledger && this.slaHours == slaHours
    {
      this.ledger := ledger;
      this.slaHours := slaHours;
      cases, timeline, events, complaints := [], [], [], [];
      submissions, evidence, notices := [], [], [];
    }

    /** The transaction that opens a case; the transaction it names must exist. */
    method OpenCase(userId: string, businessId: Option<string>, transactionId: nat, claimAmount: real,
                    slaDeadline: Option<int>, now: int) returns (r: Result<nat, Error>)
      modifies this
      ensures r == if transactionId < |ledger.transactions| then Ok(|old(cases)|) else Err(ForeignKey)
      ensures State() == if r.Err? then old(State()) else
                Serve(old(State()), One(Create(
                  Case(userId, businessId, transactionId, claimAmount, Open, 0, slaDeadline, "", None, None))), now)
      ensures r.Ok? ==>
                && cases == old(cases) + [Case(userId, businessId, transactionId, claimAmount, Open, 0, slaDeadline, "", None, None)]
                && timeline == old(timeline) + [Entry(r.value, CaseCreated, now)]
                && events == old(events) + [CaseEvent(r.value, None, Open)]
    {
      if transactionId >= |ledger.transactions| {
        return Err(ForeignKey);
      }
      var created := Case(userId, businessId, transactionId, claimAmount, Open, 0, slaDeadline, "", None, None);
      var id := |cases|;
      cases := cases + [created];
      events := events + [CaseEvent(id, None, Open)];
      timeline := timeline + [Entry(id, CaseCreated, now)];
      return Ok(id);
    }

    /**
      Opens a case on a given transaction, or on one recorded first as FAILED. Both rows refer to the
      provider, so a provider that does not exist is refused before anything is written.
     */
    method CreateCase(userId: string, businessId: Option<string>, transactionId: Option<nat>,
                      details: Option<TransactionDetails>, providerId: Option<string>, claimAmount: real, now: int)
      returns (r: Result<nat, Error>)
      modifies this, ledger
      ensures transactionId.None? && details.None? ==> r == Err(BadRequest)
      ensures transactionId.Some? || details.Some? ==>
                r == if ProviderKnown(slaHours, providerId)
                        && (transactionId.Some? ==> transactionId.value < |old(ledger.transactions)|)
                     then Ok(|old(cases)|) else Err(ForeignKey)
      ensures transactionId.None? && details.Some? && r.Ok? ==>
                ledger.State() == L.Serve(old(ledger.State()),
                     L.Capture(Text.Trim(details.value.publicReference), claimAmount, Some(L.Failed), businessId, Some(userId)))
      ensures transactionId.Some? || details.None? || r.Err? ==> ledger.State() == old(ledger.State())
      ensures State() == if r.Err? then old(State()) else
                Serve(old(State()), One(Create(
                  Case(userId, businessId, transactionId.GetOr(|old(ledger.transactions)|), claimAmount, Open, 0,
                       DeadlineFor(slaHours, providerId, now), "", None, None))), now)
      ensures r.Ok? ==> |cases| == r.value + 1 && cases[r.value].transactionId < |ledger.transactions|
      ensures r.Ok? ==>
                && cases == old(cases) + [Case(userId, businessId, transactionId.GetOr(|old(ledger.transactions)|), claimAmount, Open, 0,
                     if providerId.Some? then Some(now + slaHours[providerId.value] * 3600000) else None, "", None, None)]
                && timeline == old(timeline) + [Entry(r.value, CaseCreated, now)]
                && events == old(events) + [CaseEvent(r.value, None, Open)]
      ensures transactionId.None? && details.Some? && r.Ok? ==>
                ledger.transactions == old(ledger.transactions)
                  + [L.Transaction(Text.Trim(details.value.publicReference), claimAmount, businessId, Some(userId), L.Failed, L.Failed, None)]
      ensures old(ForeignKeys(State(), |ledger.transactions|)) ==> ForeignKeys(State(), |ledger.transactions|)
      ensures r.Ok? && old(R.OneCasePerTransaction(State())) && old(ForeignKeys(State(), |ledger.transactions|)) ==>
                (R.OneCasePerTransaction(State()) <==> transactionId.None? || !old(R.HasCase(State(), transactionId.value)))
    {
      ghost var before, known := State(), |ledger.transactions|;
      var txId := transactionId;
      if txId.None? && details.Some? {
        if !ProviderKnown(slaHours, providerId) {
          return Err(ForeignKey);
        }
        var recorded := ledger.CreateTransaction(details.value.publicReference, claimAmount, Some(L.Failed), businessId, Some(userId));
        txId := Some(recorded);
      }
      if txId.None? {
        return Err(BadRequest);
      }
      var slaDeadline: Option<int> := None;
      if providerId.Some? && providerId.value in slaHours {
        slaDeadline := Some(now + slaHours[providerId.value] * HOUR_MS);
      }
      if !ProviderKnown(slaHours, providerId) {
        return Err(ForeignKey);
      }
      r := OpenCase(userId, businessId, txId.value, claimAmount, slaDeadline, now);
      if r.Ok? {
        CaseOpened(before, State(), Case(userId, businessId, txId.value, claimAmount, Open, 0, slaDeadline, "", None, None),
                   now, known, |ledger.transactions|);
      }
    }

    method UpdateCaseStatus(id: nat, status: CaseStatus, notes: string, now: int) returns (r: Result<Case, Error>)
      modifies this
      ensures if id < |old(cases)| then id < |cases| && r == Ok(cases[id]) else r == Err(NotFound)
      ensures State() == if id < |old(cases)| then Serve(old(State()), One(SetStatus(id, old(cases)[id], status, notes)), now)
                         else old(State())
      ensures r.Ok? ==>
                var c := old(cases)[id];
                && cases == old(cases)[id := c.(
                     status := status,
                     resolutionNotes := if notes == "" then c.resolutionNotes else notes,
                     resolvedAt := if status == Resolved || status == PartiallyResolved then Some(now) else c.resolvedAt,
                     closedAt := if status == Closed then Some(now) else c.closedAt)]
                && timeline == old(timeline) + [Entry(id, StatusSet(status), now)]
                && events == old(events) + [CaseEvent(id, Some(c.status), status)]
    {
      if id >= |cases| {
        return Err(NotFound);
      }
      var rescueCase := cases[id];
      var fromStatus := rescueCase.status;
      var updated := rescueCase.(status := status,
                                 resolutionNotes := if notes != "" then notes else rescueCase.resolutionNotes);
      if status == Resolved || status == PartiallyResolved {
        updated := updated.(resolvedAt := Some(now));
      }
      if status == Closed {
        updated := updated.(closedAt := Some(now));
      }
      cases := cases[id := updated];
      events := events + [CaseEvent(id, Some(fromStatus), status)];
      timeline := timeline + [Entry(id, StatusSet(status), now)];
      return Ok(updated);
    }

    method EscalateCase(id: nat, now: int) returns (r: Result<Case, Error>)
      modifies this
      ensures if id < |old(cases)| then id < |cases| && r == Ok(cases[id]) else r == Err(NotFound)
      ensures State() == if id < |old(cases)| then Serve(old(State()), One(Escalate(id, old(cases)[id])), now)
                         else old(State())
      ensures r.Ok? ==>
                var c := old(cases)[id];
                && cases == old(cases)[id := c.(
                     status := Escalated,
                     escalationLevel := if c.escalationLevel >= 1 then 2 else c.escalationLevel + 1)]
                && timeline == old(timeline) + [Entry(id, Escalation, now)]
                && events == old(events) + [CaseEvent(id, Some(c.status), Escalated)]
    {
      if id >= |cases| {
        return Err(NotFound);
      }
      var rescueCase := cases[id];
      var nextLevel := if rescueCase.escalationLevel + 1 < 2 then rescueCase.escalationLevel + 1 else 2;
      var updated := rescueCase.(status := Escalated, escalationLevel := nextLevel);
      cases := cases[id := updated];
      events := events + [CaseEvent(id, Some(rescueCase.status), Escalated)];
      timeline := timeline + [Entry(id, Escalation, now)];
      return Ok(updated);
    }

    /** The sweep's query; the database promises no order. */
    method FindExpired(now: int) returns (expired: seq<nat>)
      ensures IsListing(State(), expired, now)
      ensures forall id: nat :: id in expired <==>
                && id < |cases|
                && (cases[id].status == Submitted || cases[id].status == ProviderReview || cases[id].status == Pending)
                && cases[id].slaDeadline.Some? && cases[id].slaDeadline.value <= now
    {
      expired := [];
      var remaining := set id: nat | id < |cases| && Overdue(cases[id], now);
      while remaining != {}
        invariant Distinct(expired)
        invariant forall id: nat :: id in expired || id in remaining <==> id < |cases| && Overdue(cases[id], now)
        invariant forall id: nat :: !(id in expired && id in remaining)
      {
        var id :| id in remaining;
        expired := expired + [id];
        remaining := remaining - {id};
      }
    }

    /** One round of the sweep's loop: the transaction, then the notification. */
    method BreachAndNotify(c: nat, read: Case, now: int)
      requires c < |cases|
      modifies this
      ensures State() == Notify(Commit(old(State()), Breach(c, read), now), c)
    {
      var newEscalationLevel := if read.escalationLevel + 1 < 2 then read.escalationLevel + 1 else 2;
      cases := cases[c := cases[c].(status := Escalated, escalationLevel := newEscalationLevel)];
      events := events + [CaseEvent(c, Some(read.status), Escalated)];
      timeline := timeline + [Entry(c, SlaBreach, now)];
      notices := notices + [Notice(cases[c].userId, c)];
    }

    /** The sweep's loop over the rows that its query returned. */
    method EscalateRows(rows: seq<nat>, now: int)
      requires AllCases(State(), rows)
      modifies this
      ensures State() == SweepAll(old(State()), rows, now)
    {
      var read := cases;
      for k := 0 to |rows|
        invariant AllCases(old(State()), rows) && AllCases(old(State()), rows[..k])
        invariant State() == SweepAll(old(State()), rows[..k], now)
      {
        assert rows[..k + 1][..k] == rows[..k];
        BreachAndNotify(rows[k], read[rows[k]], now);
      }
      assert rows[..|rows|] == rows;
    }

    method ProcessSlaExpirations(now: int) returns (processedCount: nat, ghost expired: seq<nat>)
      modifies this
      ensures IsListing(old(State()), expired, now)
      ensures State() == Serve(old(State()), Sweep(expired), now)
      ensures processedCount
           == |set id: nat | && id < |old(cases)|
                             && (old(cases)[id].status == Submitted || old(cases)[id].status == ProviderReview
                                 || old(cases)[id].status == Pending)
                             && old(cases)[id].slaDeadline.Some? && old(cases)[id].slaDeadline.value <= now|
      ensures |cases| == |old(cases)|
      ensures forall id: nat :: id < |cases| ==>
                var c := old(cases)[id];
                var due := (c.status == Submitted || c.status == ProviderReview || c.status == Pending)
                           && c.slaDeadline.Some? && c.slaDeadline.value <= now;
                if due then
                  && cases[id].status == Escalated
                  && cases[id].escalationLevel == (if c.escalationLevel >= 1 then 2 else c.escalationLevel + 1)
                  && TimelineOf(timeline, id) == TimelineOf(old(timeline), id) + [Entry(id, SlaBreach, now)]
                  && EventsOf(events, id) == EventsOf(old(events), id) + [CaseEvent(id, Some(c.status), Escalated)]
                  && NoticesOf(notices, id) == NoticesOf(old(notices), id) + [Notice(c.userId, id)]
                else
                  && cases[id] == c
                  && TimelineOf(timeline, id) == TimelineOf(old(timeline), id)
                  && EventsOf(events, id) == EventsOf(old(events), id)
                  && NoticesOf(notices, id) == NoticesOf(old(notices), id)
    {
      var rows := FindExpired(now);
      expired := rows;
      ghost var was := State();
      ListingIsCases(was, rows, now);
      EscalateRows(rows, now);
      processedCount := |rows|;
      SweepOfAllInFields(was, State(), rows, now);
    }

    method GenerateComplaintPackage(caseId: nat, now: int) returns (r: Result<nat, Error>)
      modifies this
      ensures r == if caseId < |old(cases)| then Ok(|old(complaints)|) else Err(NotFound)
      ensures r.Ok? ==> complaints == old(complaints) + [caseId]
      ensures State() == if caseId < |old(cases)| then Serve(old(State()), One(Prepare(caseId)), now) else old(State())
      ensures r.Ok? ==>
                && cases == old(cases)[caseId := old(cases)[caseId].(status := ComplaintPrepared)]
                && timeline == old(timeline) + [Entry(caseId, ComplaintGenerated, now)] && events == old(events)
    {
      if caseId >= |cases| {
        return Err(NotFound);
      }
      var id := |complaints|;
      complaints := complaints + [caseId];
      cases := cases[caseId := cases[caseId].(status := ComplaintPrepared)];
      timeline := timeline + [Entry(caseId, ComplaintGenerated, now)];
      return Ok(id);
    }

    method RecordSubmission(complaintId: nat, now: int) returns (r: Result<nat, Error>)
      requires NoStrays(State())
      modifies this
      ensures r == if complaintId < |old(complaints)| then Ok(|old(submissions)|) else Err(NotFound)
      ensures State() == if complaintId < |old(complaints)|
                         then Serve(old(State()), One(Submit(complaintId, old(complaints)[complaintId])), now)
                         else old(State())
      ensures r.Ok? ==>
                var id := old(complaints)[complaintId];
                && id < |old(cases)| && cases == old(cases)[id := old(cases)[id].(status := Submitted)]
                && timeline == old(timeline) + [Entry(id, ComplaintSubmitted, now)] && events == old(events)
                && submissions == old(submissions) + [complaintId] && complaints == old(complaints)
    {
      if complaintId >= |complaints| {
        return Err(NotFound);
      }
      var caseId := complaints[complaintId];
      ComplaintsNameCases(State(), complaintId);
      var id := |submissions|;
      submissions := submissions + [complaintId];
      cases := cases[caseId := cases[caseId].(status := Submitted)];
      timeline := timeline + [Entry(caseId, ComplaintSubmitted, now)];
      return Ok(id);
    }

    method UploadEvidence(caseId: nat, file: Option<File>, now: int) returns (r: Result<nat, Error>)
      modifies this
      ensures r == if file.None? || file.value.mimeType !in {"image/jpeg", "image/png", "image/webp", "application/pdf"}
                      || file.value.size > 10485760
                   then Err(BadRequest)
                   else if caseId >= |old(cases)| then Err(NotFound)
                   else if !file.value.isClean then Err(BadRequest)
                   else Ok(|old(evidence)|)
      ensures State() == if r.Ok? then Serve(old(State()), One(Upload(caseId)), now) else old(State())
      ensures cases == old(cases) && events == old(events)
      ensures r.Ok? ==> evidence == old(evidence) + [caseId] && timeline == old(timeline) + [Entry(caseId, EvidenceUploaded, now)]
    {
      if file.None? {
        return Err(BadRequest);
      }
      if file.value.mimeType !in ALLOWED_MIME_TYPES {
        return Err(BadRequest);
      }
      if file.value.size > MAX_FILE_SIZE {
        return Err(BadRequest);
      }
      if caseId >= |cases| {
        return Err(NotFound);
      }
      if !file.value.isClean {
        return Err(BadRequest);
      }
      var id := |evidence|;
      evidence := evidence + [caseId];
      timeline := timeline + [Entry(caseId, EvidenceUploaded, now)];
      return Ok(id);
    }
  }
}
