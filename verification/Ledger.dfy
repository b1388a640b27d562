/**
  The transaction ledger with its append-only event log, and payment verification against it.

  Every operation reads first and then writes in one database transaction. `Commit` is that
  transaction; what it was told by the reads travels in a `Pending`. A `World` lets any number of
  operations be between their reads and their commit, so its runs are all interleavings; a serial
  run commits each operation right after its reads. Rows are never deleted, so a row's id is its
  position in its table.
 */
module Ledger {
  import opened Wrappers
  import opened Text
  import opened Money

  datatype TxStatus = Pending | Success | Failed | Reversed | PartiallyRefunded | Disputed | Unknown

  datatype Transaction = Transaction(
    publicReference: string, amount: real, businessId: Option<string>, userId: Option<string>,
    status: TxStatus, claimedStatus: TxStatus, verifiedStatus: Option<TxStatus>)

  datatype TxEvent = TxEvent(transactionId: nat, previousStatus: Option<TxStatus>, newStatus: TxStatus)

  datatype PaymentRequest = PaymentRequest(businessId: string, expectedAmount: real, expiresAt: int, isFulfilled: bool)

  datatype Confidence = Unverified | Low | Medium | High

  datatype Verification = Verification(
    paymentRequestId: Option<nat>, transactionId: Option<nat>, claimedReference: string,
    verifiedAmount: Option<real>, isConfirmed: bool, confidenceLevel: Confidence)

  datatype Tables = Tables(
    transactions: seq<Transaction>, events: seq<TxEvent>,
    requests: seq<PaymentRequest>, results: seq<Verification>)

  const EMPTY := Tables([], [], [], [])

  // ---------- Operations: what they read, and what they commit ----------

  // References are held as the services trim them.
  datatype Operation =
    | Capture(publicReference: string, amount: real, claimedStatus: Option<TxStatus>,
              businessId: Option<string>, userId: Option<string>)
    | Update(transactionId: nat, read: Transaction, newStatus: TxStatus)
    | Request(business: string, expectedAmount: real, expiresAt: int)
    | Verify(business: string, request: Option<(nat, PaymentRequest)>, found: Option<(nat, Transaction)>,
             claimedReference: string, claimedAmount: Option<real>)

  function NewTransaction(op: Operation): Transaction
    requires op.Capture?
  {
    var status := op.claimedStatus.GetOr(Pending);
    Transaction(op.publicReference, op.amount, op.businessId, op.userId, status, status, None)
  }

  datatype Decision = Decision(isConfirmed: bool, confidenceLevel: Confidence, verifiedAmount: Option<real>)

  /** An expected amount that is absent or zero counts as "not available". */
  function Decide(found: Option<Transaction>, expected: Option<real>): Decision {
    match found
    case None => Decision(false, Unverified, None)
    case Some(tx) =>
      if tx.status != Success then Decision(false, Low, Some(tx.amount))
      else if expected.GetOr(0.0) == 0.0 then Decision(true, High, Some(tx.amount))
      else if Within(tx.amount, expected.value) then Decision(true, High, Some(tx.amount))
      else Decision(false, Medium, Some(tx.amount))
  }

  function Expected(op: Operation): Option<real>
    requires op.Verify?
  {
    if op.request.Some? then Some(op.request.value.1.expectedAmount) else op.claimedAmount
  }

  function Verdict(op: Operation): Verification
    requires op.Verify?
  {
    var d := Decide(if op.found.Some? then Some(op.found.value.1) else None, Expected(op));
    Verification(
      if op.request.Some? then Some(op.request.value.0) else None,
      if op.found.Some? then Some(op.found.value.0) else None,
      op.claimedReference, d.verifiedAmount, d.isConfirmed, d.confidenceLevel)
  }

  predicate IsMatch(tx: Transaction, businessId: string, reference: string) {
    tx.businessId == Some(businessId) && tx.publicReference == reference
  }

  /** The first read of a verification, if it names a request: its row. */
  ghost predicate ReadsRequest(t: Tables, op: Operation)
    requires op.Verify?
  {
    op.request.Some? ==>
      op.request.value.0 < |t.requests| && t.requests[op.request.value.0] == op.request.value.1
      && op.request.value.1.businessId == op.business
  }

  /** The second read of a verification; a search without order may return any match. */
  ghost predicate ReadsFound(t: Tables, op: Operation)
    requires op.Verify?
  {
    && (op.found.Some? ==>
          op.found.value.0 < |t.transactions| && t.transactions[op.found.value.0] == op.found.value.1
          && IsMatch(op.found.value.1, op.business, op.claimedReference))
    && (op.found.None? ==>
          forall i :: 0 <= i < |t.transactions| ==> !IsMatch(t.transactions[i], op.business, op.claimedReference))
  }

  /** What the operation read is what the tables hold. */
  ghost predicate Reads(t: Tables, op: Operation) {
    match op
    case Capture(_, _, _, _, _) => true
    case Request(_, _, _) => true
    case Update(id, read, _) => id < |t.transactions| && t.transactions[id] == read
    case Verify(_, _, _, _, _) => ReadsRequest(t, op) && ReadsFound(t, op)
  }

  function Commit(t: Tables, op: Operation): Tables {
    match op
    case Capture(_, _, _, _, _) =>
      var tx := NewTransaction(op);
      t.(transactions := t.transactions + [tx],
         events := t.events + [TxEvent(|t.transactions|, None, tx.status)])
    case Update(id, read, newStatus) =>
      if id < |t.transactions| then
        t.(transactions := t.transactions[id := t.transactions[id].(status := newStatus, verifiedStatus := Some(newStatus))],
           events := t.events + [TxEvent(id, Some(read.status), newStatus)])
      else t
    case Request(business, expected, expiresAt) =>
      t.(requests := t.requests + [PaymentRequest(business, expected, expiresAt, false)])
    case Verify(_, request, _, _, _) =>
      var v := Verdict(op);
      var requests :=
        if v.isConfirmed && request.Some? && request.value.0 < |t.requests| then
          t.requests[request.value.0 := t.requests[request.value.0].(isFulfilled := true)]
        else t.requests;
      t.(requests := requests, results := t.results + [v])
  }

  // ---------- The event log of one transaction ----------

  function LogOf(events: seq<TxEvent>, id: nat): seq<TxEvent> {
    if events == [] then []
    else
      var e := events[|events| - 1];
      var before := LogOf(events[..|events| - 1], id);
      if e.transactionId == id then before + [e] else before
  }

  lemma LogAppend(events: seq<TxEvent>, e: TxEvent, id: nat)
    ensures LogOf(events + [e], id) == if e.transactionId == id then LogOf(events, id) + [e] else LogOf(events, id)
  {
    assert (events + [e])[..|events|] == events;
  }

  /** The row is the summary of its log. */
  ghost predicate LogExplains(tx: Transaction, log: seq<TxEvent>) {
    && log != []
    && log[0].previousStatus == None && log[0].newStatus == tx.claimedStatus
    && log[|log| - 1].newStatus == tx.status
    && tx.verifiedStatus == (if |log| == 1 then None else Some(tx.status))
    && forall i :: 1 <= i < |log| ==> log[i].previousStatus.Some?
  }

  /** Each event starts from the status at which the one before it arrived. */
  ghost predicate Chained(log: seq<TxEvent>) {
    forall i :: 1 <= i < |log| ==> log[i].previousStatus == Some(log[i - 1].newStatus)
  }

  ghost predicate Succeeded(t: Tables, id: nat) {
    exists k :: 0 <= k < |LogOf(t.events, id)| && LogOf(t.events, id)[k].newStatus == Success
  }

  // ---------- What holds in every interleaving ----------

  /**
    A confirmed verification names a transaction of some merchant with its reference and amount, one
    that was in SUCCESS; with a request, one of that request's merchant that meets its amount.
   */
  ghost predicate Backed(t: Tables, v: Verification) {
    v.isConfirmed ==>
      && v.transactionId.Some? && v.transactionId.value < |t.transactions|
      && (var tx := t.transactions[v.transactionId.value];
          && tx.businessId.Some? && tx.publicReference == v.claimedReference
          && v.verifiedAmount == Some(tx.amount))
      && Succeeded(t, v.transactionId.value)
      && (v.paymentRequestId.Some? ==> BackedByRequest(t, v))
  }

  ghost predicate BackedByRequest(t: Tables, v: Verification)
    requires v.transactionId.Some? && v.transactionId.value < |t.transactions| && v.paymentRequestId.Some?
  {
    && v.paymentRequestId.value < |t.requests|
    && var request, tx := t.requests[v.paymentRequestId.value], t.transactions[v.transactionId.value];
       && tx.businessId == Some(request.businessId)
       && (request.expectedAmount != 0.0 ==> Within(tx.amount, request.expectedAmount))
  }

  ghost predicate LinkedConfirmation(results: seq<Verification>, requestId: nat) {
    exists k :: 0 <= k < |results| && results[k].isConfirmed && results[k].paymentRequestId == Some(requestId)
  }

  ghost predicate Sound(t: Tables) {
    && (forall id :: 0 <= id < |t.transactions| ==> LogExplains(t.transactions[id], LogOf(t.events, id)))
    && (forall id: nat :: |t.transactions| <= id ==> LogOf(t.events, id) == [])
    && (forall k :: 0 <= k < |t.results| ==> Backed(t, t.results[k]))
    && (forall r :: 0 <= r < |t.requests| ==> (t.requests[r].isFulfilled <==> LinkedConfirmation(t.results, r)))
    && (forall k :: 0 <= k < |t.results| && t.results[k].paymentRequestId.Some? ==>
                      t.results[k].paymentRequestId.value < |t.requests|)
  }

  /** The columns that no operation writes after a row was created. */
  predicate SameIdentity(a: Transaction, b: Transaction) {
    && a.publicReference == b.publicReference && a.amount == b.amount
    && a.businessId == b.businessId && a.userId == b.userId && a.claimedStatus == b.claimedStatus
  }

  /** What the first read of a verification said about its request and cannot change. */
  ghost predicate RequestStillTrue(t: Tables, op: Operation)
    requires op.Verify?
  {
    op.request.Some? ==>
      op.request.value.0 < |t.requests| && op.request.value.1.businessId == op.business
      && t.requests[op.request.value.0].businessId == op.business
      && t.requests[op.request.value.0].expectedAmount == op.request.value.1.expectedAmount
  }

  /** An operation in flight still knows the truth about everything that cannot change. */
  ghost predicate StillTrue(t: Tables, op: Operation) {
    match op
    case Capture(_, _, _, _, _) => true
    case Request(_, _, _) => true
    case Update(id, read, _) => id < |t.transactions| && SameIdentity(t.transactions[id], read)
    case Verify(business, request, found, reference, _) =>
      && RequestStillTrue(t, op)
      && (found.Some? ==>
            found.value.0 < |t.transactions| && SameIdentity(t.transactions[found.value.0], found.value.1)
            && IsMatch(found.value.1, business, reference)
            && (found.value.1.status == Success ==> Succeeded(t, found.value.0)))
  }

  /** Later tables: rows and log entries are added, identities stay, settled stays settled. */
  ghost predicate Extends(t: Tables, t': Tables) {
    && |t.transactions| <= |t'.transactions| && |t.requests| <= |t'.requests|
    && (forall i :: 0 <= i < |t.transactions| ==> SameIdentity(t'.transactions[i], t.transactions[i]))
    && (forall r :: 0 <= r < |t.requests| ==>
          t'.requests[r].businessId == t.requests[r].businessId
          && t'.requests[r].expectedAmount == t.requests[r].expectedAmount
          && (t.requests[r].isFulfilled ==> t'.requests[r].isFulfilled))
    && t.events <= t'.events && t.results <= t'.results
    && forall id: nat :: LogOf(t.events, id) <= LogOf(t'.events, id)
  }

  lemma SuccessIsPermanent(t: Tables, t': Tables, id: nat)
    requires Extends(t, t') && Succeeded(t, id)
    ensures Succeeded(t', id)
  {
    var k :| 0 <= k < |LogOf(t.events, id)| && LogOf(t.events, id)[k].newStatus == Success;
    assert LogOf(t'.events, id)[k] == LogOf(t.events, id)[k];
  }

  lemma LogGrows(t: Tables, op: Operation, id: nat)
    ensures LogOf(t.events, id) <= LogOf(Commit(t, op).events, id)
  {
    var events := Commit(t, op).events;
    if events != t.events { LogAppend(t.events, events[|t.events|], id); }
  }

  lemma CommitExtends(t: Tables, op: Operation)
    ensures Extends(t, Commit(t, op))
  {
    forall id: nat ensures LogOf(t.events, id) <= LogOf(Commit(t, op).events, id) {
      LogGrows(t, op, id);
    }
  }

  lemma StaysTrue(t: Tables, t': Tables, op: Operation)
    requires Extends(t, t') && StillTrue(t, op)
    ensures StillTrue(t', op)
  {
    if op.Verify? && op.found.Some? && op.found.value.1.status == Success {
      SuccessIsPermanent(t, t', op.found.value.0);
    }
  }

  /** A verification may have read its request earlier than its transaction. */
  ghost predicate LatelyRead(t: Tables, op: Operation) {
    if op.Verify? then RequestStillTrue(t, op) && ReadsFound(t, op) else Reads(t, op)
  }

  lemma ReadsAreTrue(t: Tables, op: Operation)
    requires Sound(t) && LatelyRead(t, op)
    ensures StillTrue(t, op)
  {
    if op.Verify? && op.found.Some? && op.found.value.1.status == Success {
      var id := op.found.value.0;
      assert LogExplains(t.transactions[id], LogOf(t.events, id));
      assert LogOf(t.events, id)[|LogOf(t.events, id)| - 1].newStatus == Success;
    }
  }

  lemma BackedStaysBacked(t: Tables, t': Tables, v: Verification)
    requires Extends(t, t') && Backed(t, v)
    ensures Backed(t', v)
  {
    if v.isConfirmed { SuccessIsPermanent(t, t', v.transactionId.value); }
  }

  lemma ExplainsAppend(tx: Transaction, log: seq<TxEvent>, e: TxEvent)
    requires LogExplains(tx, log) && e.previousStatus.Some?
    ensures LogExplains(tx.(status := e.newStatus, verifiedStatus := Some(e.newStatus)), log + [e])
  {
    assert forall i :: 1 <= i < |log| ==> (log + [e])[i] == log[i];
  }

  /** The log and the row of transaction `id` in later tables. */
  ghost predicate Explained(t: Tables, id: nat) {
    if id < |t.transactions| then LogExplains(t.transactions[id], LogOf(t.events, id)) else LogOf(t.events, id) == []
  }

  lemma LogsStayExplained(t: Tables, op: Operation, id: nat)
    requires Explained(t, id) && Explained(t, |t.transactions|)
    ensures Explained(Commit(t, op), id)
  {
    match op
    case Capture(_, _, _, _, _) =>
      LogAppend(t.events, TxEvent(|t.transactions|, None, NewTransaction(op).status), id);
    case Update(target, read, newStatus) =>
      var e := TxEvent(target, Some(read.status), newStatus);
      LogAppend(t.events, e, id);
      if target == id && id < |t.transactions| { ExplainsAppend(t.transactions[id], LogOf(t.events, id), e); }
    case Request(_, _, _) =>
    case Verify(_, _, _, _, _) =>
  }

  lemma VerdictIsBacked(t: Tables, op: Operation)
    requires op.Verify? && StillTrue(t, op)
    ensures Backed(t, Verdict(op))
    ensures Verdict(op).isConfirmed ==>
              && t.transactions[Verdict(op).transactionId.value].businessId == Some(op.business)
              && t.transactions[Verdict(op).transactionId.value].publicReference == op.claimedReference
              && (Expected(op).GetOr(0.0) != 0.0 ==>
                    Within(t.transactions[Verdict(op).transactionId.value].amount, Expected(op).value))
  {
  }

  /** Some event after the first one, which only records what was claimed, arrives at SUCCESS. */
  ghost predicate VerifiedSuccess(log: seq<TxEvent>) {
    exists k :: 1 <= k < |log| && log[k].newStatus == Success
  }

  /**
    A transaction in SUCCESS was verified to be so, and not only claimed, exactly when its verified
    status is set: a check that the decision does not make.
   */
  lemma SuccessIsVerifiedExactlyWhen(tx: Transaction, log: seq<TxEvent>)
    requires LogExplains(tx, log) && tx.status == Success
    ensures VerifiedSuccess(log) <==> tx.verifiedStatus.Some?
    ensures tx.verifiedStatus.None? ==> tx.claimedStatus == Success
  {
    if |log| > 1 { assert log[|log| - 1].newStatus == Success; }
  }

  /**
    A claim of SUCCESS that nobody verified confirms a payment to a merchant exactly when it was
    captured under that merchant's id. A capture without one, as a route without a business context
    makes it, is never found.
   */
  lemma SelfClaimConfirms(t: Tables, capturedFor: Option<string>, business: string, reference: string, amount: real)
    requires Sound(t)
    ensures var captured := Commit(t, Capture(reference, amount, Some(Success), capturedFor, None));
            var id := |t.transactions|;
            var op := Verify(business, None, Some((id, captured.transactions[id])), reference, Some(amount));
            && (Reads(captured, op) && Verdict(op).isConfirmed <==> capturedFor == Some(business))
            && !VerifiedSuccess(LogOf(captured.events, id))
  {
    LogAppend(t.events, TxEvent(|t.transactions|, None, Success), |t.transactions|);
  }

  lemma FulfilmentFollows(t: Tables, op: Operation, r: nat)
    requires Sound(t) && StillTrue(t, op) && r < |Commit(t, op).requests|
    ensures Commit(t, op).requests[r].isFulfilled <==> LinkedConfirmation(Commit(t, op).results, r)
  {
    var t' := Commit(t, op);
    if LinkedConfirmation(t.results, r) {
      var k :| 0 <= k < |t.results| && t.results[k].isConfirmed && t.results[k].paymentRequestId == Some(r);
      assert t'.results[k] == t.results[k];
    }
    if op.Verify? {
      assert t'.results == t.results + [Verdict(op)];
      assert t'.results[|t.results|] == Verdict(op);
      if r < |t.requests| { assert t.requests[r].isFulfilled <==> LinkedConfirmation(t.results, r); }
    }
  }

  lemma CommitKeepsSound(t: Tables, op: Operation)
    requires Sound(t) && StillTrue(t, op)
    ensures Sound(Commit(t, op))
  {
    var t' := Commit(t, op);
    CommitExtends(t, op);
    forall id: nat
      ensures id < |t'.transactions| ==> LogExplains(t'.transactions[id], LogOf(t'.events, id))
      ensures |t'.transactions| <= id ==> LogOf(t'.events, id) == []
    {
      assert Explained(t, id) && Explained(t, |t.transactions|);
      LogsStayExplained(t, op, id);
      assert Explained(t', id);
    }
    forall k | 0 <= k < |t'.results| ensures Backed(t', t'.results[k]) {
      if k < |t.results| {
        BackedStaysBacked(t, t', t.results[k]);
      } else {
        VerdictIsBacked(t, op);
        BackedStaysBacked(t, t', Verdict(op));
      }
    }
    forall r: nat | r < |t'.requests|
      ensures t'.requests[r].isFulfilled <==> LinkedConfirmation(t'.results, r)
    {
      FulfilmentFollows(t, op, r);
    }
  }

  // ---------- Runs ----------

  /** An operation that is ready to commit, or a verification between its two reads, with nothing found yet. */
  datatype Stage = Asked(op: Operation) | Ready(op: Operation)

  datatype World = World(tables: Tables, inFlight: seq<Stage>)

  /**
    Start an operation with its reads, but a verification with the first of its reads only; look for
    the transaction of a verification; finish an operation, or lose one to a crash.
   */
  datatype Step = Start(op: Operation) | Look(k: nat, found: Option<(nat, Transaction)>) | Finish(k: nat) | Abandon(k: nat)

  ghost function Next(w: World, s: Step): World {
    match s
    case Start(op) =>
      if op.Verify? then
        if op.found.None? && ReadsRequest(w.tables, op) then w.(inFlight := w.inFlight + [Asked(op)]) else w
      else if Reads(w.tables, op) then w.(inFlight := w.inFlight + [Ready(op)])
      else w
    case Look(k, found) =>
      if k < |w.inFlight| && w.inFlight[k].Asked? && w.inFlight[k].op.Verify?
         && ReadsFound(w.tables, w.inFlight[k].op.(found := found)) then
        w.(inFlight := w.inFlight[k := Ready(w.inFlight[k].op.(found := found))])
      else w
    case Finish(k) =>
      if k < |w.inFlight| && w.inFlight[k].Ready? then
        World(Commit(w.tables, w.inFlight[k].op), Without(w.inFlight, k))
      else w
    case Abandon(k) => if k < |w.inFlight| then w.(inFlight := Without(w.inFlight, k)) else w
  }

  ghost function Run(w: World, steps: seq<Step>): World {
    if steps == [] then w else Next(Run(w, steps[..|steps| - 1]), steps[|steps| - 1])
  }

  ghost predicate StageIsTrue(t: Tables, stage: Stage) {
    match stage
    case Asked(op) => op.Verify? && RequestStillTrue(t, op)
    case Ready(op) => StillTrue(t, op)
  }

  ghost predicate Good(w: World) {
    Sound(w.tables) && forall k :: 0 <= k < |w.inFlight| ==> StageIsTrue(w.tables, w.inFlight[k])
  }

  lemma StageStaysTrue(t: Tables, t': Tables, stage: Stage)
    requires Extends(t, t') && StageIsTrue(t, stage)
    ensures StageIsTrue(t', stage)
  {
    if stage.Ready? { StaysTrue(t, t', stage.op); }
  }

  lemma FinishKeepsGood(w: World, k: nat)
    requires Good(w) && k < |w.inFlight| && w.inFlight[k].Ready?
    ensures Good(Next(w, Finish(k))) && Extends(w.tables, Next(w, Finish(k)).tables)
  {
    var w' := Next(w, Finish(k));
    CommitExtends(w.tables, w.inFlight[k].op);
    CommitKeepsSound(w.tables, w.inFlight[k].op);
    forall j | 0 <= j < |w'.inFlight| ensures StageIsTrue(w'.tables, w'.inFlight[j]) {
      var i := if j < k then j else j + 1;
      assert w'.inFlight[j] == w.inFlight[i];
      StageStaysTrue(w.tables, w'.tables, w.inFlight[i]);
    }
  }

  lemma LookKeepsGood(w: World, k: nat, found: Option<(nat, Transaction)>)
    requires Good(w)
    ensures Good(Next(w, Look(k, found)))
  {
    if Next(w, Look(k, found)) != w {
      var op := w.inFlight[k].op.(found := found);
      assert StageIsTrue(w.tables, w.inFlight[k]);
      ReadsAreTrue(w.tables, op);
      assert StageIsTrue(w.tables, Ready(op));
    }
  }

  lemma NextKeepsGood(w: World, s: Step)
    requires Good(w)
    ensures Good(Next(w, s)) && Extends(w.tables, Next(w, s).tables)
  {
    match s
    case Start(op) =>
      if op.Verify? {
        assert ReadsRequest(w.tables, op) ==> StageIsTrue(w.tables, Asked(op));
      } else if Reads(w.tables, op) {
        ReadsAreTrue(w.tables, op);
        assert StageIsTrue(w.tables, Ready(op));
      }
    case Look(k, found) => LookKeepsGood(w, k, found);
    case Abandon(k) =>
    case Finish(k) => if k < |w.inFlight| && w.inFlight[k].Ready? { FinishKeepsGood(w, k); }
  }

  lemma ExtendsTransitive(a: Tables, b: Tables, c: Tables)
    requires Extends(a, b) && Extends(b, c)
    ensures Extends(a, c)
  {
    forall id: nat ensures LogOf(a.events, id) <= LogOf(c.events, id) {
      assert LogOf(a.events, id) <= LogOf(b.events, id) <= LogOf(c.events, id);
    }
  }

  /**
    In every interleaving each transaction row is explained by its log, every fulfilled request has
    a confirmed verification and the other way round, and each such verification is backed by a
    settled transaction of the same merchant. Nothing recorded is ever taken back.
   */
  lemma {:induction false} EveryInterleavingIsSound(w: World, steps: seq<Step>)
    requires Good(w)
    ensures Good(Run(w, steps)) && Extends(w.tables, Run(w, steps).tables)
  {
    if steps != [] {
      var before := Run(w, steps[..|steps| - 1]);
      EveryInterleavingIsSound(w, steps[..|steps| - 1]);
      NextKeepsGood(before, steps[|steps| - 1]);
      ExtendsTransitive(w.tables, before.tables, Run(w, steps).tables);
    }
  }

  /** Whatever happens later, a merchant's verifications never find a transaction that was not captured for it. */
  lemma ForeignTransactionIsNeverFound(w: World, steps: seq<Step>, id: nat, business: string, reference: string)
    requires Good(w) && id < |w.tables.transactions| && w.tables.transactions[id].businessId != Some(business)
    ensures id < |Run(w, steps).tables.transactions|
    ensures Run(w, steps).tables.transactions[id].businessId != Some(business)
    ensures !IsMatch(Run(w, steps).tables.transactions[id], business, reference)
  {
    EveryInterleavingIsSound(w, steps);
  }

  lemma EmptyIsGood()
    ensures Good(World(EMPTY, []))
  {
  }

  // ---------- Serial runs ----------

  /** An operation whose commit follows its reads at once. */
  ghost function Serve(t: Tables, op: Operation): Tables {
    if Reads(t, op) then Commit(t, op) else t
  }

  ghost function SerialRun(ops: seq<Operation>): Tables {
    if ops == [] then EMPTY else Serve(SerialRun(ops[..|ops| - 1]), ops[|ops| - 1])
  }

  lemma RunTwo(w: World, a: Step, b: Step)
    ensures Run(w, [a, b]) == Next(Next(w, a), b)
  {
    assert [a, b][..1] == [a] && [a][..0] == [];
    assert Run(w, []) == w;
    assert Run(w, [a]) == Next(w, a);
  }

  /** The steps of an operation that nothing comes in between. */
  function StepsOf(op: Operation): seq<Step> {
    if op.Verify? then [Start(op.(found := None)), Look(0, op.found)] + [Finish(0)] else [Start(op), Finish(0)]
  }

  /** A served operation is its reads and its commit with nothing in between. */
  lemma ServeIsStartFinish(t: Tables, op: Operation)
    requires Reads(t, op)
    ensures Run(World(t, []), StepsOf(op)) == World(Serve(t, op), [])
  {
    assert Without([Ready(op)], 0) == [];
    if op.Verify? {
      var asked := op.(found := None);
      assert asked.(found := op.found) == op;
      assert Next(World(t, []), Start(asked)) == World(t, [Asked(asked)]);
      assert Next(World(t, [Asked(asked)]), Look(0, op.found)) == World(t, [Ready(op)]);
      RunTwo(World(t, []), Start(asked), Look(0, op.found));
      assert StepsOf(op)[..2] == [Start(asked), Look(0, op.found)];
    } else {
      assert Next(World(t, []), Start(op)) == World(t, [Ready(op)]);
      RunTwo(World(t, []), Start(op), Finish(0));
    }
  }

  lemma ChainAppend(log: seq<TxEvent>, e: TxEvent)
    requires log != [] && Chained(log)
    ensures Chained(log + [e]) <==> e.previousStatus == Some(log[|log| - 1].newStatus)
  {
    var longer := log + [e];
    if Chained(longer) { assert longer[|log|].previousStatus == Some(longer[|log| - 1].newStatus); }
  }

  /**
    The event that an update appends continues the log exactly when the status it read is still the
    row's status.
   */
  lemma ChainKeptExactlyWhenReadIsCurrent(t: Tables, op: Operation)
    requires Sound(t) && op.Update? && op.transactionId < |t.transactions|
    requires Chained(LogOf(t.events, op.transactionId))
    ensures Chained(LogOf(Commit(t, op).events, op.transactionId))
       <==> op.read.status == t.transactions[op.transactionId].status
  {
    var id := op.transactionId;
    var log := LogOf(t.events, id);
    var e := TxEvent(id, Some(op.read.status), op.newStatus);
    LogAppend(t.events, e, id);
    assert LogExplains(t.transactions[id], log);
    ChainAppend(log, e);
  }

  ghost predicate AllChained(t: Tables) {
    forall id: nat :: Chained(LogOf(t.events, id))
  }

  lemma ServeKeepsChains(t: Tables, op: Operation)
    requires Sound(t) && AllChained(t)
    ensures Sound(Serve(t, op)) && AllChained(Serve(t, op))
  {
    if Reads(t, op) {
      var t' := Commit(t, op);
      ReadsAreTrue(t, op);
      CommitKeepsSound(t, op);
      forall id: nat ensures Chained(LogOf(t'.events, id)) {
        assert Chained(LogOf(t.events, id));
        if op.Update? && id == op.transactionId {
          ChainKeptExactlyWhenReadIsCurrent(t, op);
        } else if |t'.events| > |t.events| {
          LogAppend(t.events, t'.events[|t.events|], id);
          if op.Capture? && id == |t.transactions| { assert LogOf(t.events, id) == []; }
        }
      }
    }
  }

  /** In every serial run each event starts from the status at which the one before it arrived. */
  lemma {:induction false} SerialRunsAreChained(ops: seq<Operation>)
    ensures Sound(SerialRun(ops)) && AllChained(SerialRun(ops))
  {
    if ops == [] {
      EmptyIsGood();
    } else {
      SerialRunsAreChained(ops[..|ops| - 1]);
      ServeKeepsChains(SerialRun(ops[..|ops| - 1]), ops[|ops| - 1]);
    }
  }

  /** Two updates that read one row: the log stays chained exactly when the first changed nothing. */
  lemma ConcurrentUpdatesChainExactlyWhen(t: Tables, id: nat, a: TxStatus, b: TxStatus)
    requires Sound(t) && id < |t.transactions| && Chained(LogOf(t.events, id))
    ensures var first, second := Update(id, t.transactions[id], a), Update(id, t.transactions[id], b);
            && Reads(t, first) && Reads(t, second)
            && (Chained(LogOf(Commit(Commit(t, first), second).events, id)) <==> a == t.transactions[id].status)
  {
    var first, second := Update(id, t.transactions[id], a), Update(id, t.transactions[id], b);
    ReadsAreTrue(t, first);
    CommitKeepsSound(t, first);
    ChainKeptExactlyWhenReadIsCurrent(t, first);
    ChainKeptExactlyWhenReadIsCurrent(Commit(t, first), second);
  }

  /** Two updates that read the same status: the second event does not start where the first arrived. */
  lemma ConcurrentUpdatesBreakTheChain(tx: Transaction, t: Tables)
    requires tx == Transaction("REF", 10.0, None, None, Failed, Failed, None)
    requires t == Tables([tx], [TxEvent(0, None, Failed)], [], [])
    ensures var first, second := Update(0, tx, Success), Update(0, tx, Disputed);
            && Reads(t, first) && Reads(t, second)
            && LogOf(Commit(Commit(t, first), second).events, 0)
               == [TxEvent(0, None, Failed), TxEvent(0, Some(Failed), Success), TxEvent(0, Some(Failed), Disputed)]
  {
    LogAppend([], TxEvent(0, None, Failed), 0);
    assert [] + [TxEvent(0, None, Failed)] == [TxEvent(0, None, Failed)];
    LogAppend(t.events, TxEvent(0, Some(Failed), Success), 0);
    LogAppend(t.events + [TxEvent(0, Some(Failed), Success)], TxEvent(0, Some(Failed), Disputed), 0);
  }

  /**
    Confirmation implies the expected amount exactly for requests whose expected amount is not zero:
    a zero is read as "not available" and any settled transaction with the reference confirms.
   */
  lemma AmountCheckedExactlyWhenNonZero(expected: real)
    ensures (forall tx :: Decide(Some(tx), Some(expected)).isConfirmed ==> Within(tx.amount, expected))
       <==> expected != 0.0
  {
    if expected == 0.0 {
      var tx := Transaction("REF", 1.0, None, None, Success, Success, None);
      assert Decide(Some(tx), Some(expected)).isConfirmed && !Within(tx.amount, expected);
    }
  }

  // ---------- What a served verification answers, in the fields of the rows ----------

  /** Which row is found, and that none is found only if there is none. */
  lemma FoundInFields(t: Tables, op: Operation)
    requires op.Verify? && Reads(t, op)
    ensures var id := Verdict(op).transactionId;
            && (id.Some? ==> id.value < |t.transactions|
                             && t.transactions[id.value].businessId == Some(op.business)
                             && t.transactions[id.value].publicReference == op.claimedReference)
            && (id.None? ==> forall i :: 0 <= i < |t.transactions| ==>
                  !(t.transactions[i].businessId == Some(op.business) && t.transactions[i].publicReference == op.claimedReference))
    ensures Verdict(op).claimedReference == op.claimedReference
    ensures Verdict(op).paymentRequestId == if op.request.Some? then Some(op.request.value.0) else None
  {
  }

  /** What is answered about the row that was found. */
  lemma VerdictInFields(t: Tables, op: Operation)
    requires op.Verify? && Reads(t, op)
    ensures var v, expected := Verdict(op), Expected(op);
            && (v.transactionId.None? ==> !v.isConfirmed && v.confidenceLevel == Unverified && v.verifiedAmount == None)
            && (v.transactionId.Some? ==>
                  var tx := t.transactions[v.transactionId.value];
                  && v.verifiedAmount == Some(tx.amount)
                  && (v.isConfirmed <==>
                        tx.status == Success
                        && (expected.None? || expected.value == 0.0 || -0.01 < tx.amount - expected.value < 0.01))
                  && v.confidenceLevel == if tx.status != Success then Low else if v.isConfirmed then High else Medium)
  {
  }

  /** What is written: the verification, and the fulfilment of its request when it confirms. */
  lemma VerificationInFields(t: Tables, op: Operation)
    requires op.Verify? && Reads(t, op)
    ensures var v, t' := Verdict(op), Serve(t, op);
            && t'.transactions == t.transactions && t'.events == t.events && t'.results == t.results + [v]
            && |t'.requests| == |t.requests|
            && forall r :: 0 <= r < |t.requests| ==>
                 t'.requests[r] == if v.isConfirmed && v.paymentRequestId == Some(r) then t.requests[r].(isFulfilled := true)
                                   else t.requests[r]
  {
  }

  /**
    The other direction: when the merchant has a row with the reference, and every such row is
    SUCCESS and meets the request's amount, the request is confirmed and fulfilled, whichever row
    the search returns.
   */
  lemma PaidRequestIsFulfilled(t: Tables, op: Operation, i: nat, r: nat)
    requires op.Verify? && Reads(t, op) && op.request.Some? && op.request.value.0 == r
    requires i < |t.transactions|
    requires t.transactions[i].businessId == Some(op.business) && t.transactions[i].publicReference == op.claimedReference
    requires forall j :: 0 <= j < |t.transactions| && t.transactions[j].businessId == Some(op.business)
                         && t.transactions[j].publicReference == op.claimedReference ==>
               t.transactions[j].status == Success
               && -0.01 < t.transactions[j].amount - t.requests[r].expectedAmount < 0.01
    ensures Verdict(op).isConfirmed && r < |Serve(t, op).requests| && Serve(t, op).requests[r].isFulfilled
  {
    FoundInFields(t, op);
    VerdictInFields(t, op);
    VerificationInFields(t, op);
  }

  // ---------- The services ----------

  datatype Error = NotFound

  class LedgerService {
    var transactions: seq<Transaction>
    var events: seq<TxEvent>
    var requests: seq<PaymentRequest>
    var results: seq<Verification>

    ghost function State(): Tables reads this { Tables(transactions, events, requests, results) }

    constructor ()
      ensures State() == EMPTY
    {
      transactions, events, requests, results := [], [], [], [];
    }

    /** The transaction that captures a record: the row and the first event of its log. */
    method Record(reference: string, amount: real, claimedStatus: Option<TxStatus>,
                  businessId: Option<string>, userId: Option<string>) returns (id: nat)
      modifies this
      ensures id == |old(transactions)|
      ensures State() == Serve(old(State()), Capture(reference, amount, claimedStatus, businessId, userId))
      ensures var status := if claimedStatus.Some? then claimedStatus.value else Pending;
              && transactions == old(transactions) + [Transaction(reference, amount, businessId, userId, status, status, None)]
              && events == old(events) + [TxEvent(id, None, status)]
              && requests == old(requests) && results == old(results)
    {
      var status := if claimedStatus.Some? then claimedStatus.value else Pending;
      var created := Transaction(reference, amount, businessId, userId, status, status, None);
      id := |transactions|;
      transactions := transactions + [created];
      events := events + [TxEvent(id, None, created.status)];
    }

    method CreateTransaction(publicReference: string, amount: real, claimedStatus: Option<TxStatus>,
                             businessId: Option<string>, userId: Option<string>) returns (id: nat)
      modifies this
      ensures id == |old(transactions)|
      ensures State() == Serve(old(State()), Capture(Trim(publicReference), amount, claimedStatus, businessId, userId))
      ensures var status := if claimedStatus.Some? then claimedStatus.value else Pending;
              && transactions
                 == old(transactions) + [Transaction(Trim(publicReference), amount, businessId, userId, status, status, None)]
              && events == old(events) + [TxEvent(id, None, status)]
              && requests == old(requests) && results == old(results)
    {
      id := Record(Trim(publicReference), amount, claimedStatus, businessId, userId);
    }

    method UpdateTransactionStatus(id: nat, newStatus: TxStatus) returns (r: Result<Transaction, Error>)
      modifies this
      ensures r.Ok? <==> id < |old(transactions)|
      ensures r.Ok? ==> State() == Serve(old(State()), Update(id, old(transactions)[id], newStatus))
      ensures r.Ok? ==> r.value == transactions[id]
      ensures r.Ok? ==>
                && transactions == old(transactions)[id := old(transactions)[id].(status := newStatus, verifiedStatus := Some(newStatus))]
                && events == old(events) + [TxEvent(id, Some(old(transactions)[id].status), newStatus)]
                && requests == old(requests) && results == old(results)
      ensures r.Err? ==> State() == old(State())
    {
      if id >= |transactions| {
        return Err(NotFound);
      }
      var previousStatus := transactions[id].status;
      var result := transactions[id].(status := newStatus, verifiedStatus := Some(newStatus));
      transactions := transactions[id := result];
      events := events + [TxEvent(id, Some(previousStatus), newStatus)];
      return Ok(result);
    }

    method CreatePaymentRequest(businessId: string, expectedAmount: real, expiresInMinutes: int, now: int) returns (id: nat)
      modifies this
      ensures id == |old(requests)|
      ensures State() == Serve(old(State()), Request(businessId, expectedAmount, now + expiresInMinutes * 60 * 1000))
      ensures requests == old(requests) + [PaymentRequest(businessId, expectedAmount, now + expiresInMinutes * 60000, false)]
      ensures transactions == old(transactions) && events == old(events) && results == old(results)
    {
      id := |requests|;
      requests := requests + [PaymentRequest(businessId, expectedAmount, now + expiresInMinutes * 60 * 1000, false)];
    }

    /** `findFirst` without an order: any row that matches. */
    method FindTransaction(businessId: string, reference: string) returns (id: Option<nat>)
      ensures id.Some? ==> id.value < |transactions| && IsMatch(transactions[id.value], businessId, reference)
      ensures id.Some? ==> transactions[id.value].businessId == Some(businessId)
                           && transactions[id.value].publicReference == reference
      ensures id.None? ==> forall i :: 0 <= i < |transactions| ==> !IsMatch(transactions[i], businessId, reference)
    {
      if i :| 0 <= i < |transactions| && IsMatch(transactions[i], businessId, reference) {
        return Some(i);
      }
      return None;
    }

    /** The branches that settle whether a claim is confirmed, and how surely. */
    method DecideClaim(transaction: Option<Transaction>, expected: Option<real>) returns (d: Decision)
      ensures d == Decide(transaction, expected)
    {
      var isConfirmed, confidenceLevel, verifiedAmount := false, Unverified, None;
      if transaction.Some? {
        verifiedAmount := Some(transaction.value.amount);
        if transaction.value.status == Success {
          var available := expected.Some? && expected.value != 0.0;
          if available && Within(transaction.value.amount, expected.value) {
            isConfirmed := true;
            confidenceLevel := High;
          } else if available {
            confidenceLevel := Medium;
          } else {
            isConfirmed := true;
            confidenceLevel := High;
          }
        } else {
          confidenceLevel := Low;
        }
      }
      d := Decision(isConfirmed, confidenceLevel, verifiedAmount);
    }

    /** The operation that verifying a reference amounts to, given the transaction that was found. */
    ghost function VerifyOp(businessId: string, paymentRequestId: Option<nat>, cleanRef: string,
                            claimedAmount: Option<real>, found: Option<nat>): Operation
      reads this
      requires paymentRequestId.Some? ==> paymentRequestId.value < |requests|
      requires found.Some? ==> found.value < |transactions|
    {
      Verify(businessId,
             if paymentRequestId.Some? then Some((paymentRequestId.value, requests[paymentRequestId.value])) else None,
             if found.Some? then Some((found.value, transactions[found.value])) else None,
             cleanRef, claimedAmount)
    }

    method VerifyReference(businessId: string, paymentRequestId: Option<nat>, cleanRef: string,
                           claimedAmount: Option<real>) returns (v: Verification)
      requires paymentRequestId.Some? ==>
                 paymentRequestId.value < |requests| && requests[paymentRequestId.value].businessId == businessId
      modifies this
      ensures v.transactionId.Some? ==> v.transactionId.value < |old(transactions)|
      ensures var op := old(VerifyOp(businessId, paymentRequestId, cleanRef, claimedAmount, v.transactionId));
              Reads(old(State()), op) && v == Verdict(op) && State() == Serve(old(State()), op)
    {
      var found := FindTransaction(businessId, cleanRef);
      var transaction := if found.Some? then Some(transactions[found.value]) else None;
      var expected := if paymentRequestId.Some? then Some(requests[paymentRequestId.value].expectedAmount) else claimedAmount;
      ghost var op := VerifyOp(businessId, paymentRequestId, cleanRef, claimedAmount, found);
      assert Reads(State(), op);
      var d := DecideClaim(transaction, expected);
      v := Verification(paymentRequestId, found, cleanRef, d.verifiedAmount, d.isConfirmed, d.confidenceLevel);
      results := results + [v];
      if v.isConfirmed && paymentRequestId.Some? {
        requests := requests[paymentRequestId.value := requests[paymentRequestId.value].(isFulfilled := true)];
      }
    }

    method VerifyPayment(businessId: string, paymentRequestId: Option<nat>, claimedReference: string,
                         claimedAmount: Option<real>) returns (r: Result<Verification, Error>)
      modifies this
      ensures r.Err? <==> paymentRequestId.Some? &&
                          (paymentRequestId.value >= |old(requests)|
                           || old(requests)[paymentRequestId.value].businessId != businessId)
      ensures r.Err? ==> State() == old(State())
      ensures r.Ok? ==> r.value.transactionId.Some? ==> r.value.transactionId.value < |old(transactions)|
      ensures r.Ok? ==>
                var op := old(VerifyOp(businessId, paymentRequestId, Trim(claimedReference), claimedAmount, r.value.transactionId));
                Reads(old(State()), op) && r.value == Verdict(op) && State() == Serve(old(State()), op)
      ensures r.Ok? ==>
                r.value.claimedReference == Trim(claimedReference) && r.value.paymentRequestId == paymentRequestId
      ensures r.Ok? ==>
                (r.value.transactionId.None? <==>
                   forall i :: 0 <= i < |old(transactions)| ==>
                     !(old(transactions)[i].businessId == Some(businessId)
                       && old(transactions)[i].publicReference == Trim(claimedReference)))
      ensures r.Ok? && r.value.transactionId.None? ==>
                !r.value.isConfirmed && r.value.confidenceLevel == Unverified && r.value.verifiedAmount == None
      ensures r.Ok? && r.value.transactionId.Some? ==>
                var tx := old(transactions)[r.value.transactionId.value];
                var expected := if paymentRequestId.Some? then Some(old(requests)[paymentRequestId.value].expectedAmount)
                                else claimedAmount;
                && tx.businessId == Some(businessId) && tx.publicReference == Trim(claimedReference)
                && r.value.verifiedAmount == Some(tx.amount)
                && (r.value.isConfirmed <==>
                      tx.status == Success
                      && (expected.None? || expected.value == 0.0 || -0.01 < tx.amount - expected.value < 0.01))
                && r.value.confidenceLevel == if tx.status != Success then Low else if r.value.isConfirmed then High else Medium
      ensures r.Ok? ==>
                && transactions == old(transactions) && events == old(events) && results == old(results) + [r.value]
                && |requests| == |old(requests)|
                && forall k :: 0 <= k < |requests| ==>
                     requests[k] == if r.value.isConfirmed && paymentRequestId == Some(k) then old(requests)[k].(isFulfilled := true)
                                    else old(requests)[k]
    {
      if paymentRequestId.Some? {
        if paymentRequestId.value >= |requests| || requests[paymentRequestId.value].businessId != businessId {
          return Err(NotFound);
        }
      }
      var v := VerifyReference(businessId, paymentRequestId, Trim(claimedReference), claimedAmount);
      ghost var op := old(VerifyOp(businessId, paymentRequestId, Trim(claimedReference), claimedAmount, v.transactionId));
      FoundInFields(old(State()), op);
      VerdictInFields(old(State()), op);
      VerificationInFields(old(State()), op);
      return Ok(v);
    }
  }
}
