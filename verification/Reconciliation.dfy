/**
  Matching claimed payments against a merchant's ledger.

  `MatchClaim` says what one claim is answered with, by plain scans of the ledger. The service
  builds a last-wins index by reference and runs one counting loop; `ReconcileBatch` proves it
  against the per-claim answers. Matches are not consumed: two claims may name the same row.
 */
module Reconciliation {
  import opened Wrappers
  import opened Text
  import opened Money

  datatype LedgerRow = LedgerRow(id: string, businessId: Option<string>, publicReference: string, amount: real)

  datatype Claim = Claim(claimedReference: string, claimedAmount: real)

  datatype Status = Matched | PartialMatch | Unmatched | Mismatch

  datatype MatchResult = MatchResult(
    claimedReference: string, actualReference: Option<string>,
    claimedAmount: real, actualAmount: Option<real>,
    status: Status, confidenceScore: int, matchedTransactionId: Option<string>)

  datatype Job = Job(
    businessId: string, totalRecords: nat,
    matchedCount: nat, partialCount: nat, unmatchedCount: nat, mismatchCount: nat)

  datatype StoredResult = StoredResult(jobId: nat, result: MatchResult)

  // ---------- The answer to one claim ----------

  function CleanReference(reference: string): string {
    Trim(Lower(reference))
  }

  /** How references are brought to a common spelling; `CleanReference` in the service. */
  type Cleaner = string -> string

  predicate SameReference(clean: Cleaner, row: LedgerRow, reference: string) {
    clean(row.publicReference) == clean(reference)
  }

  /** The last row with the reference. */
  function LastWithReference(clean: Cleaner, ledger: seq<LedgerRow>, reference: string): Option<LedgerRow> {
    if ledger == [] then None
    else if SameReference(clean, ledger[|ledger| - 1], reference) then Some(ledger[|ledger| - 1])
    else LastWithReference(clean, ledger[..|ledger| - 1], reference)
  }

  /** The first row whose amount is close enough. */
  function FirstWithin(ledger: seq<LedgerRow>, amount: real): Option<LedgerRow> {
    if ledger == [] then None
    else if Within(ledger[0].amount, amount) then Some(ledger[0])
    else FirstWithin(ledger[1..], amount)
  }

  ghost predicate IsLast(clean: Cleaner, ledger: seq<LedgerRow>, reference: string, i: int) {
    && -1 <= i < |ledger|
    && (0 <= i ==> SameReference(clean, ledger[i], reference))
    && forall j :: i < j < |ledger| ==> !SameReference(clean, ledger[j], reference)
  }

  ghost predicate IsFirst(ledger: seq<LedgerRow>, amount: real, i: nat) {
    && i <= |ledger|
    && (i < |ledger| ==> Within(ledger[i].amount, amount))
    && forall j :: 0 <= j < i ==> !Within(ledger[j].amount, amount)
  }

  lemma {:induction false} LastMeans(clean: Cleaner, ledger: seq<LedgerRow>, reference: string) returns (i: int)
    ensures IsLast(clean, ledger, reference, i)
    ensures LastWithReference(clean, ledger, reference) == if i == -1 then None else Some(ledger[i])
  {
    if ledger == [] {
      i := -1;
    } else if SameReference(clean, ledger[|ledger| - 1], reference) {
      i := |ledger| - 1;
    } else {
      i := LastMeans(clean, ledger[..|ledger| - 1], reference);
    }
  }

  lemma {:induction false} FirstMeans(ledger: seq<LedgerRow>, amount: real) returns (i: nat)
    ensures IsFirst(ledger, amount, i)
    ensures FirstWithin(ledger, amount) == if i == |ledger| then None else Some(ledger[i])
  {
    if ledger == [] || Within(ledger[0].amount, amount) {
      i := 0;
    } else {
      var k := FirstMeans(ledger[1..], amount);
      i := k + 1;
      assert forall j :: 1 <= j < |ledger| ==> ledger[j] == ledger[1..][j - 1];
    }
  }

  function Answer(c: Claim, row: LedgerRow, status: Status, confidenceScore: int): MatchResult {
    MatchResult(c.claimedReference, Some(row.publicReference), c.claimedAmount, Some(row.amount),
                status, confidenceScore, Some(row.id))
  }

  function MatchClaim(clean: Cleaner, ledger: seq<LedgerRow>, c: Claim): MatchResult {
    match LastWithReference(clean, ledger, c.claimedReference)
    case Some(row) =>
      if Within(row.amount, c.claimedAmount) then Answer(c, row, Matched, 99) else Answer(c, row, Mismatch, 45)
    case None =>
      match FirstWithin(ledger, c.claimedAmount)
      case Some(row) => Answer(c, row, PartialMatch, 70)
      case None => MatchResult(c.claimedReference, None, c.claimedAmount, None, Unmatched, 0, None)
  }

  function MatchAll(clean: Cleaner, ledger: seq<LedgerRow>, claims: seq<Claim>): (results: seq<MatchResult>)
    ensures |results| == |claims|
    ensures forall k :: 0 <= k < |claims| ==> results[k] == MatchClaim(clean, ledger, claims[k])
  {
    seq(|claims|, k requires 0 <= k < |claims| => MatchClaim(clean, ledger, claims[k]))
  }

  function Count(results: seq<MatchResult>, s: Status): nat {
    if results == [] then 0
    else Count(results[..|results| - 1], s) + if results[|results| - 1].status == s then 1 else 0
  }

  // ---------- What the answers mean ----------

  /** Each status, told from the ledger alone. */
  lemma StatusMeans(clean: Cleaner, ledger: seq<LedgerRow>, c: Claim)
    ensures var r := MatchClaim(clean, ledger, c);
            var known := exists i :: 0 <= i < |ledger| && SameReference(clean, ledger[i], c.claimedReference);
            var close := exists i :: 0 <= i < |ledger| && Within(ledger[i].amount, c.claimedAmount);
            && (r.status == Unmatched <==> !known && !close)
            && (r.status == PartialMatch <==> !known && close)
            && (r.status == Matched || r.status == Mismatch <==> known)
            && (r.matchedTransactionId.None? <==> r.status == Unmatched)
  {
    var last := LastMeans(clean, ledger, c.claimedReference);
    var first := FirstMeans(ledger, c.claimedAmount);
  }

  /** A result names a row of the ledger, and repeats its reference and amount. */
  lemma ResultNamesARow(clean: Cleaner, ledger: seq<LedgerRow>, c: Claim)
    ensures var r := MatchClaim(clean, ledger, c);
            r.status != Unmatched ==>
              exists i :: && 0 <= i < |ledger|
                          && r.matchedTransactionId == Some(ledger[i].id)
                          && r.actualReference == Some(ledger[i].publicReference)
                          && r.actualAmount == Some(ledger[i].amount)
                          && (r.status == PartialMatch || SameReference(clean, ledger[i], c.claimedReference))
                          && (r.status == Mismatch || Within(ledger[i].amount, c.claimedAmount))
  {
    var last := LastMeans(clean, ledger, c.claimedReference);
    var first := FirstMeans(ledger, c.claimedAmount);
  }

  /** The last row with the claim's reference is within 0.01 of its amount. */
  ghost predicate LastRowMeets(clean: Cleaner, ledger: seq<LedgerRow>, c: Claim) {
    exists i :: && 0 <= i < |ledger| && clean(ledger[i].publicReference) == clean(c.claimedReference)
                && (forall j :: i < j < |ledger| ==> clean(ledger[j].publicReference) != clean(c.claimedReference))
                && -0.01 < ledger[i].amount - c.claimedAmount < 0.01
  }

  /** A result repeats its claim, its amounts show its status, and its confidence goes with its status. */
  predicate TellsItsClaim(r: MatchResult, c: Claim) {
    && r.claimedReference == c.claimedReference && r.claimedAmount == c.claimedAmount
    && (r.status == Matched ==> r.confidenceScore == 99) && (r.status == PartialMatch ==> r.confidenceScore == 70)
    && (r.status == Mismatch ==> r.confidenceScore == 45) && (r.status == Unmatched ==> r.confidenceScore == 0)
    && (r.actualAmount.None? <==> r.status == Unmatched) && (r.actualReference.None? <==> r.status == Unmatched)
    && (r.matchedTransactionId.None? <==> r.status == Unmatched)
    && (r.status == Matched || r.status == PartialMatch ==> -0.01 < r.actualAmount.value - r.claimedAmount < 0.01)
    && (r.status == Mismatch ==> !(-0.01 < r.actualAmount.value - r.claimedAmount < 0.01))
  }

  ghost predicate Fits(clean: Cleaner, ledger: seq<LedgerRow>, r: MatchResult, c: Claim) {
    TellsItsClaim(r, c) && (r.status == Matched <==> LastRowMeets(clean, ledger, c))
  }

  lemma AllResultsFit(clean: Cleaner, ledger: seq<LedgerRow>, claims: seq<Claim>, results: seq<MatchResult>)
    requires results == MatchAll(clean, ledger, claims)
    ensures forall k :: 0 <= k < |claims| ==> Fits(clean, ledger, results[k], claims[k])
  {
    forall k | 0 <= k < |claims| ensures Fits(clean, ledger, results[k], claims[k]) { ResultInFields(clean, ledger, claims[k]); }
  }

  /**
    A result in its own fields: it repeats the claim; it is MATCHED or a MISMATCH as the last row with
    the reference is within 0.01 of the claimed amount or not, and its amounts show it; and its
    confidence goes with its status.
   */
  lemma ResultInFields(clean: Cleaner, ledger: seq<LedgerRow>, c: Claim)
    ensures Fits(clean, ledger, MatchClaim(clean, ledger, c), c)
  {
    var last := LastMeans(clean, ledger, c.claimedReference);
    var first := FirstMeans(ledger, c.claimedAmount);
    if LastRowMeets(clean, ledger, c) {
      var i :| && 0 <= i < |ledger| && clean(ledger[i].publicReference) == clean(c.claimedReference)
               && (forall j :: i < j < |ledger| ==> clean(ledger[j].publicReference) != clean(c.claimedReference))
               && -0.01 < ledger[i].amount - c.claimedAmount < 0.01;
      assert SameReference(clean, ledger[i], c.claimedReference);
      assert i == last;
    }
  }

  /**
    A claim that the row at `i` meets in reference and amount is confirmed exactly when the last row
    with that reference meets it too: a later row with the same reference hides the earlier one.
   */
  lemma ConfirmedUnlessHidden(clean: Cleaner, ledger: seq<LedgerRow>, c: Claim, i: nat, last: nat)
    requires i < |ledger| && SameReference(clean, ledger[i], c.claimedReference) && Within(ledger[i].amount, c.claimedAmount)
    requires last < |ledger| && IsLast(clean, ledger, c.claimedReference, last)
    ensures MatchClaim(clean, ledger, c).status == Matched <==> Within(ledger[last].amount, c.claimedAmount)
  {
    var l := LastMeans(clean, ledger, c.claimedReference);
  }

  lemma TrailingSpaceIsTrimmed()
    ensures CleanReference("REF") == CleanReference("ref ") == "ref"
  {
    assert Lower("REF") == "ref" && Lower("ref ") == "ref ";
    TrimmedWord("ref", "");
    TrimmedWord("ref", " ");
  }

  lemma TrimmedWord(word: string, space: string)
    requires word != [] && !IsSpace(word[0]) && !IsSpace(word[|word| - 1])
    requires space == "" || space == " "
    ensures Trim(word + space) == word
  {
    var s := word + space;
    assert TrimStart(s) == s;
    if space == " " {
      assert s[..|s| - 1] == word && s[|s| - 1] == ' ';
      assert TrimEnd(word) == word;
    } else {
      assert s == word;
    }
  }

  /** A paid claim reported as a mismatch, because a later row repeats the reference. */
  lemma HiddenMatch(clean: Cleaner, paid: LedgerRow, later: LedgerRow)
    requires clean == CleanReference
    requires paid == LedgerRow("1", None, "REF", 500.0) && later == LedgerRow("2", None, "ref ", 20.0)
    ensures MatchClaim(clean, [paid], Claim("REF", 500.0)).status == Matched
    ensures MatchClaim(clean, [paid, later], Claim("REF", 500.0)).status == Mismatch
  {
    TrailingSpaceIsTrimmed();
    assert LastWithReference(clean, [paid, later], "REF") == Some(later);
    assert [paid, later][..1] == [paid] && [paid][..0] == [];
    assert LastWithReference(clean, [paid], "REF") == Some(paid);
  }

  /** Appending rows keeps a confirmation exactly when they do not hide it. */
  lemma {:induction false} LastWithReferenceConcat(clean: Cleaner, a: seq<LedgerRow>, b: seq<LedgerRow>, reference: string)
    ensures LastWithReference(clean, a + b, reference)
         == if LastWithReference(clean, b, reference).Some? then LastWithReference(clean, b, reference)
            else LastWithReference(clean, a, reference)
  {
    if b == [] {
      assert a + b == a;
    } else {
      assert (a + b)[..|a + b| - 1] == a + b[..|b| - 1];
      LastWithReferenceConcat(clean, a, b[..|b| - 1], reference);
    }
  }

  lemma AppendingKeepsConfirmation(clean: Cleaner, ledger: seq<LedgerRow>, extra: seq<LedgerRow>, c: Claim)
    requires MatchClaim(clean, ledger, c).status == Matched
    ensures MatchClaim(clean, ledger + extra, c).status == Matched
       <==> (LastWithReference(clean, extra, c.claimedReference).Some? ==>
               Within(LastWithReference(clean, extra, c.claimedReference).value.amount, c.claimedAmount))
  {
    LastWithReferenceConcat(clean, ledger, extra, c.claimedReference);
  }

  // ---------- Counters ----------

  lemma {:induction false} CountConcat(a: seq<MatchResult>, b: seq<MatchResult>, s: Status)
    ensures Count(a + b, s) == Count(a, s) + Count(b, s)
  {
    if b == [] {
      assert a + b == a;
    } else {
      assert (a + b)[..|a + b| - 1] == a + b[..|b| - 1];
      CountConcat(a, b[..|b| - 1], s);
    }
  }

  lemma CountAppend(results: seq<MatchResult>, r: MatchResult)
    ensures forall s :: Count(results + [r], s) == Count(results, s) + if r.status == s then 1 else 0
  {
    assert (results + [r])[..|results|] == results;
  }

  lemma MatchAllConcat(clean: Cleaner, ledger: seq<LedgerRow>, a: seq<Claim>, b: seq<Claim>)
    ensures MatchAll(clean, ledger, a + b) == MatchAll(clean, ledger, a) + MatchAll(clean, ledger, b)
  {
  }

  /** Splitting a batch splits its results and adds up its counters. */
  lemma BatchesConcatenate(clean: Cleaner, ledger: seq<LedgerRow>, a: seq<Claim>, b: seq<Claim>, s: Status)
    ensures MatchAll(clean, ledger, a + b) == MatchAll(clean, ledger, a) + MatchAll(clean, ledger, b)
    ensures Count(MatchAll(clean, ledger, a + b), s) == Count(MatchAll(clean, ledger, a), s) + Count(MatchAll(clean, ledger, b), s)
  {
    MatchAllConcat(clean, ledger, a, b);
    CountConcat(MatchAll(clean, ledger, a), MatchAll(clean, ledger, b), s);
  }

  /** Every result is counted exactly once. */
  lemma {:induction false} CountersPartition(results: seq<MatchResult>)
    ensures Count(results, Matched) + Count(results, PartialMatch) + Count(results, Unmatched) + Count(results, Mismatch)
         == |results|
  {
    if results != [] { CountersPartition(results[..|results| - 1]); }
  }

  function Statuses(results: seq<MatchResult>): (ss: seq<Status>)
    ensures |ss| == |results|
  {
    seq(|results|, i requires 0 <= i < |results| => results[i].status)
  }

  /** The counters are the multiplicities of the statuses. */
  lemma {:induction false} CountIsMultiplicity(results: seq<MatchResult>, s: Status)
    ensures Count(results, s) == multiset(Statuses(results))[s]
  {
    if results == [] {
    } else {
      var n := |results| - 1;
      CountIsMultiplicity(results[..n], s);
      assert Statuses(results) == Statuses(results[..n]) + [results[n].status];
    }
  }

  /** A larger ledger never leaves more claims unmatched. */
  lemma {:induction false} LargerLedgerMatchesMore(clean: Cleaner, ledger: seq<LedgerRow>, extra: seq<LedgerRow>, claims: seq<Claim>)
    ensures Count(MatchAll(clean, ledger + extra, claims), Unmatched) <= Count(MatchAll(clean, ledger, claims), Unmatched)
  {
    if claims != [] {
      var n := |claims| - 1;
      var c := claims[n];
      LargerLedgerMatchesMore(clean, ledger, extra, claims[..n]);
      assert MatchAll(clean, ledger, claims)[..n] == MatchAll(clean, ledger, claims[..n]);
      assert MatchAll(clean, ledger + extra, claims)[..n] == MatchAll(clean, ledger + extra, claims[..n]);
      StatusMeans(clean, ledger, c);
      StatusMeans(clean, ledger + extra, c);
      forall i | 0 <= i < |ledger| ensures (ledger + extra)[i] == ledger[i] {}
    }
  }

  // ---------- The summary ----------

  /** A percentage, 0 when there is nothing to take it of. */
  function Rate(part: nat, whole: nat): real {
    if whole == 0 then 0.0 else part as real * 100.0 / whole as real
  }

  lemma RateIsAPercentage(part: nat, whole: nat)
    requires part <= whole
    ensures 0.0 <= Rate(part, whole) <= 100.0
  {
    if whole > 0 {
      var p, w := part as real * 100.0, whole as real;
      assert p <= w * 100.0;
      assert p / w <= w * 100.0 / w;
    }
  }

  lemma {:induction false} CountIsBounded(results: seq<MatchResult>, status: Status)
    ensures Count(results, status) <= |results|
  {
    if results != [] { CountIsBounded(results[..|results| - 1], status); }
  }

  // ---------- The tables ----------

  /** The rows of one business, in the order of the table. */
  function OwnRows(rows: seq<LedgerRow>, businessId: string): seq<LedgerRow> {
    if rows == [] then []
    else
      var before, row := OwnRows(rows[..|rows| - 1], businessId), rows[|rows| - 1];
      if row.businessId == Some(businessId) then before + [row] else before
  }

  datatype Tables = Tables(jobs: seq<Job>, results: seq<StoredResult>)

  function Stored(jobId: nat, results: seq<MatchResult>): seq<StoredResult> {
    seq(|results|, i requires 0 <= i < |results| => StoredResult(jobId, results[i]))
  }

  function JobFor(businessId: string, results: seq<MatchResult>): Job {
    Job(businessId, |results|, Count(results, Matched), Count(results, PartialMatch),
        Count(results, Unmatched), Count(results, Mismatch))
  }

  function AddJob(clean: Cleaner, t: Tables, businessId: string, ledger: seq<LedgerRow>, claims: seq<Claim>): Tables {
    var results := MatchAll(clean, ledger, claims);
    Tables(t.jobs + [JobFor(businessId, results)], t.results + Stored(|t.jobs|, results))
  }

  /** The results of one job, in the order they were stored. */
  function ResultsOf(results: seq<StoredResult>, jobId: nat): seq<MatchResult> {
    if results == [] then []
    else
      var r := results[|results| - 1];
      ResultsOf(results[..|results| - 1], jobId) + if r.jobId == jobId then [r.result] else []
  }

  lemma {:induction false} ResultsOfConcat(a: seq<StoredResult>, b: seq<StoredResult>, jobId: nat)
    ensures ResultsOf(a + b, jobId) == ResultsOf(a, jobId) + ResultsOf(b, jobId)
  {
    if b == [] {
      assert a + b == a;
    } else {
      assert (a + b)[..|a + b| - 1] == a + b[..|b| - 1];
      ResultsOfConcat(a, b[..|b| - 1], jobId);
    }
  }

  lemma {:induction false} ResultsOfStored(jobId: nat, results: seq<MatchResult>, k: nat)
    ensures ResultsOf(Stored(jobId, results), k) == if k == jobId then results else []
  {
    if results != [] {
      var n := |results| - 1;
      assert Stored(jobId, results)[..n] == Stored(jobId, results[..n]);
      ResultsOfStored(jobId, results[..n], k);
      assert results[..n] + [results[n]] == results;
    }
  }

  /** Every job row agrees with the result rows stored for it, and no result row is without a job. */
  ghost predicate Consistent(t: Tables) {
    && (forall j :: 0 <= j < |t.jobs| ==> t.jobs[j] == JobFor(t.jobs[j].businessId, ResultsOf(t.results, j)))
    && (forall j: nat :: |t.jobs| <= j ==> ResultsOf(t.results, j) == [])
  }

  lemma ResultsAfterAdding(results: seq<StoredResult>, jobId: nat, added: seq<MatchResult>, j: nat)
    ensures ResultsOf(results + Stored(jobId, added), j) == ResultsOf(results, j) + if j == jobId then added else []
  {
    ResultsOfConcat(results, Stored(jobId, added), j);
    ResultsOfStored(jobId, added, j);
  }

  lemma AddJobKeepsConsistent(clean: Cleaner, t: Tables, businessId: string, ledger: seq<LedgerRow>, claims: seq<Claim>)
    requires Consistent(t)
    ensures Consistent(AddJob(clean, t, businessId, ledger, claims))
    ensures ResultsOf(AddJob(clean, t, businessId, ledger, claims).results, |t.jobs|) == MatchAll(clean, ledger, claims)
  {
    var t', added := AddJob(clean, t, businessId, ledger, claims), MatchAll(clean, ledger, claims);
    forall j: nat ensures ResultsOf(t'.results, j) == if j == |t.jobs| then added else ResultsOf(t.results, j) {
      ResultsAfterAdding(t.results, |t.jobs|, added, j);
    }
  }

  /** A batch with the rows that its business had in the ledger at the time. */
  datatype Batch = Batch(businessId: string, ledger: seq<LedgerRow>, claims: seq<Claim>)

  function Run(clean: Cleaner, batches: seq<Batch>): Tables {
    if batches == [] then Tables([], [])
    else
      var b := batches[|batches| - 1];
      AddJob(clean, Run(clean, batches[..|batches| - 1]), b.businessId, b.ledger, b.claims)
  }

  lemma {:induction false} RunIsConsistent(clean: Cleaner, batches: seq<Batch>)
    ensures Consistent(Run(clean, batches))
  {
    if batches != [] {
      var b := batches[|batches| - 1];
      RunIsConsistent(clean, batches[..|batches| - 1]);
      AddJobKeepsConsistent(clean, Run(clean, batches[..|batches| - 1]), b.businessId, b.ledger, b.claims);
    }
  }

  lemma {:induction false} OwnRowsAreOwn(rows: seq<LedgerRow>, businessId: string)
    ensures forall row :: row in OwnRows(rows, businessId) <==> row in rows && row.businessId == Some(businessId)
  {
    if rows != [] {
      var n := |rows| - 1;
      OwnRowsAreOwn(rows[..n], businessId);
      assert rows == rows[..n] + [rows[n]];
    }
  }

  /** The rows of a business are picked one by one: none is lost, repeated or moved. */
  lemma {:induction false} OwnRowsConcat(a: seq<LedgerRow>, b: seq<LedgerRow>, businessId: string)
    ensures OwnRows(a + b, businessId) == OwnRows(a, businessId) + OwnRows(b, businessId)
  {
    if b == [] {
      assert a + b == a;
    } else {
      assert (a + b)[..|a + b| - 1] == a + b[..|b| - 1];
      OwnRowsConcat(a, b[..|b| - 1], businessId);
    }
  }

  lemma OwnRowAlone(row: LedgerRow, businessId: string)
    ensures OwnRows([row], businessId) == if row.businessId == Some(businessId) then [row] else []
  {
    assert [row][..0] == [];
  }

  /** A batch of one business never names a transaction of another, whatever the claims. */
  lemma ResultsStayInBusiness(clean: Cleaner, rows: seq<LedgerRow>, businessId: string, claims: seq<Claim>, k: nat)
    requires k < |claims|
    ensures var r := MatchAll(clean, OwnRows(rows, businessId), claims)[k];
            r.matchedTransactionId.Some? ==>
              exists row :: && row in rows && row.businessId == Some(businessId)
                            && r.matchedTransactionId == Some(row.id) && r.actualReference == Some(row.publicReference)
  {
    var own := OwnRows(rows, businessId);
    OwnRowsAreOwn(rows, businessId);
    StatusMeans(clean, own, claims[k]);
    ResultNamesARow(clean, own, claims[k]);
    var r := MatchAll(clean, own, claims)[k];
    if r.matchedTransactionId.Some? {
      var i :| 0 <= i < |own| && r.matchedTransactionId == Some(own[i].id) && r.actualReference == Some(own[i].publicReference);
      assert own[i] in own;
    }
  }

  // ---------- The service ----------

  class ReconciliationService {
    var jobs: seq<Job>
    var results: seq<StoredResult>
    const clean: Cleaner

    ghost function State(): Tables reads this { Tables(jobs, results) }

    constructor ()
      ensures State() == Run(clean, []) && clean == CleanReference
    {
      clean := CleanReference;
      jobs, results := [], [];
    }

    method BuildIndex(knownTransactions: seq<LedgerRow>) returns (txMap: map<string, LedgerRow>)
      ensures forall reference :: Get(txMap, clean(reference)) == LastWithReference(clean, knownTransactions, reference)
    {
      txMap := map[];
      for i := 0 to |knownTransactions|
        invariant forall reference ::
                    Get(txMap, clean(reference)) == LastWithReference(clean, knownTransactions[..i], reference)
      {
        var tx := knownTransactions[i];
        txMap := txMap[clean(tx.publicReference) := tx];
        assert knownTransactions[..i + 1][..i] == knownTransactions[..i];
      }
      assert knownTransactions[..|knownTransactions|] == knownTransactions;
    }

    /** The query for the transactions of a business. */
    method FindTransactions(transactions: seq<LedgerRow>, businessId: string) returns (own: seq<LedgerRow>)
      ensures own == OwnRows(transactions, businessId)
    {
      own := [];
      for i := 0 to |transactions|
        invariant own == OwnRows(transactions[..i], businessId)
      {
        assert transactions[..i + 1][..i] == transactions[..i];
        if transactions[i].businessId == Some(businessId) {
          own := own + [transactions[i]];
        }
      }
      assert transactions[..|transactions|] == transactions;
    }

    /** The matching loop with its four counters. */
    method MatchClaims(knownTransactions: seq<LedgerRow>, claims: seq<Claim>)
      returns (resultsToInsert: seq<MatchResult>, matchedCount: nat, partialCount: nat, unmatchedCount: nat, mismatchCount: nat)
      ensures resultsToInsert == MatchAll(clean, knownTransactions, claims)
      ensures matchedCount == Count(resultsToInsert, Matched) && partialCount == Count(resultsToInsert, PartialMatch)
      ensures unmatchedCount == Count(resultsToInsert, Unmatched) && mismatchCount == Count(resultsToInsert, Mismatch)
      ensures |resultsToInsert| == |claims|
      ensures forall k :: 0 <= k < |claims| ==> Fits(clean, knownTransactions, resultsToInsert[k], claims[k])
      ensures forall k :: 0 <= k < |claims| ==>
                resultsToInsert[k].claimedReference == claims[k].claimedReference
                && resultsToInsert[k].claimedAmount == claims[k].claimedAmount
    {
      var txMap := BuildIndex(knownTransactions);
      matchedCount, partialCount, unmatchedCount, mismatchCount := 0, 0, 0, 0;
      resultsToInsert := [];

      for i := 0 to |claims|
        invariant resultsToInsert == MatchAll(clean, knownTransactions, claims)[..i]
        invariant matchedCount == Count(resultsToInsert, Matched)
        invariant partialCount == Count(resultsToInsert, PartialMatch)
        invariant unmatchedCount == Count(resultsToInsert, Unmatched)
        invariant mismatchCount == Count(resultsToInsert, Mismatch)
      {
        var claim := claims[i];
        var cleanRef := clean(claim.claimedReference);
        var answer: MatchResult;
        assert Get(txMap, cleanRef) == LastWithReference(clean, knownTransactions, claim.claimedReference);
        if cleanRef in txMap {
          var matchedTx := txMap[cleanRef];
          if Within(matchedTx.amount, claim.claimedAmount) {
            matchedCount := matchedCount + 1;
            answer := Answer(claim, matchedTx, Matched, 99);
          } else {
            mismatchCount := mismatchCount + 1;
            answer := Answer(claim, matchedTx, Mismatch, 45);
          }
        } else {
          var fuzzyMatch := FirstWithin(knownTransactions, claim.claimedAmount);
          if fuzzyMatch.Some? {
            partialCount := partialCount + 1;
            answer := Answer(claim, fuzzyMatch.value, PartialMatch, 70);
          } else {
            unmatchedCount := unmatchedCount + 1;
            answer := MatchResult(claim.claimedReference, None, claim.claimedAmount, None, Unmatched, 0, None);
          }
        }
        assert answer == MatchClaim(clean, knownTransactions, claim);
        CountAppend(resultsToInsert, answer);
        resultsToInsert := resultsToInsert + [answer];
      }

      assert resultsToInsert == MatchAll(clean, knownTransactions, claims);
      AllResultsFit(clean, knownTransactions, claims, resultsToInsert);
    }

    /** The transaction that stores a job and its results. */
    method Persist(businessId: string, resultsToInsert: seq<MatchResult>,
                   matchedCount: nat, partialCount: nat, unmatchedCount: nat, mismatchCount: nat) returns (job: Job)
      modifies this`jobs, this`results
      ensures job == Job(businessId, |resultsToInsert|, matchedCount, partialCount, unmatchedCount, mismatchCount)
      ensures jobs == old(jobs) + [job]
      ensures results == old(results) + Stored(|old(jobs)|, resultsToInsert)
      ensures |results| == |old(results)| + |resultsToInsert| && results[..|old(results)|] == old(results)
      ensures forall k :: 0 <= k < |resultsToInsert| ==>
                results[|old(results)| + k].jobId == |old(jobs)| && results[|old(results)| + k].result == resultsToInsert[k]
    {
      job := Job(businessId, |resultsToInsert|, matchedCount, partialCount, unmatchedCount, mismatchCount);
      results := results + Stored(|jobs|, resultsToInsert);
      jobs := jobs + [job];
    }

    /** The batch, once the transactions of its business are fetched. */
    method MatchAndPersist(businessId: string, knownTransactions: seq<LedgerRow>, claims: seq<Claim>) returns (job: Job)
      modifies this`jobs, this`results
      ensures State() == AddJob(clean, old(State()), businessId, knownTransactions, claims)
      ensures job == JobFor(businessId, MatchAll(clean, knownTransactions, claims))
      ensures jobs == old(jobs) + [job]
      ensures |results| == |old(results)| + |claims| && results[..|old(results)|] == old(results)
      ensures forall k :: 0 <= k < |claims| ==>
                && results[|old(results)| + k].jobId == |old(jobs)|
                && Fits(clean, knownTransactions, results[|old(results)| + k].result, claims[k])
    {
      var resultsToInsert, matchedCount, partialCount, unmatchedCount, mismatchCount := MatchClaims(knownTransactions, claims);
      job := Persist(businessId, resultsToInsert, matchedCount, partialCount, unmatchedCount, mismatchCount);
    }

    /** `transactions` is the table of all businesses, in the order in which its query lists it. */
    method ReconcileBatch(businessId: string, transactions: seq<LedgerRow>, claims: seq<Claim>)
      returns (job: Job, reconciliationRate: real)
      modifies this`jobs, this`results
      ensures State() == AddJob(clean, old(State()), businessId, OwnRows(transactions, businessId), claims)
      ensures job == JobFor(businessId, MatchAll(clean, OwnRows(transactions, businessId), claims))
      ensures reconciliationRate == Rate(job.matchedCount, |claims|) && 0.0 <= reconciliationRate <= 100.0
      ensures reconciliationRate == if |claims| == 0 then 0.0 else job.matchedCount as real * 100.0 / |claims| as real
      ensures jobs == old(jobs) + [job] && job.businessId == businessId && job.totalRecords == |claims|
      ensures |results| == |old(results)| + |claims| && results[..|old(results)|] == old(results)
      ensures forall k :: 0 <= k < |claims| ==>
                var stored := results[|old(results)| + k];
                && stored.jobId == |old(jobs)| && Fits(clean, OwnRows(transactions, businessId), stored.result, claims[k])
                && stored.result.claimedReference == claims[k].claimedReference
                && stored.result.claimedAmount == claims[k].claimedAmount
      ensures var added := MatchAll(clean, OwnRows(transactions, businessId), claims);
              && job.matchedCount == Count(added, Matched) && job.partialCount == Count(added, PartialMatch)
              && job.unmatchedCount == Count(added, Unmatched) && job.mismatchCount == Count(added, Mismatch)
    {
      var knownTransactions := FindTransactions(transactions, businessId);
      job := MatchAndPersist(businessId, knownTransactions, claims);
      CountIsBounded(MatchAll(clean, knownTransactions, claims), Matched);
      RateIsAPercentage(job.matchedCount, |claims|);
      reconciliationRate := if |claims| > 0 then job.matchedCount as real * 100.0 / |claims| as real else 0.0;
    }

    /** The results of a job, if it belongs to the business. */
    method GetJobResults(jobId: nat, businessId: string) returns (found: Option<seq<MatchResult>>)
      requires Consistent(State())
      ensures match found
              case None => jobId >= |jobs| || jobs[jobId].businessId != businessId
              case Some(rs) =>
                && jobId < |jobs| && jobs[jobId] == JobFor(businessId, rs) && rs == ResultsOf(results, jobId)
                && jobs[jobId].businessId == businessId && jobs[jobId].totalRecords == |rs|
                && jobs[jobId].matchedCount == Count(rs, Matched) && jobs[jobId].partialCount == Count(rs, PartialMatch)
                && jobs[jobId].unmatchedCount == Count(rs, Unmatched) && jobs[jobId].mismatchCount == Count(rs, Mismatch)
    {
      if jobId < |jobs| && jobs[jobId].businessId == businessId {
        return Some(ResultsOf(results, jobId));
      }
      return None;
    }
  }
}
