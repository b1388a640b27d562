/** The platform overview: counts over cases and transactions, sums over reconciliation jobs. */
module Analytics {
  import opened Wrappers
  import C = Cases
  import L = Ledger
  import R = Reconciliation

  const RESOLVED := {C.Resolved, C.PartiallyResolved}
  const ACTIVE := {
    C.Open, C.EvidenceRequired, C.EvidenceReview, C.ReadyForComplaint,
    C.ComplaintPrepared, C.Submitted, C.ProviderReview, C.Pending}

  /** The filter of a query: one business, or all. */
  predicate InScope(businessId: Option<string>, scope: Option<string>) {
    scope.Some? ==> businessId == scope
  }

  function CountCases(cases: seq<C.Case>, scope: Option<string>, statuses: set<C.CaseStatus>): nat {
    if cases == [] then 0
    else
      var c := cases[|cases| - 1];
      CountCases(cases[..|cases| - 1], scope, statuses)
      + if InScope(c.businessId, scope) && c.status in statuses then 1 else 0
  }

  function CountAllCases(cases: seq<C.Case>, scope: Option<string>): nat {
    if cases == [] then 0
    else CountAllCases(cases[..|cases| - 1], scope) + if InScope(cases[|cases| - 1].businessId, scope) then 1 else 0
  }

  /** The claims of resolved cases, added up. */
  function Recovered(cases: seq<C.Case>, scope: Option<string>): real {
    if cases == [] then 0.0
    else
      var c := cases[|cases| - 1];
      Recovered(cases[..|cases| - 1], scope)
      + if InScope(c.businessId, scope) && c.status in RESOLVED then c.claimAmount else 0.0
  }

  function CountTransactions(transactions: seq<L.Transaction>, scope: Option<string>, statuses: set<L.TxStatus>): nat {
    if transactions == [] then 0
    else
      var t := transactions[|transactions| - 1];
      CountTransactions(transactions[..|transactions| - 1], scope, statuses)
      + if InScope(t.businessId, scope) && t.status in statuses then 1 else 0
  }

  function CountAllTransactions(transactions: seq<L.Transaction>, scope: Option<string>): nat {
    if transactions == [] then 0
    else
      CountAllTransactions(transactions[..|transactions| - 1], scope)
      + if InScope(transactions[|transactions| - 1].businessId, scope) then 1 else 0
  }

  datatype Sums = Sums(total: nat, matched: nat, unmatched: nat, mismatch: nat)

  function SumJobs(jobs: seq<R.Job>, scope: Option<string>): Sums {
    if jobs == [] then Sums(0, 0, 0, 0)
    else
      var j, s := jobs[|jobs| - 1], SumJobs(jobs[..|jobs| - 1], scope);
      if InScope(Some(j.businessId), scope) then
        Sums(s.total + j.totalRecords, s.matched + j.matchedCount, s.unmatched + j.unmatchedCount, s.mismatch + j.mismatchCount)
      else s
  }

  /** The sum that the overview does not report. */
  function SumPartial(jobs: seq<R.Job>, scope: Option<string>): nat {
    if jobs == [] then 0
    else
      SumPartial(jobs[..|jobs| - 1], scope)
      + if InScope(Some(jobs[|jobs| - 1].businessId), scope) then jobs[|jobs| - 1].partialCount else 0
  }

  datatype Overview = Overview(
    totalTransactions: nat, failedTransactions: nat,
    totalCases: nat, activeCases: nat, resolvedCases: nat, escalatedCases: nat, resolutionRate: real,
    totalRecovered: real, reconciliation: Sums, reconciliationRate: real)

  function PlatformOverview(cases: seq<C.Case>, transactions: seq<L.Transaction>, jobs: seq<R.Job>,
                            scope: Option<string>): Overview
  {
    var total, resolved, sums := CountAllCases(cases, scope), CountCases(cases, scope, RESOLVED), SumJobs(jobs, scope);
    Overview(
      CountAllTransactions(transactions, scope), CountTransactions(transactions, scope, {L.Failed, L.Disputed}),
      total, CountCases(cases, scope, ACTIVE), resolved, CountCases(cases, scope, {C.Escalated}), R.Rate(resolved, total),
      Recovered(cases, scope), sums, R.Rate(sums.matched, sums.total))
  }

  lemma StatusesAreGrouped(s: C.CaseStatus)
    ensures s in ACTIVE || s in RESOLVED || s in {C.Escalated} || s in {C.Rejected, C.Closed}
    ensures s in ACTIVE ==> s !in RESOLVED && s !in {C.Escalated} && s !in {C.Rejected, C.Closed}
    ensures s in RESOLVED ==> s !in {C.Escalated} && s !in {C.Rejected, C.Closed}
    ensures s in {C.Escalated} ==> s !in {C.Rejected, C.Closed}
  {
    match s
    case Open =>
    case EvidenceRequired =>
    case EvidenceReview =>
    case ReadyForComplaint =>
    case ComplaintPrepared =>
    case Submitted =>
    case ProviderReview =>
    case Pending =>
    case Resolved =>
    case PartiallyResolved =>
    case Rejected =>
    case Escalated =>
    case Closed =>
  }

  lemma {:induction false} CaseCountsAddUp(cases: seq<C.Case>, scope: Option<string>)
    ensures CountCases(cases, scope, ACTIVE) + CountCases(cases, scope, RESOLVED) + CountCases(cases, scope, {C.Escalated})
            + CountCases(cases, scope, {C.Rejected, C.Closed})
         == CountAllCases(cases, scope)
  {
    if cases != [] {
      CaseCountsAddUp(cases[..|cases| - 1], scope);
      StatusesAreGrouped(cases[|cases| - 1].status);
    }
  }

  lemma {:induction false} SumsAddUp(jobs: seq<R.Job>, scope: Option<string>)
    requires forall j :: 0 <= j < |jobs| ==>
               jobs[j].matchedCount + jobs[j].partialCount + jobs[j].unmatchedCount + jobs[j].mismatchCount
               == jobs[j].totalRecords
    ensures var s := SumJobs(jobs, scope);
            s.matched + s.unmatched + s.mismatch + SumPartial(jobs, scope) == s.total
  {
    if jobs != [] { SumsAddUp(jobs[..|jobs| - 1], scope); }
  }

  /**
    After any run of reconciliation jobs, beside any cases: the four sums add up to the records, the
    case counts add up to all cases but the rejected and closed ones, and both rates are percentages.
   */
  lemma OverviewAddsUp(clean: R.Cleaner, batches: seq<R.Batch>, cases: seq<C.Case>, transactions: seq<L.Transaction>,
                       scope: Option<string>)
    ensures var jobs := R.Run(clean, batches).jobs;
            var o := PlatformOverview(cases, transactions, jobs, scope);
            && o.reconciliation.matched + o.reconciliation.unmatched + o.reconciliation.mismatch + SumPartial(jobs, scope)
               == o.reconciliation.total
            && o.activeCases + o.resolvedCases + o.escalatedCases + CountCases(cases, scope, {C.Rejected, C.Closed})
               == o.totalCases
            && 0.0 <= o.reconciliationRate <= 100.0 && 0.0 <= o.resolutionRate <= 100.0
  {
    var t := R.Run(clean, batches);
    R.RunIsConsistent(clean, batches);
    forall j | 0 <= j < |t.jobs|
      ensures t.jobs[j].matchedCount + t.jobs[j].partialCount + t.jobs[j].unmatchedCount + t.jobs[j].mismatchCount
              == t.jobs[j].totalRecords
    {
      R.CountersPartition(R.ResultsOf(t.results, j));
    }
    SumsAddUp(t.jobs, scope);
    CaseCountsAddUp(cases, scope);
    R.RateIsAPercentage(SumJobs(t.jobs, scope).matched, SumJobs(t.jobs, scope).total);
    R.RateIsAPercentage(CountCases(cases, scope, RESOLVED), CountAllCases(cases, scope));
  }

  /** The overview of all businesses processes exactly the result rows there are. */
  lemma {:induction false} EveryRecordIsStored(clean: R.Cleaner, batches: seq<R.Batch>)
    ensures SumJobs(R.Run(clean, batches).jobs, None).total == |R.Run(clean, batches).results|
  {
    if batches != [] {
      var n := |batches| - 1;
      EveryRecordIsStored(clean, batches[..n]);
      var before, after := R.Run(clean, batches[..n]), R.Run(clean, batches);
      assert after.jobs[..|before.jobs|] == before.jobs;
    }
  }

  // ---------- One case moves ----------

  lemma {:induction false} RecoveredAfterUpdate(cases: seq<C.Case>, id: nat, row: C.Case, scope: Option<string>)
    requires id < |cases|
    requires row.businessId == cases[id].businessId && row.claimAmount == cases[id].claimAmount
    ensures Recovered(cases[id := row], scope)
         == Recovered(cases, scope)
            + if InScope(row.businessId, scope) && row.status in RESOLVED && cases[id].status !in RESOLVED then row.claimAmount
              else if InScope(row.businessId, scope) && row.status !in RESOLVED && cases[id].status in RESOLVED
              then -row.claimAmount
              else 0.0
  {
    var n := |cases| - 1;
    if id == n {
      assert cases[id := row][..n] == cases[..n];
    } else {
      assert cases[id := row][..n] == cases[..n][id := row];
      RecoveredAfterUpdate(cases[..n], id, row, scope);
    }
  }

  /**
    A transaction on a case, or one that opens it, keeps the recovered total of a scope exactly when the case is out of it,
    claims nothing, or stays on its side of "resolved". Closing a resolved case takes its claim out
    of the total again, and so do escalating it and preparing or submitting a complaint.
   */
  lemma RecoveryKeptExactlyWhen(t: C.Tables, op: C.Operation, at: int, scope: Option<string>)
    requires if op.Create? then C.IsNewRow(op.row) else op.caseId < |t.cases|
    ensures var row := if op.Create? then op.row else t.cases[op.caseId];
            Recovered(C.Commit(t, op, at).cases, scope) == Recovered(t.cases, scope)
            <==> !InScope(row.businessId, scope) || row.claimAmount == 0.0 || StaysOnItsSide(op, row.status)
  {
    if op.Create? {
      assert (t.cases + [op.row])[..|t.cases|] == t.cases;
    } else {
      RowKeepsItsSide(op, t.cases[op.caseId], at);
      RecoveredAfterUpdate(t.cases, op.caseId, C.RowAfter(op, t.cases[op.caseId], at), scope);
    }
  }

  lemma RowKeepsItsSide(op: C.Operation, row: C.Case, at: int)
    requires !op.Create?
    ensures var row' := C.RowAfter(op, row, at);
            && row'.businessId == row.businessId && row'.claimAmount == row.claimAmount
            && (StaysOnItsSide(op, row.status) <==> (row'.status in RESOLVED <==> row.status in RESOLVED))
  {
  }

  /** The operation takes the status neither into nor out of the resolved ones. */
  predicate StaysOnItsSide(op: C.Operation, status: C.CaseStatus) {
    match op
    case SetStatus(_, _, to, _) => to in RESOLVED <==> status in RESOLVED
    case Create(_) => true
    case Upload(_) => true
    case _ => status !in RESOLVED
  }

  // ---------- The overview in the fields of the rows ----------

  lemma {:induction false} CasesCounted(cases: seq<C.Case>, scope: Option<string>, statuses: set<C.CaseStatus>, at: set<int>)
    requires forall i :: i in at <==> 0 <= i < |cases| && (scope.None? || cases[i].businessId == scope) && cases[i].status in statuses
    ensures CountCases(cases, scope, statuses) == |at|
  {
    if cases == [] {
      assert forall i :: i in at ==> 0 <= i < |cases|;
      assert at == {};
    } else {
      var n := |cases| - 1;
      CasesCounted(cases[..n], scope, statuses, at - {n});
    }
  }

  lemma {:induction false} AllCasesCounted(cases: seq<C.Case>, scope: Option<string>, at: set<int>)
    requires forall i :: i in at <==> 0 <= i < |cases| && (scope.None? || cases[i].businessId == scope)
    ensures CountAllCases(cases, scope) == |at|
  {
    if cases == [] {
      assert forall i :: i in at ==> 0 <= i < |cases|;
      assert at == {};
    } else {
      var n := |cases| - 1;
      AllCasesCounted(cases[..n], scope, at - {n});
    }
  }

  lemma {:induction false} TransactionsCounted(transactions: seq<L.Transaction>, scope: Option<string>, statuses: set<L.TxStatus>,
                                               at: set<int>)
    requires forall i :: i in at <==>
               0 <= i < |transactions| && (scope.None? || transactions[i].businessId == scope) && transactions[i].status in statuses
    ensures CountTransactions(transactions, scope, statuses) == |at|
  {
    if transactions == [] {
      assert forall i :: i in at ==> 0 <= i < |transactions|;
      assert at == {};
    } else {
      var n := |transactions| - 1;
      TransactionsCounted(transactions[..n], scope, statuses, at - {n});
    }
  }

  lemma {:induction false} AllTransactionsCounted(transactions: seq<L.Transaction>, scope: Option<string>, at: set<int>)
    requires forall i :: i in at <==> 0 <= i < |transactions| && (scope.None? || transactions[i].businessId == scope)
    ensures CountAllTransactions(transactions, scope) == |at|
  {
    if transactions == [] {
      assert forall i :: i in at ==> 0 <= i < |transactions|;
      assert at == {};
    } else {
      var n := |transactions| - 1;
      AllTransactionsCounted(transactions[..n], scope, at - {n});
    }
  }

  /** What each count of the overview stands for: so many positions of so many rows. */
  lemma CaseCountsInFields(cases: seq<C.Case>, transactions: seq<L.Transaction>, jobs: seq<R.Job>, scope: Option<string>,
                           all: set<int>, active: set<int>, resolved: set<int>, escalated: set<int>)
    requires forall i :: i in all <==> 0 <= i < |cases| && (scope.None? || cases[i].businessId == scope)
    requires forall i :: i in resolved <==> i in all && (cases[i].status == C.Resolved || cases[i].status == C.PartiallyResolved)
    requires forall i :: i in escalated <==> i in all && cases[i].status == C.Escalated
    requires forall i :: i in active <==>
               && i in all && i !in resolved && i !in escalated
               && cases[i].status != C.Rejected && cases[i].status != C.Closed
    ensures var o := PlatformOverview(cases, transactions, jobs, scope);
            && o.totalCases == |all| && o.activeCases == |active|
            && o.resolvedCases == |resolved| && o.escalatedCases == |escalated|
            && o.resolutionRate == if |all| == 0 then 0.0 else |resolved| as real * 100.0 / |all| as real
  {
    AllCasesCounted(cases, scope, all);
    CasesCounted(cases, scope, RESOLVED, resolved);
    CasesCounted(cases, scope, {C.Escalated}, escalated);
    forall i | i in all ensures i in active <==> cases[i].status in ACTIVE { StatusesAreGrouped(cases[i].status); }
    CasesCounted(cases, scope, ACTIVE, active);
  }

  lemma TransactionCountsInFields(cases: seq<C.Case>, transactions: seq<L.Transaction>, jobs: seq<R.Job>, scope: Option<string>,
                                  all: set<int>, failed: set<int>)
    requires forall i :: i in all <==> 0 <= i < |transactions| && (scope.None? || transactions[i].businessId == scope)
    requires forall i :: i in failed <==> i in all && (transactions[i].status == L.Failed || transactions[i].status == L.Disputed)
    ensures var o := PlatformOverview(cases, transactions, jobs, scope);
            o.totalTransactions == |all| && o.failedTransactions == |failed|
  {
    AllTransactionsCounted(transactions, scope, all);
    TransactionsCounted(transactions, scope, {L.Failed, L.Disputed}, failed);
  }

  // What the sums over jobs stand for: so many stored results of so many statuses.

  predicate StoredIn(r: R.StoredResult, jobs: seq<R.Job>, scope: Option<string>, status: R.Status) {
    && r.jobId < |jobs| && (scope.None? || scope == Some(jobs[r.jobId].businessId)) && r.result.status == status
  }

  function CountStored(results: seq<R.StoredResult>, jobs: seq<R.Job>, scope: Option<string>, status: R.Status): nat {
    if results == [] then 0
    else
      CountStored(results[..|results| - 1], jobs, scope, status)
      + if StoredIn(results[|results| - 1], jobs, scope, status) then 1 else 0
  }

  lemma {:induction false} StoredCounted(results: seq<R.StoredResult>, jobs: seq<R.Job>, scope: Option<string>, status: R.Status,
                                         at: set<int>)
    requires forall i :: i in at <==> 0 <= i < |results| && StoredIn(results[i], jobs, scope, status)
    ensures CountStored(results, jobs, scope, status) == |at|
  {
    if results == [] {
      assert forall i :: i in at ==> 0 <= i < |results|;
      assert at == {};
    } else {
      var n := |results| - 1;
      StoredCounted(results[..n], jobs, scope, status, at - {n});
    }
  }

  function SumOf(jobs: seq<R.Job>, scope: Option<string>, status: R.Status): nat {
    match status
    case Matched => SumJobs(jobs, scope).matched
    case Unmatched => SumJobs(jobs, scope).unmatched
    case Mismatch => SumJobs(jobs, scope).mismatch
    case PartialMatch => SumPartial(jobs, scope)
  }

  lemma {:induction false} OldResultsStayCounted(results: seq<R.StoredResult>, jobs: seq<R.Job>, job: R.Job, scope: Option<string>,
                                                 status: R.Status)
    requires JobIdsBelow(results, |jobs|)
    ensures CountStored(results, jobs + [job], scope, status) == CountStored(results, jobs, scope, status)
  {
    if results != [] { OldResultsStayCounted(results[..|results| - 1], jobs, job, scope, status); }
  }

  lemma {:induction false} NewResultsCounted(before: seq<R.StoredResult>, jobs: seq<R.Job>, jobId: nat, added: seq<R.MatchResult>,
                                             scope: Option<string>, status: R.Status)
    requires jobId < |jobs|
    ensures CountStored(before + R.Stored(jobId, added), jobs, scope, status)
         == CountStored(before, jobs, scope, status)
            + if scope.None? || scope == Some(jobs[jobId].businessId) then R.Count(added, status) else 0
  {
    if added == [] {
      assert before + R.Stored(jobId, added) == before;
    } else {
      var n := |added| - 1;
      NewResultsCounted(before, jobs, jobId, added[..n], scope, status);
      var all := before + R.Stored(jobId, added);
      assert all[..|all| - 1] == before + R.Stored(jobId, added[..n]);
    }
  }

  ghost predicate JobIdsBelow(results: seq<R.StoredResult>, n: nat) {
    forall i :: 0 <= i < |results| ==> results[i].jobId < n
  }

  lemma AddedJobIds(results: seq<R.StoredResult>, n: nat, added: seq<R.MatchResult>)
    requires JobIdsBelow(results, n)
    ensures JobIdsBelow(results + R.Stored(n, added), n + 1)
  {
  }

  lemma {:induction false} JobIdsExist(clean: R.Cleaner, batches: seq<R.Batch>)
    ensures JobIdsBelow(R.Run(clean, batches).results, |R.Run(clean, batches).jobs|)
  {
    if batches != [] {
      var b, t := batches[|batches| - 1], R.Run(clean, batches[..|batches| - 1]);
      JobIdsExist(clean, batches[..|batches| - 1]);
      AddedJobIds(t.results, |t.jobs|, R.MatchAll(clean, b.ledger, b.claims));
    }
  }

  lemma {:induction false} SumsCountResults(clean: R.Cleaner, batches: seq<R.Batch>, scope: Option<string>, status: R.Status)
    ensures var t := R.Run(clean, batches); SumOf(t.jobs, scope, status) == CountStored(t.results, t.jobs, scope, status)
  {
    if batches != [] {
      var n, b := |batches| - 1, batches[|batches| - 1];
      var t := R.Run(clean, batches[..n]);
      var added := R.MatchAll(clean, b.ledger, b.claims);
      var job := R.JobFor(b.businessId, added);
      SumsCountResults(clean, batches[..n], scope, status);
      JobIdsExist(clean, batches[..n]);
      OldResultsStayCounted(t.results, t.jobs, job, scope, status);
      NewResultsCounted(t.results, t.jobs + [job], |t.jobs|, added, scope, status);
      SumAfterJob(t.jobs, job, scope, status);
    }
  }

  lemma SumAfterJob(jobs: seq<R.Job>, job: R.Job, scope: Option<string>, status: R.Status)
    ensures SumOf(jobs + [job], scope, status)
         == SumOf(jobs, scope, status)
            + if scope.Some? && scope != Some(job.businessId) then 0
              else match status
                   case Matched => job.matchedCount
                   case Unmatched => job.unmatchedCount
                   case Mismatch => job.mismatchCount
                   case PartialMatch => job.partialCount
  {
    assert (jobs + [job])[..|jobs|] == jobs;
  }

  lemma OverviewSums(cases: seq<C.Case>, transactions: seq<L.Transaction>, jobs: seq<R.Job>, scope: Option<string>,
                     status: R.Status, n: nat)
    requires SumOf(jobs, scope, status) == n
    ensures var o := PlatformOverview(cases, transactions, jobs, scope);
            && (status == R.Matched ==> o.reconciliation.matched == n)
            && (status == R.Unmatched ==> o.reconciliation.unmatched == n)
            && (status == R.Mismatch ==> o.reconciliation.mismatch == n)
            && (status == R.Matched ==> o.reconciliationRate == R.Rate(n, o.reconciliation.total))
  {
  }

  lemma RateInFields(part: nat, whole: nat)
    ensures R.Rate(part, whole) == if whole == 0 then 0.0 else part as real * 100.0 / whole as real
  {
  }

  /**
    After any run of jobs each sum of the overview is the number of stored results of that status in
    scope, and the rate is that of the matched ones.
   */
  lemma SumsInFields(clean: R.Cleaner, batches: seq<R.Batch>, cases: seq<C.Case>, transactions: seq<L.Transaction>,
                     scope: Option<string>, status: R.Status, at: set<int>)
    requires var t := R.Run(clean, batches);
             forall i :: i in at <==> 0 <= i < |t.results| && StoredIn(t.results[i], t.jobs, scope, status)
    ensures var o := PlatformOverview(cases, transactions, R.Run(clean, batches).jobs, scope);
            && (status == R.Matched ==> o.reconciliation.matched == |at|)
            && (status == R.Unmatched ==> o.reconciliation.unmatched == |at|)
            && (status == R.Mismatch ==> o.reconciliation.mismatch == |at|)
            && (status == R.Matched ==>
                  o.reconciliationRate == if o.reconciliation.total == 0 then 0.0
                                          else |at| as real * 100.0 / o.reconciliation.total as real)
  {
    var t := R.Run(clean, batches);
    SumsCountResults(clean, batches, scope, status);
    StoredCounted(t.results, t.jobs, scope, status, at);
    OverviewSums(cases, transactions, t.jobs, scope, status, |at|);
    RateInFields(|at|, PlatformOverview(cases, transactions, t.jobs, scope).reconciliation.total);
  }
}
