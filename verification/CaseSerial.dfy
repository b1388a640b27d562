/**
  Serial runs of the case services: each request is served to its end before the next begins. The
  SLA sweep is one request; it reads its list once and then commits one transaction and sends one
  notification for each row of the list, whatever order the database listed the rows in.
 */
module CaseSerial {
  import opened Wrappers
  import opened Cases
  import opened CaseRuns

  // ---------- The SLA sweep ----------

  ghost predicate Distinct<T>(s: seq<T>) {
    forall i, j :: 0 <= i < j < |s| ==> s[i] != s[j]
  }

  /** A result of the sweep's query: every overdue case once, in some order. */
  ghost predicate IsListing(t: Tables, order: seq<nat>, now: int) {
    Distinct(order) && forall id: nat :: id in order <==> id < |t.cases| && Overdue(t.cases[id], now)
  }

  ghost predicate AllCases(t: Tables, order: seq<nat>) {
    forall i :: 0 <= i < |order| ==> order[i] < |t.cases|
  }

  /** Commit and notify for each listed case, with the rows as they were when the list was read. */
  ghost function SweepAll(t: Tables, order: seq<nat>, now: int): (t': Tables)
    requires AllCases(t, order)
    ensures |t'.cases| == |t.cases|
  {
    if order == [] then t
    else
      var id := order[|order| - 1];
      Notify(Commit(SweepAll(t, order[..|order| - 1], now), Breach(id, t.cases[id]), now), id)
  }

  /** A case after the sweep struck it. */
  function Struck(v: View, id: nat, now: int): View {
    var v' := Advance(v, Breach(id, v.row), now);
    v'.(notices := v'.notices + [Notice(v.row.userId, id)])
  }

  /** One commit and notification of the sweep, seen from a case. */
  lemma RoundSeenFromACase(t: Tables, target: nat, read: Case, now: int, id: nat)
    requires target < |t.cases| && id < |t.cases|
    requires target == id ==> t.cases[id] == read
    ensures ViewOf(Notify(Commit(t, Breach(target, read), now), target), id)
         == if id == target then Struck(ViewOf(t, id), id, now) else ViewOf(t, id)
  {
    CommitSeenFromACase(t, Breach(target, read), now, id);
    NotifySeenFromACase(Commit(t, Breach(target, read), now), target, id);
  }

  lemma {:induction false} SweepSeenFromACase(t: Tables, order: seq<nat>, now: int, id: nat)
    requires AllCases(t, order) && Distinct(order) && id < |t.cases|
    ensures ViewOf(SweepAll(t, order, now), id) == if id in order then Struck(ViewOf(t, id), id, now) else ViewOf(t, id)
  {
    if order != [] {
      var n := |order| - 1;
      SweepSeenFromACase(t, order[..n], now, id);
      InPrefixOrLast(order, id);
      var mid := SweepAll(t, order[..n], now);
      assert mid.cases[id] == ViewOf(mid, id).row;
      RoundSeenFromACase(mid, order[n], t.cases[order[n]], now, id);
    }
  }

  lemma InPrefixOrLast(order: seq<nat>, id: nat)
    requires order != [] && Distinct(order)
    ensures id in order <==> id in order[..|order| - 1] || id == order[|order| - 1]
    ensures !(id in order[..|order| - 1] && id == order[|order| - 1])
  {
    assert order == order[..|order| - 1] + [order[|order| - 1]];
  }

  lemma {:induction false} SweepKeepsNoStrays(t: Tables, order: seq<nat>, now: int)
    requires AllCases(t, order) && NoStrays(t)
    ensures NoStrays(SweepAll(t, order, now))
  {
    if order != [] {
      var n := |order| - 1;
      var op := Breach(order[n], t.cases[order[n]]);
      var mid := SweepAll(t, order[..n], now);
      SweepKeepsNoStrays(t, order[..n], now);
      CommitKeepsNoStrays(mid, op, now);
      NotifyKeepsNoStrays(Commit(mid, op, now), order[n]);
    }
  }

  lemma ListingIsCases(t: Tables, order: seq<nat>, now: int)
    requires IsListing(t, order, now)
    ensures AllCases(t, order)
  {
    forall i | 0 <= i < |order| ensures order[i] < |t.cases| { assert order[i] in order; }
  }

  /**
    The sweep strikes exactly the overdue cases: each is escalated once, with one breach entry, one
    event and one notification; the view of every other case is what it was.
   */
  lemma SweepStrikesExactlyTheOverdue(t: Tables, order: seq<nat>, now: int, id: nat)
    requires IsListing(t, order, now) && id < |t.cases|
    ensures AllCases(t, order)
    ensures ViewOf(SweepAll(t, order, now), id)
         == if Overdue(t.cases[id], now) then Struck(ViewOf(t, id), id, now) else ViewOf(t, id)
  {
    ListingIsCases(t, order, now);
    SweepSeenFromACase(t, order, now, id);
  }

  /**
    The sweep in the fields of the rows: a case waits for its provider when it is SUBMITTED, in
    PROVIDER_REVIEW or PENDING. Those whose deadline has come, and no others, are ESCALATED one level
    up, with one more breach entry, event and notification.
   */
  lemma SweepInFields(t: Tables, order: seq<nat>, now: int, id: nat)
    requires IsListing(t, order, now) && id < |t.cases|
    ensures AllCases(t, order)
    ensures var c, t' := t.cases[id], SweepAll(t, order, now);
            var due := (c.status == Submitted || c.status == ProviderReview || c.status == Pending)
                       && c.slaDeadline.Some? && c.slaDeadline.value <= now;
            if due then
              && t'.cases[id] == c.(status := Escalated, escalationLevel := if c.escalationLevel >= 1 then 2 else c.escalationLevel + 1)
              && TimelineOf(t'.timeline, id) == TimelineOf(t.timeline, id) + [Entry(id, SlaBreach, now)]
              && EventsOf(t'.events, id) == EventsOf(t.events, id) + [CaseEvent(id, Some(c.status), Escalated)]
              && NoticesOf(t'.notices, id) == NoticesOf(t.notices, id) + [Notice(c.userId, id)]
            else
              && t'.cases[id] == c
              && TimelineOf(t'.timeline, id) == TimelineOf(t.timeline, id)
              && EventsOf(t'.events, id) == EventsOf(t.events, id)
              && NoticesOf(t'.notices, id) == NoticesOf(t.notices, id)
  {
    SweepStrikesExactlyTheOverdue(t, order, now, id);
    assert SweepAll(t, order, now).cases[id] == ViewOf(SweepAll(t, order, now), id).row;
  }

  /** The order in which the database lists the overdue cases makes no difference to any case. */
  lemma ListingOrderIsIrrelevant(t: Tables, order: seq<nat>, order': seq<nat>, now: int)
    requires IsListing(t, order, now) && IsListing(t, order', now)
    ensures AllCases(t, order) && AllCases(t, order')
    ensures SweepAll(t, order, now).cases == SweepAll(t, order', now).cases
    ensures forall id :: 0 <= id < |t.cases| ==> ViewOf(SweepAll(t, order, now), id) == ViewOf(SweepAll(t, order', now), id)
    ensures |order| == |order'|
  {
    ListingIsCases(t, order, now);
    ListingIsCases(t, order', now);
    forall id | 0 <= id < |t.cases|
      ensures ViewOf(SweepAll(t, order, now), id) == ViewOf(SweepAll(t, order', now), id)
    {
      SweepStrikesExactlyTheOverdue(t, order, now, id);
      SweepStrikesExactlyTheOverdue(t, order', now, id);
    }
    var a, b := SweepAll(t, order, now).cases, SweepAll(t, order', now).cases;
    assert forall id :: 0 <= id < |t.cases| ==>
      a[id] == ViewOf(SweepAll(t, order, now), id).row && b[id] == ViewOf(SweepAll(t, order', now), id).row;
    ListingLength(t, order, now);
    ListingLength(t, order', now);
  }

  ghost function OverdueCases(t: Tables, now: int): set<nat> {
    set id: nat | id < |t.cases| && Overdue(t.cases[id], now)
  }

  lemma {:induction false} DistinctLength(s: seq<nat>, elements: set<nat>)
    requires Distinct(s) && forall x: nat :: x in s <==> x in elements
    ensures |s| == |elements|
  {
    if s == [] {
      assert elements == {};
    } else {
      var n := |s| - 1;
      assert s == s[..n] + [s[n]];
      assert s[n] in s;
      DistinctLength(s[..n], elements - {s[n]});
    }
  }

  /** The number a sweep reports is the number of overdue cases. */
  lemma ListingLength(t: Tables, order: seq<nat>, now: int)
    requires IsListing(t, order, now)
    ensures |order| == |OverdueCases(t, now)|
  {
    DistinctLength(order, OverdueCases(t, now));
  }

  /** The same of all cases at once, and of how many there were. */
  lemma SweepOfAllInFields(t: Tables, t': Tables, order: seq<nat>, now: int)
    requires IsListing(t, order, now) && AllCases(t, order) && t' == SweepAll(t, order, now)
    ensures |order|
         == |set id: nat | && id < |t.cases|
                           && (t.cases[id].status == Submitted || t.cases[id].status == ProviderReview || t.cases[id].status == Pending)
                           && t.cases[id].slaDeadline.Some? && t.cases[id].slaDeadline.value <= now|
    ensures |t'.cases| == |t.cases|
    ensures forall id: nat :: id < |t.cases| ==>
              var c := t.cases[id];
              var due := (c.status == Submitted || c.status == ProviderReview || c.status == Pending)
                         && c.slaDeadline.Some? && c.slaDeadline.value <= now;
              if due then
                && t'.cases[id].status == Escalated
                && t'.cases[id].escalationLevel == (if c.escalationLevel >= 1 then 2 else c.escalationLevel + 1)
                && TimelineOf(t'.timeline, id) == TimelineOf(t.timeline, id) + [Entry(id, SlaBreach, now)]
                && EventsOf(t'.events, id) == EventsOf(t.events, id) + [CaseEvent(id, Some(c.status), Escalated)]
                && NoticesOf(t'.notices, id) == NoticesOf(t.notices, id) + [Notice(c.userId, id)]
              else
                && t'.cases[id] == c
                && TimelineOf(t'.timeline, id) == TimelineOf(t.timeline, id)
                && EventsOf(t'.events, id) == EventsOf(t.events, id)
                && NoticesOf(t'.notices, id) == NoticesOf(t.notices, id)
  {
    forall id: nat | id < |t.cases| { SweepInFields(t, order, now, id); }
    ListingLength(t, order, now);
    assert OverdueCases(t, now)
        == set id: nat | && id < |t.cases|
                         && (t.cases[id].status == Submitted || t.cases[id].status == ProviderReview || t.cases[id].status == Pending)
                         && t.cases[id].slaDeadline.Some? && t.cases[id].slaDeadline.value <= now;
  }

  /**
    After a sweep at `now`, a sweep at any later moment finds only the cases whose deadline passed
    in between; at the same moment it finds none.
   */
  lemma SweepReachesAFixpoint(t: Tables, order: seq<nat>, now: int, later: int)
    requires IsListing(t, order, now) && now <= later
    ensures AllCases(t, order)
    ensures forall id: nat :: id < |t.cases| ==>
              (Overdue(SweepAll(t, order, now).cases[id], later)
               <==> t.cases[id].status in {Submitted, ProviderReview, Pending} && t.cases[id].slaDeadline.Some?
                    && now < t.cases[id].slaDeadline.value <= later)
    ensures OverdueCases(SweepAll(t, order, now), now) == {}
  {
    ListingIsCases(t, order, now);
    forall id: nat | id < |t.cases|
      ensures SweepAll(t, order, now).cases[id]
           == if Overdue(t.cases[id], now) then Escalated'(t.cases[id], t.cases[id]) else t.cases[id]
    {
      SweepStrikesExactlyTheOverdue(t, order, now, id);
      assert SweepAll(t, order, now).cases[id] == ViewOf(SweepAll(t, order, now), id).row;
    }
  }

  // ---------- Serial runs ----------

  datatype Request = One(op: Operation) | Sweep(order: seq<nat>)

  ghost function Serve(t: Tables, r: Request, now: int): Tables {
    match r
    case One(op) => if Reads(t, op, now) && !op.Breach? then Commit(t, op, now) else t
    case Sweep(order) => if IsListing(t, order, now) then (ListingIsCases(t, order, now); SweepAll(t, order, now)) else t
  }

  datatype Served = Served(request: Request, at: int)

  ghost predicate ClockRuns(requests: seq<Served>, now: int) {
    && (forall i, j :: 0 <= i < j < |requests| ==> requests[i].at <= requests[j].at)
    && forall i :: 0 <= i < |requests| ==> requests[i].at <= now
  }

  ghost function SerialRun(requests: seq<Served>): Tables {
    if requests == [] then EMPTY
    else
      var last := requests[|requests| - 1];
      Serve(SerialRun(requests[..|requests| - 1]), last.request, last.at)
  }

  /**
    The laws of serial runs: the level is the capped number of escalations, the event log is the one
    the timeline calls for with every `fromStatus` the status replayed so far, every breach strikes
    a watched case, and every breach has its notification.
   */
  ghost predicate Exact(v: View, now: int) {
    && Lawful(v, now)
    && |v.notices| == CountKind(v.timeline, SlaBreach)
  }

  ghost predicate Lawful(v: View, now: int) {
    && Coherent(v, now)
    && LevelCounts(v)
    && v.events == EventsCalledFor(v.timeline)
    && BreachesStrikeWatched(v.timeline)
  }

  ghost predicate AllExact(t: Tables, now: int) {
    NoStrays(t) && forall id: nat :: id < |t.cases| ==> Exact(ViewOf(t, id), now)
  }

  lemma ExactLater(v: View, now: int, later: int)
    requires Exact(v, now) && now <= later
    ensures Exact(v, later)
  {
  }

  lemma AdvanceKeepsLawful(v: View, op: Operation, now: int)
    requires !op.Create? && Lawful(v, now)
    requires op.SetStatus? || op.Escalate? || op.Breach? ==> op.read == v.row
    requires op.Breach? ==> Overdue(v.row, now)
    ensures Lawful(Advance(v, op, now), now)
  {
    var e := EntryFor(op, now);
    AdvanceKeepsCoherent(v, op, now);
    AppendEntry(v.timeline, e);
    StrikesAppend(v.timeline, e);
    EventsKept(v, op, now);
  }

  lemma EventsKept(v: View, op: Operation, now: int)
    requires !op.Create? && Coherent(v, now) && v.events == EventsCalledFor(v.timeline)
    requires op.SetStatus? || op.Escalate? || op.Breach? ==> op.read == v.row
    ensures v.events + EventsFor(op) == EventsCalledFor(v.timeline + [EntryFor(op, now)])
  {
    AppendEntry(v.timeline, EntryFor(op, now));
    if EventsFor(op) == [] { assert v.events + EventsFor(op) == v.events; }
  }

  lemma AdvanceKeepsExact(v: View, op: Operation, now: int)
    requires !op.Create? && !op.Breach? && Exact(v, now)
    requires op.SetStatus? || op.Escalate? ==> op.read == v.row
    ensures Exact(Advance(v, op, now), now)
  {
    AdvanceKeepsLawful(v, op, now);
    AppendEntry(v.timeline, EntryFor(op, now));
  }

  lemma StruckKeepsExact(v: View, id: nat, now: int)
    requires Exact(v, now) && Overdue(v.row, now)
    ensures Exact(Struck(v, id, now), now)
  {
    var op := Breach(id, v.row);
    AdvanceKeepsLawful(v, op, now);
    AppendEntry(v.timeline, EntryFor(op, now));
    NoticesAreNoLaw(Advance(v, op, now), Struck(v, id, now).notices, now);
  }

  lemma NoticesAreNoLaw(v: View, notices: seq<Notice>, now: int)
    requires Lawful(v, now)
    ensures Lawful(v.(notices := notices), now)
  {
  }

  lemma FirstViewIsExact(row: Case, id: nat, now: int)
    requires IsNewRow(row)
    ensures Exact(FirstView(row, id, now), now)
  {
    var e := Entry(id, CaseCreated, now);
    FirstViewIsCoherent(row, id, now);
    AppendEntry([], e);
    StrikesAppend([], e);
    assert [] + [e] == [e];
    assert EventsCalledFor([e]) == [CaseEvent(id, None, Open)];
  }

  lemma ServeOneKeepsExact(t: Tables, op: Operation, now: int, id: nat)
    requires AllExact(t, now) && Reads(t, op, now) && !op.Breach? && id < |Commit(t, op, now).cases|
    ensures Exact(ViewOf(Commit(t, op, now), id), now)
  {
    if id < |t.cases| {
      CommitSeenFromACase(t, op, now, id);
      if Targets(op, id) {
        AdvanceKeepsExact(ViewOf(t, id), op, now);
      }
    } else {
      CreateSeenFromTheNewCase(t, op.row, now);
      FirstViewIsExact(op.row, id, now);
    }
  }

  lemma ServeKeepsExact(t: Tables, r: Request, now: int)
    requires AllExact(t, now)
    ensures AllExact(Serve(t, r, now), now)
  {
    var t' := Serve(t, r, now);
    match r
    case One(op) =>
      if Reads(t, op, now) && !op.Breach? {
        CommitKeepsNoStrays(t, op, now);
        forall id: nat | id < |t'.cases| ensures Exact(ViewOf(t', id), now) {
          ServeOneKeepsExact(t, op, now, id);
        }
      }
    case Sweep(order) =>
      if IsListing(t, order, now) {
        ListingIsCases(t, order, now);
        SweepKeepsNoStrays(t, order, now);
        forall id: nat | id < |t'.cases| ensures Exact(ViewOf(t', id), now) {
          SweepStrikesExactlyTheOverdue(t, order, now, id);
          if Overdue(t.cases[id], now) { StruckKeepsExact(ViewOf(t, id), id, now); }
        }
      }
  }

  /** Safety of all serial runs: every law of `Exact` holds of every case. */
  lemma {:induction false} SerialRunsAreExact(requests: seq<Served>, now: int)
    requires ClockRuns(requests, now)
    ensures AllExact(SerialRun(requests), now)
  {
    if requests == [] {
    } else {
      var n := |requests| - 1;
      SerialRunsAreExact(requests[..n], requests[n].at);
      ServeKeepsExact(SerialRun(requests[..n]), requests[n].request, requests[n].at);
      forall id: nat | id < |SerialRun(requests).cases| ensures Exact(ViewOf(SerialRun(requests), id), now) {
        ExactLater(ViewOf(SerialRun(requests), id), requests[n].at, now);
      }
    }
  }

  lemma ServedRow(t: Tables, r: Request, now: int, id: nat)
    requires id < |t.cases| && 0 <= t.cases[id].escalationLevel <= 2
    ensures id < |Serve(t, r, now).cases|
    ensures t.cases[id].escalationLevel <= Serve(t, r, now).cases[id].escalationLevel
  {
    match r
    case One(op) => if Reads(t, op, now) { CommittedRow(t, op, now, id); }
    case Sweep(order) => if IsListing(t, order, now) { SweepInFields(t, order, now, id); }
  }

  lemma CommittedRow(t: Tables, op: Operation, now: int, id: nat)
    requires id < |t.cases| && 0 <= t.cases[id].escalationLevel <= 2 && Reads(t, op, now)
    ensures id < |Commit(t, op, now).cases|
    ensures t.cases[id].escalationLevel <= Commit(t, op, now).cases[id].escalationLevel
  {
  }

  /** In a serial run the escalation level never falls. */
  lemma LevelNeverFalls(requests: seq<Served>, next: Served, now: int, id: nat)
    requires ClockRuns(requests, now) && id < |SerialRun(requests).cases|
    ensures id < |Serve(SerialRun(requests), next.request, next.at).cases|
    ensures SerialRun(requests).cases[id].escalationLevel
         <= Serve(SerialRun(requests), next.request, next.at).cases[id].escalationLevel
  {
    var t := SerialRun(requests);
    SerialRunsAreExact(requests, now);
    assert Exact(ViewOf(t, id), now);
    ServedRow(t, next.request, next.at, id);
  }

  // ---------- Serial requests are runs ----------

  /** Reading the list: the sweep's transactions all start before any of them is committed. */
  ghost function ListSteps(t: Tables, order: seq<nat>): seq<Step>
    requires AllCases(t, order)
  {
    if order == [] then []
    else
      var id := order[|order| - 1];
      ListSteps(t, order[..|order| - 1]) + [Start(Breach(id, t.cases[id]))]
  }

  ghost function Breaches(t: Tables, order: seq<nat>): seq<Operation>
    requires AllCases(t, order)
  {
    seq(|order|, i requires 0 <= i < |order| => Breach(order[i], t.cases[order[i]]))
  }

  /** Then one commit and one notification for each row, in order. */
  ghost function WorkSteps(n: nat): seq<Step> {
    if n == 0 then [] else WorkSteps(n - 1) + [Finish(0), Send(0)]
  }

  lemma {:induction false} AfterListing(t: Tables, order: seq<nat>, now: int)
    requires AllCases(t, order) && forall i :: 0 <= i < |order| ==> Overdue(t.cases[order[i]], now)
    ensures Run(World(t, now, [], []), ListSteps(t, order)) == World(t, now, Breaches(t, order), [])
  {
    if order != [] {
      var n := |order| - 1;
      var op := Breach(order[n], t.cases[order[n]]);
      AfterListing(t, order[..n], now);
      RunConcat(World(t, now, [], []), ListSteps(t, order[..n]), [Start(op)]);
      RunOne(World(t, now, Breaches(t, order[..n]), []), Start(op));
      assert Breaches(t, order) == Breaches(t, order[..n]) + [op];
    }
  }

  lemma OneRound(w: World, op: Operation, rest: seq<Operation>)
    requires w.inFlight == [op] + rest && w.unsent == [] && op.Breach? && op.caseId < |w.tables.cases|
    ensures Run(w, [Finish(0), Send(0)])
         == w.(tables := Notify(Commit(w.tables, op, w.now), op.caseId), inFlight := rest)
  {
    var w' := Next(w, Finish(0));
    assert Without(w.inFlight, 0) == rest;
    assert w'.unsent == [op.caseId];
    assert Without(w'.unsent, 0) == [];
    assert [Finish(0), Send(0)] == [Finish(0)] + [Send(0)];
    RunConcat(w, [Finish(0)], [Send(0)]);
    RunOne(w, Finish(0));
    RunOne(w', Send(0));
  }

  /** The world after the first `k` rows of the list have been worked off. */
  ghost function AfterRows(t: Tables, order: seq<nat>, now: int, k: nat): World
    requires AllCases(t, order) && k <= |order|
  {
    World(SweepAll(t, order[..k], now), now, Breaches(t, order)[k..], [])
  }

  lemma NextRow(t: Tables, order: seq<nat>, now: int, k: nat)
    requires AllCases(t, order) && k < |order|
    ensures Run(AfterRows(t, order, now, k), [Finish(0), Send(0)]) == AfterRows(t, order, now, k + 1)
  {
    var ops := Breaches(t, order);
    assert ops[k..] == [ops[k]] + ops[k + 1..];
    assert order[..k + 1][..k] == order[..k];
    OneRound(AfterRows(t, order, now, k), ops[k], ops[k + 1..]);
  }

  lemma NothingWorkedYet(t: Tables, order: seq<nat>, now: int)
    requires AllCases(t, order)
    ensures AfterRows(t, order, now, 0) == World(t, now, Breaches(t, order), [])
  {
    assert Breaches(t, order)[0..] == Breaches(t, order) && order[..0] == [];
  }

  lemma RunThen(w: World, a: seq<Step>, b: seq<Step>, w1: World, w2: World)
    requires Run(w, a) == w1 && Run(w1, b) == w2
    ensures Run(w, a + b) == w2
  {
    RunConcat(w, a, b);
  }

  lemma {:induction false} AfterWork(t: Tables, order: seq<nat>, now: int, k: nat)
    requires AllCases(t, order) && k <= |order|
    ensures Run(AfterRows(t, order, now, 0), WorkSteps(k)) == AfterRows(t, order, now, k)
  {
    if k > 0 {
      AfterWork(t, order, now, k - 1);
      NextRow(t, order, now, k - 1);
      RunThen(AfterRows(t, order, now, 0), WorkSteps(k - 1), [Finish(0), Send(0)],
              AfterRows(t, order, now, k - 1), AfterRows(t, order, now, k));
    }
  }

  /** The sweep as one request is the run that lists, then commits and notifies row by row. */
  lemma SweepIsARun(t: Tables, order: seq<nat>, now: int)
    requires IsListing(t, order, now)
    ensures AllCases(t, order)
    ensures Run(World(t, now, [], []), ListSteps(t, order) + WorkSteps(|order|))
         == World(Serve(t, Sweep(order), now), now, [], [])
  {
    ListingIsCases(t, order, now);
    forall i | 0 <= i < |order| ensures Overdue(t.cases[order[i]], now) { assert order[i] in order; }
    RunConcat(World(t, now, [], []), ListSteps(t, order), WorkSteps(|order|));
    AfterListing(t, order, now);
    NothingWorkedYet(t, order, now);
    AfterWork(t, order, now, |order|);
    assert order[..|order|] == order;
  }

  /** Any other request is a start and a finish with nothing in between. */
  lemma OneIsARun(t: Tables, op: Operation, now: int)
    requires Reads(t, op, now) && !op.Breach?
    ensures Run(World(t, now, [], []), [Start(op), Finish(0)]) == World(Serve(t, One(op), now), now, [], [])
  {
    assert [Start(op), Finish(0)] == [Start(op)] + [Finish(0)];
    RunConcat(World(t, now, [], []), [Start(op)], [Finish(0)]);
    RunOne(World(t, now, [], []), Start(op));
    RunOne(World(t, now, [op], []), Finish(0));
    assert Without([op], 0) == [];
  }

  // ---------- Between two breaches ----------

  predicate PutsBackInWatch(kind: EntryKind) {
    kind.ComplaintSubmitted? || (kind.StatusSet? && Watched(kind.to))
  }

  /** A watched status after an unwatched one: some entry in between put the case back. */
  lemma {:induction false} PutBack(timeline: seq<Entry>, i: nat, j: nat) returns (k: nat)
    requires i <= j <= |timeline|
    requires Replay(timeline[..i]).status.Some? && !Watched(Replay(timeline[..i]).status.value)
    requires Replay(timeline[..j]).status.Some? && Watched(Replay(timeline[..j]).status.value)
    ensures i <= k < j && PutsBackInWatch(timeline[k].kind)
    decreases j
  {
    assert i < j;
    var before := timeline[..j - 1];
    assert timeline[..j] == before + [timeline[j - 1]];
    AppendEntry(before, timeline[j - 1]);
    if PutsBackInWatch(timeline[j - 1].kind) {
      k := j - 1;
    } else {
      k := PutBack(timeline, i, j - 1);
    }
  }

  /** Between two automatic breaches of a case some step has put it back into a watched status. */
  lemma BreachesAreSeparated(v: View, now: int, i: nat, j: nat) returns (k: nat)
    requires Exact(v, now)
    requires i < j < |v.timeline| && v.timeline[i].kind == SlaBreach && v.timeline[j].kind == SlaBreach
    ensures i < k < j && PutsBackInWatch(v.timeline[k].kind)
  {
    assert v.timeline[..i + 1] == v.timeline[..i] + [v.timeline[i]];
    AppendEntry(v.timeline[..i], v.timeline[i]);
    k := PutBack(v.timeline, i + 1, j);
  }
}
