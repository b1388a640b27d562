/**
  The idempotency-key middleware: look the key up, replay a live record, delete an expired one, and
  otherwise let the handler run and store its response when it is sent. The store of the response is
  not awaited, and a second record for a key is refused by its unique constraint and ignored.
 */
module Idempotency {
  import opened Wrappers

  datatype Response = Response(status: int, body: string)

  /** `path` is the route the response was made for; a lookup does not look at it. */
  datatype Record = Record(id: nat, path: string, response: Response, expiresAt: int)

  type Store = map<string, Record>

  const DAY_MS := 24 * 60 * 60 * 1000

  predicate Expired(r: Record, now: int) { !(r.expiresAt > now) }

  /** Only responses that are not server errors are kept. */
  predicate Kept(r: Response) { r.status < 500 }

  function Insert(store: Store, key: string, record: Record): Store {
    if key in store then store else store[key := record]
  }

  // ---------- Worlds ----------

  /** A request between two of its steps. `captured` says whether its response will be stored. */
  datatype Phase =
    | Deleting(key: string, path: string)
    | Handling(key: string, path: string, captured: bool)
    | Inserting(key: string, path: string, response: Response, expiresAt: int)

  datatype Handled = Handled(key: string, path: string, response: Response, at: int)
  datatype Created = Created(key: string, record: Record)
  datatype Replay = Replay(key: string, path: string, recordId: nat, response: Response, at: int)

  /** `handled`, `created` and `replays` are what has happened so far, in order. */
  datatype World = World(
    store: Store, now: int, inFlight: seq<Phase>,
    handled: seq<Handled>, created: seq<Created>, replays: seq<Replay>)

  datatype Step =
    | Tick(to: int)
    | Arrive(key: string, path: string, lookupFails: bool)
    | Delete(k: nat)
    | Respond(k: nat, response: Response)
    | Save(k: nat)
    | Abandon(k: nat)

  function Next(w: World, s: Step): World {
    match s
    case Tick(to) => if w.now <= to then w.(now := to) else w
    case Arrive(key, path, lookupFails) =>
      if lookupFails then w.(inFlight := w.inFlight + [Handling(key, path, false)])
      else if key !in w.store then w.(inFlight := w.inFlight + [Handling(key, path, true)])
      else if Expired(w.store[key], w.now) then w.(inFlight := w.inFlight + [Deleting(key, path)])
      else w.(replays := w.replays + [Replay(key, path, w.store[key].id, w.store[key].response, w.now)])
    case Delete(k) =>
      if k < |w.inFlight| && w.inFlight[k].Deleting? then
        var Deleting(key, path) := w.inFlight[k];
        // deleting a row that is gone throws, and the handler runs uncaptured
        w.(store := w.store - {key}, inFlight := Without(w.inFlight, k) + [Handling(key, path, key in w.store)])
      else w
    case Respond(k, response) =>
      if k < |w.inFlight| && w.inFlight[k].Handling? then
        var Handling(key, path, captured) := w.inFlight[k];
        w.(handled := w.handled + [Handled(key, path, response, w.now)],
           inFlight := Without(w.inFlight, k)
                       + if captured && Kept(response) then [Inserting(key, path, response, w.now + DAY_MS)] else [])
      else w
    case Save(k) =>
      if k < |w.inFlight| && w.inFlight[k].Inserting? then
        var Inserting(key, path, response, expiresAt) := w.inFlight[k];
        var record := Record(|w.created|, path, response, expiresAt);
        w.(store := Insert(w.store, key, record), inFlight := Without(w.inFlight, k),
           created := if key in w.store then w.created else w.created + [Created(key, record)])
      else w
    case Abandon(k) => if k < |w.inFlight| then w.(inFlight := Without(w.inFlight, k)) else w
  }

  function Run(w: World, steps: seq<Step>): World {
    if steps == [] then w else Next(Run(w, steps[..|steps| - 1]), steps[|steps| - 1])
  }

  const EMPTY := World(map[], 0, [], [], [], [])

  // ---------- What every interleaving keeps ----------

  ghost predicate WasHandled(handled: seq<Handled>, key: string, path: string, response: Response, expiresAt: int) {
    Kept(response) &&
    exists i :: 0 <= i < |handled| && handled[i] == Handled(key, path, response, expiresAt - DAY_MS)
  }

  /** Every stored record is the one created under its id, and every replay repeats such a record. */
  ghost predicate RecordsFaithful(store: Store, handled: seq<Handled>, created: seq<Created>, replays: seq<Replay>) {
    && (forall key :: key in store ==>
          store[key].id < |created| && created[store[key].id] == Created(key, store[key]))
    && (forall i :: 0 <= i < |replays| ==>
          var r := replays[i];
          && r.recordId < |created| && created[r.recordId].key == r.key
          && created[r.recordId].record.response == r.response
          && r.at < created[r.recordId].record.expiresAt)
    && (forall i :: 0 <= i < |created| ==>
          var c := created[i]; WasHandled(handled, c.key, c.record.path, c.record.response, c.record.expiresAt))
  }

  /** What is about to be stored was answered by a handler. */
  ghost predicate InsertsFaithful(handled: seq<Handled>, inFlight: seq<Phase>) {
    forall k :: 0 <= k < |inFlight| && inFlight[k].Inserting? ==>
      WasHandled(handled, inFlight[k].key, inFlight[k].path, inFlight[k].response, inFlight[k].expiresAt)
  }

  ghost predicate Faithful(w: World) {
    RecordsFaithful(w.store, w.handled, w.created, w.replays) && InsertsFaithful(w.handled, w.inFlight)
  }

  lemma StillHandled(handled: seq<Handled>, more: seq<Handled>, key: string, path: string, response: Response, expiresAt: int)
    requires WasHandled(handled, key, path, response, expiresAt)
    ensures WasHandled(handled + more, key, path, response, expiresAt)
  {
    var i :| 0 <= i < |handled| && handled[i] == Handled(key, path, response, expiresAt - DAY_MS);
    assert (handled + more)[i] == handled[i];
  }

  lemma WithoutKeepsInserts(handled: seq<Handled>, inFlight: seq<Phase>, k: nat, added: seq<Phase>)
    requires InsertsFaithful(handled, inFlight) && InsertsFaithful(handled, added) && k < |inFlight|
    ensures InsertsFaithful(handled, Without(inFlight, k) + added)
  {
    var rest := Without(inFlight, k) + added;
    forall j | 0 <= j < |rest| && rest[j].Inserting?
      ensures WasHandled(handled, rest[j].key, rest[j].path, rest[j].response, rest[j].expiresAt)
    {
      if j < |inFlight| - 1 {
        assert rest[j] == inFlight[if j < k then j else j + 1];
      } else {
        assert rest[j] == added[j - (|inFlight| - 1)];
      }
    }
  }

  lemma AnotherHandled(w: World, h: Handled)
    requires Faithful(w)
    ensures RecordsFaithful(w.store, w.handled + [h], w.created, w.replays)
    ensures InsertsFaithful(w.handled + [h], w.inFlight)
  {
    forall i | 0 <= i < |w.created|
      ensures WasHandled(w.handled + [h], w.created[i].key, w.created[i].record.path, w.created[i].record.response,
                         w.created[i].record.expiresAt)
    {
      var record := w.created[i].record;
      StillHandled(w.handled, [h], w.created[i].key, record.path, record.response, record.expiresAt);
    }
    forall k | 0 <= k < |w.inFlight| && w.inFlight[k].Inserting?
      ensures WasHandled(w.handled + [h], w.inFlight[k].key, w.inFlight[k].path, w.inFlight[k].response,
                         w.inFlight[k].expiresAt)
    {
      StillHandled(w.handled, [h], w.inFlight[k].key, w.inFlight[k].path, w.inFlight[k].response, w.inFlight[k].expiresAt);
    }
  }

  lemma RespondKeepsFaithful(w: World, k: nat, response: Response)
    requires Faithful(w) && k < |w.inFlight| && w.inFlight[k].Handling?
    ensures Faithful(Next(w, Respond(k, response)))
  {
    var h := Handled(w.inFlight[k].key, w.inFlight[k].path, response, w.now);
    AnotherHandled(w, h);
    assert (w.handled + [h])[|w.handled|] == h;
    WithoutKeepsInserts(w.handled + [h], w.inFlight, k,
      if w.inFlight[k].captured && Kept(response) then [Inserting(h.key, h.path, response, w.now + DAY_MS)] else []);
  }

  lemma SaveKeepsFaithful(w: World, k: nat)
    requires Faithful(w) && k < |w.inFlight| && w.inFlight[k].Inserting?
    ensures Faithful(Next(w, Save(k)))
  {
    var w' := Next(w, Save(k));
    WithoutKeepsInserts(w.handled, w.inFlight, k, []);
    assert Without(w.inFlight, k) + [] == w'.inFlight;
    assert w.created <= w'.created;
  }

  lemma OtherStepsKeepFaithful(w: World, s: Step)
    requires Faithful(w) && !s.Respond? && !s.Save?
    ensures Faithful(Next(w, s))
  {
    if s.Delete? && s.k < |w.inFlight| && w.inFlight[s.k].Deleting? {
      var p := w.inFlight[s.k];
      WithoutKeepsInserts(w.handled, w.inFlight, s.k, [Handling(p.key, p.path, p.key in w.store)]);
    } else if s.Abandon? && s.k < |w.inFlight| {
      WithoutKeepsInserts(w.handled, w.inFlight, s.k, []);
      assert Without(w.inFlight, s.k) + [] == Next(w, s).inFlight;
    }
  }

  lemma NextKeepsFaithful(w: World, s: Step)
    requires Faithful(w)
    ensures Faithful(Next(w, s))
  {
    if s.Respond? {
      if s.k < |w.inFlight| && w.inFlight[s.k].Handling? { RespondKeepsFaithful(w, s.k, s.response); }
    } else if s.Save? {
      if s.k < |w.inFlight| && w.inFlight[s.k].Inserting? { SaveKeepsFaithful(w, s.k); }
    } else {
      OtherStepsKeepFaithful(w, s);
    }
  }

  lemma {:induction false} EveryInterleavingIsFaithful(steps: seq<Step>)
    ensures Faithful(Run(EMPTY, steps))
  {
    if steps == [] {
    } else {
      EveryInterleavingIsFaithful(steps[..|steps| - 1]);
      NextKeepsFaithful(Run(EMPTY, steps[..|steps| - 1]), steps[|steps| - 1]);
    }
  }

  /**
    All replays of one record are identical, and each is a response that a handler run gave under
    the same key, with a status below 500, less than a day before.
   */
  lemma ReplaysRepeatAHandlerRun(steps: seq<Step>, i: nat, j: nat)
    requires i < |Run(EMPTY, steps).replays| && j < |Run(EMPTY, steps).replays|
    requires Run(EMPTY, steps).replays[i].recordId == Run(EMPTY, steps).replays[j].recordId
    ensures var w := Run(EMPTY, steps);
            && w.replays[i].recordId < |w.created|
            && w.replays[i].response == w.replays[j].response
            && w.replays[i].key == w.replays[j].key
            && w.replays[i].response.status < 500
            && exists h :: && 0 <= h < |w.handled|
                           && w.handled[h].key == w.replays[i].key && w.handled[h].response == w.replays[i].response
                           && w.handled[h].path == w.created[w.replays[i].recordId].record.path
                           && w.replays[i].at - w.handled[h].at < 86400000
  {
    EveryInterleavingIsFaithful(steps);
    var w := Run(EMPTY, steps);
    var c := w.created[w.replays[i].recordId];
    assert WasHandled(w.handled, c.key, c.record.path, c.record.response, c.record.expiresAt);
  }

  /** No replay of any run repeats a server error. */
  lemma ReplaysAreNoServerErrors(steps: seq<Step>, i: nat)
    requires i < |Run(EMPTY, steps).replays|
    ensures Run(EMPTY, steps).replays[i].response.status < 500
  {
    ReplaysRepeatAHandlerRun(steps, i, i);
  }

  /** A record does not change while it is in the store. */
  lemma RecordsDoNotChange(w: World, s: Step, key: string)
    requires Faithful(w) && key in w.store && key in Next(w, s).store
    ensures Next(w, s).store[key] == w.store[key]
  {
  }

  // ---------- Runs without overlap ----------

  ghost predicate Busy(w: World, key: string) {
    exists k :: 0 <= k < |w.inFlight| && w.inFlight[k].key == key
  }

  /**
    A step of a run without overlap: a request for a key arrives only when no other is under way, its
    lookup answers, and a response that was sent is also stored while it is worth storing.
   */
  ghost predicate Quiet(w: World, s: Step) {
    && (s.Arrive? ==> !s.lookupFails && !Busy(w, s.key))
    && (s.Abandon? && s.k < |w.inFlight| && w.inFlight[s.k].Inserting? ==> w.inFlight[s.k].expiresAt <= w.now)
  }

  ghost predicate QuietRun(w: World, steps: seq<Step>) {
    forall n :: 0 <= n < |steps| ==> Quiet(Run(w, steps[..n]), steps[n])
  }

  /** Why a kept response does not run again before a day has passed. */
  ghost predicate Guarded(w: World, h: Handled) {
    || h.at + DAY_MS <= w.now
    || (h.key in w.store && h.at + DAY_MS <= w.store[h.key].expiresAt)
    || exists k: nat :: AboutToBeStored(w, h, k)
  }

  ghost predicate AboutToBeStored(w: World, h: Handled, k: nat) {
    && k < |w.inFlight| && w.inFlight[k].Inserting?
    && w.inFlight[k].key == h.key && w.inFlight[k].expiresAt == h.at + DAY_MS
  }

  ghost predicate PhaseIsSettled(w: World, p: Phase) {
    match p
    case Deleting(key, _) => key in w.store && Expired(w.store[key], w.now)
    case Handling(key, _, captured) => captured && key !in w.store
    case Inserting(key, _, _, _) => key !in w.store
  }

  ghost predicate Spaced(handled: seq<Handled>) {
    forall i, j :: 0 <= i < j < |handled| && handled[i].key == handled[j].key
                   && Kept(handled[i].response) && Kept(handled[j].response)
                   ==> handled[i].at + DAY_MS <= handled[j].at
  }

  ghost predicate Orderly(w: World) {
    && (forall i, j :: 0 <= i < j < |w.inFlight| ==> w.inFlight[i].key != w.inFlight[j].key)
    && (forall k :: 0 <= k < |w.inFlight| ==> PhaseIsSettled(w, w.inFlight[k]))
    && (forall i :: 0 <= i < |w.handled| && Kept(w.handled[i].response) ==> Guarded(w, w.handled[i]))
    && Spaced(w.handled)
  }

  /** When a handler is about to answer, every kept response under its key is a day old. */
  lemma HandlersRunADayApart(w: World, k: nat, i: nat)
    requires Orderly(w) && k < |w.inFlight| && w.inFlight[k].Handling?
    requires i < |w.handled| && Kept(w.handled[i].response) && w.handled[i].key == w.inFlight[k].key
    ensures w.handled[i].at + DAY_MS <= w.now
  {
    assert PhaseIsSettled(w, w.inFlight[k]);
    assert Guarded(w, w.handled[i]);
  }

  lemma StoredStaysGuarded(w: World, s: Step, h: Handled)
    requires Orderly(w) && h.key in w.store && h.at + DAY_MS <= w.store[h.key].expiresAt
    ensures Guarded(Next(w, s), h)
  {
    if s.Delete? && s.k < |w.inFlight| { assert PhaseIsSettled(w, w.inFlight[s.k]); }
  }

  lemma InsertingStaysGuarded(w: World, s: Step, h: Handled, k: nat)
    requires Orderly(w) && Quiet(w, s) && AboutToBeStored(w, h, k)
    ensures Guarded(Next(w, s), h)
  {
    var w' := Next(w, s);
    assert PhaseIsSettled(w, w.inFlight[k]);
    if w'.inFlight == w.inFlight || s.Arrive? || s.Tick? {
      assert AboutToBeStored(w', h, k);
    } else if s.k != k {
      assert AboutToBeStored(w', h, if k < s.k then k else k - 1);
    } else if s.Abandon? {
      assert h.at + DAY_MS <= w'.now;
    }
  }

  lemma StaysGuarded(w: World, s: Step, h: Handled)
    requires Orderly(w) && Quiet(w, s) && Guarded(w, h)
    ensures Guarded(Next(w, s), h)
  {
    if h.at + DAY_MS <= w.now {
      assert w.now <= Next(w, s).now;
    } else if h.key in w.store && h.at + DAY_MS <= w.store[h.key].expiresAt {
      StoredStaysGuarded(w, s, h);
    } else {
      var k: nat :| AboutToBeStored(w, h, k);
      InsertingStaysGuarded(w, s, h, k);
    }
  }

  /** Each phase of the next world, and where it comes from. */
  lemma PhasesStaySettled(w: World, s: Step, j: nat)
    requires Orderly(w) && Quiet(w, s) && j < |Next(w, s).inFlight|
    ensures PhaseIsSettled(Next(w, s), Next(w, s).inFlight[j])
  {
    var w' := Next(w, s);
    if (s.Delete? || s.Respond? || s.Save? || s.Abandon?) && s.k < |w.inFlight| && w' != w {
      assert PhaseIsSettled(w, w.inFlight[s.k]);
      if j < |w.inFlight| - 1 {
        var i := if j < s.k then j else j + 1;
        assert w'.inFlight[j] == w.inFlight[i];
        assert PhaseIsSettled(w, w.inFlight[i]);
        assert w.inFlight[i].key != w.inFlight[s.k].key;
      }
    } else if j < |w.inFlight| {
      assert w'.inFlight[j] == w.inFlight[j];
      assert PhaseIsSettled(w, w.inFlight[j]);
    }
  }

  /** A phase that is replaced by at most one of the same key. */
  lemma ReplacedKeepApart(phases: seq<Phase>, k: nat, added: seq<Phase>, i: nat, j: nat)
    requires forall a, b :: 0 <= a < b < |phases| ==> phases[a].key != phases[b].key
    requires k < |phases| && |added| <= 1 && (added != [] ==> added[0].key == phases[k].key)
    requires i < j < |Without(phases, k) + added|
    ensures (Without(phases, k) + added)[i].key != (Without(phases, k) + added)[j].key
  {
    assert Without(phases, k)[i] == phases[if i < k then i else i + 1];
    if j < |phases| - 1 { assert Without(phases, k)[j] == phases[if j < k then j else j + 1]; }
  }

  lemma KeysStayApart(w: World, s: Step, i: nat, j: nat)
    requires Orderly(w) && Quiet(w, s) && i < j < |Next(w, s).inFlight|
    ensures Next(w, s).inFlight[i].key != Next(w, s).inFlight[j].key
  {
    var rest := Next(w, s).inFlight;
    if rest != w.inFlight && !s.Arrive? {
      var n := |w.inFlight| - 1;
      assert rest == Without(w.inFlight, s.k) + rest[n..];
      ReplacedKeepApart(w.inFlight, s.k, rest[n..], i, j);
    }
  }

  lemma RespondKeepsSpaced(w: World, k: nat, response: Response)
    requires Orderly(w) && k < |w.inFlight| && w.inFlight[k].Handling?
    ensures Spaced(Next(w, Respond(k, response)).handled)
    ensures Kept(response) ==>
              Guarded(Next(w, Respond(k, response)), Handled(w.inFlight[k].key, w.inFlight[k].path, response, w.now))
  {
    var w' := Next(w, Respond(k, response));
    var n := |w.handled|;
    forall i | 0 <= i < n && w.handled[i].key == w'.handled[n].key && Kept(w.handled[i].response)
      ensures w.handled[i].at + DAY_MS <= w.now
    {
      HandlersRunADayApart(w, k, i);
    }
    assert PhaseIsSettled(w, w.inFlight[k]);
    if Kept(response) {
      assert AboutToBeStored(w', Handled(w.inFlight[k].key, w.inFlight[k].path, response, w.now), |w.inFlight| - 1);
    }
  }

  lemma NextKeepsOrderly(w: World, s: Step)
    requires Orderly(w) && Quiet(w, s)
    ensures Orderly(Next(w, s))
  {
    var w' := Next(w, s);
    forall i: nat, j: nat | i < j < |w'.inFlight| ensures w'.inFlight[i].key != w'.inFlight[j].key {
      KeysStayApart(w, s, i, j);
    }
    forall j: nat | j < |w'.inFlight| ensures PhaseIsSettled(w', w'.inFlight[j]) {
      PhasesStaySettled(w, s, j);
    }
    if s.Respond? && s.k < |w.inFlight| && w.inFlight[s.k].Handling? {
      RespondKeepsSpaced(w, s.k, s.response);
    }
    forall i | 0 <= i < |w'.handled| && Kept(w'.handled[i].response) ensures Guarded(w', w'.handled[i]) {
      if i < |w.handled| { StaysGuarded(w, s, w.handled[i]); }
    }
  }

  lemma {:induction false} QuietRunsStayOrderly(w: World, steps: seq<Step>)
    requires Orderly(w) && QuietRun(w, steps)
    ensures Orderly(Run(w, steps))
  {
    if steps != [] {
      var n := |steps| - 1;
      assert forall m :: 0 <= m < n ==> steps[..n][..m] == steps[..m];
      QuietRunsStayOrderly(w, steps[..n]);
      assert Quiet(Run(w, steps[..n]), steps[n]);
      NextKeepsOrderly(Run(w, steps[..n]), steps[n]);
    }
  }

  /**
    Exactly-once over any run without overlap per key: two handler responses below 500 under one key
    are at least 24 hours apart, however requests for other keys are interleaved.
   */
  lemma AtMostOneKeptResponsePerDay(steps: seq<Step>)
    requires QuietRun(EMPTY, steps)
    ensures Spaced(Run(EMPTY, steps).handled)
    ensures var handled := Run(EMPTY, steps).handled;
            forall i, j :: 0 <= i < j < |handled| && handled[i].key == handled[j].key
                           && handled[i].response.status < 500 && handled[j].response.status < 500 ==>
              handled[i].at + 86400000 <= handled[j].at
  {
    QuietRunsStayOrderly(EMPTY, steps);
  }

  // ---------- Quiet steps are exactly the harmless ones ----------

  /** However the run goes on without overlap, kept responses stay a day apart. */
  ghost predicate Safe(w: World) {
    forall steps :: QuietRun(w, steps) ==> Spaced(Run(w, steps).handled)
  }

  lemma {:induction false} RunFromFront(w: World, s: Step, steps: seq<Step>)
    ensures Run(w, [s] + steps) == Run(Next(w, s), steps)
  {
    var all := [s] + steps;
    if steps == [] {
      assert all[..0] == [] && all == [s];
      assert Run(w, []) == w;
    } else {
      var n := |steps| - 1;
      assert all[..|all| - 1] == [s] + steps[..n];
      RunFromFront(w, s, steps[..n]);
    }
  }

  lemma UnsafeNow(w: World)
    requires !Spaced(w.handled)
    ensures !Safe(w)
  {
    assert QuietRun(w, []) && Run(w, []) == w;
  }

  lemma UnsafeLater(w: World, s: Step)
    requires Quiet(w, s) && !Safe(Next(w, s))
    ensures !Safe(w)
  {
    var steps :| QuietRun(Next(w, s), steps) && !Spaced(Run(Next(w, s), steps).handled);
    var all := [s] + steps;
    RunFromFront(w, s, steps);
    forall n | 0 <= n < |all| ensures Quiet(Run(w, all[..n]), all[n]) {
      if n == 0 {
        assert all[..0] == [] && Run(w, []) == w;
      } else {
        assert all[..n] == [s] + steps[..n - 1];
        RunFromFront(w, s, steps[..n - 1]);
        assert Quiet(Run(Next(w, s), steps[..n - 1]), steps[n - 1]);
      }
    }
    assert QuietRun(w, all);
  }

  /** A kept response of the key is less than a day old. */
  ghost predicate RecentlyKept(w: World, key: string) {
    exists i :: 0 <= i < |w.handled| && w.handled[i].key == key && Kept(w.handled[i].response) && w.now < w.handled[i].at + DAY_MS
  }

  ghost predicate HandlingAt(w: World, k: nat, key: string) {
    k < |w.inFlight| && w.inFlight[k].Handling? && w.inFlight[k].key == key
  }

  const OK := Response(200, "")

  lemma AfterRespond(w: World, k: nat, key: string)
    requires HandlingAt(w, k, key)
    ensures var w' := Next(w, Respond(k, OK));
            && RecentlyKept(w', key) && w'.now == w.now && w'.store == w.store
            && w'.handled == w.handled + [Handled(key, w.inFlight[k].path, OK, w.now)]
            && w'.inFlight == Without(w.inFlight, k)
                              + if w.inFlight[k].captured then [Inserting(key, w.inFlight[k].path, OK, w.now + DAY_MS)] else []
  {
    assert Next(w, Respond(k, OK)).handled[|w.handled|] == Handled(key, w.inFlight[k].path, OK, w.now);
  }

  lemma UnsafeHandling(w: World, k: nat, key: string)
    requires HandlingAt(w, k, key) && RecentlyKept(w, key)
    ensures !Safe(w)
  {
    var w' := Next(w, Respond(k, OK));
    AfterRespond(w, k, key);
    var i :| 0 <= i < |w.handled| && w.handled[i].key == key && Kept(w.handled[i].response) && w.now < w.handled[i].at + DAY_MS;
    assert w'.handled[i] == w.handled[i] && w'.handled[|w.handled|] == Handled(key, w.inFlight[k].path, OK, w.now);
    UnsafeNow(w');
    UnsafeLater(w, Respond(k, OK));
  }

  lemma UnsafeTwoHandlers(w: World, i: nat, j: nat, key: string)
    requires HandlingAt(w, i, key) && HandlingAt(w, j, key) && i < j
    ensures !Safe(w)
  {
    AfterRespond(w, j, key);
    assert HandlingAt(Next(w, Respond(j, OK)), i, key);
    UnsafeHandling(Next(w, Respond(j, OK)), i, key);
    UnsafeLater(w, Respond(j, OK));
  }

  ghost predicate Absent(w: World, key: string) { key !in w.store || Expired(w.store[key], w.now) }

  lemma AfterDelete(w: World, k: nat, key: string)
    requires k < |w.inFlight| && w.inFlight[k].Deleting? && w.inFlight[k].key == key
    ensures HandlingAt(Next(w, Delete(k)), |w.inFlight| - 1, key)
    ensures Next(w, Delete(k)).handled == w.handled && Next(w, Delete(k)).now == w.now
    ensures Next(w, Delete(k)).inFlight[..|w.inFlight| - 1] == Without(w.inFlight, k)
  {
  }

  /** A key with a recent kept response but without a live record: the next request runs the handler again. */
  lemma UnsafeUnrecorded(w: World, key: string)
    requires !Busy(w, key) && Absent(w, key) && RecentlyKept(w, key)
    ensures !Safe(w)
  {
    var n, arrive := |w.inFlight|, Arrive(key, "", false);
    var w1 := Next(w, arrive);
    if key in w.store {
      assert w1.inFlight[n] == Deleting(key, "");
      AfterDelete(w1, n, key);
      UnsafeHandling(Next(w1, Delete(n)), n, key);
      UnsafeLater(w1, Delete(n));
    } else {
      UnsafeHandling(w1, n, key);
    }
    UnsafeLater(w, arrive);
  }

  /** An insert that comes too late to be worth anything keeps a later one out. */
  lemma UnsafeLateInsert(w: World, k: nat, n: nat, key: string)
    requires k < n && |w.inFlight| == n + 1 && HandlingAt(w, n, key) && key !in w.store
    requires w.inFlight[k].Inserting? && w.inFlight[k].key == key && w.inFlight[k].expiresAt <= w.now
    requires forall j :: 0 <= j < n && j != k ==> w.inFlight[j].key != key
    ensures !Safe(w)
  {
    var w1 := Next(w, Respond(n, OK));
    AfterRespond(w, n, key);
    assert Without(w.inFlight, n) == w.inFlight[..n];
    var w2 := Next(w1, Save(k));
    assert w1.inFlight[k] == w.inFlight[k];
    assert key in w2.store && Expired(w2.store[key], w2.now);
    assert forall j :: 0 <= j < n - 1 ==> w2.inFlight[j] == w.inFlight[if j < k then j else j + 1];
    if w.inFlight[n].captured {
      assert w2.inFlight[n - 1] == Inserting(key, w.inFlight[n].path, OK, w.now + DAY_MS);
      var w3 := Next(w2, Save(n - 1));
      assert w3.store == w2.store && |w3.inFlight| == n - 1;
      UnsafeUnrecorded(w3, key);
      UnsafeLater(w2, Save(n - 1));
    } else {
      UnsafeUnrecorded(w2, key);
    }
    UnsafeLater(w1, Save(k));
    UnsafeLater(w, Respond(n, OK));
  }

  lemma InsertIsRecent(w: World, k: nat)
    requires Faithful(w) && k < |w.inFlight| && w.inFlight[k].Inserting? && w.now < w.inFlight[k].expiresAt
    ensures RecentlyKept(w, w.inFlight[k].key)
  {
    var p := w.inFlight[k];
    assert WasHandled(w.handled, p.key, p.path, p.response, p.expiresAt);
    var i :| 0 <= i < |w.handled| && w.handled[i] == Handled(p.key, p.path, p.response, p.expiresAt - DAY_MS);
    assert Kept(w.handled[i].response);
  }

  lemma RecordIsRecent(w: World, key: string)
    requires Faithful(w) && !Absent(w, key)
    ensures RecentlyKept(w, key)
  {
    var r := w.store[key];
    assert w.created[r.id] == Created(key, r);
    assert WasHandled(w.handled, key, r.path, r.response, r.expiresAt);
    var i :| 0 <= i < |w.handled| && w.handled[i] == Handled(key, r.path, r.response, r.expiresAt - DAY_MS);
    assert Kept(w.handled[i].response);
  }

  /** One handler of the key beside an insert of the key. */
  lemma UnsafeBesideInsert(w: World, w': World, k: nat, path: string, captured: bool)
    requires Orderly(w) && Faithful(w) && k < |w.inFlight| && w.inFlight[k].Inserting?
    requires w' == w.(inFlight := w.inFlight + [Handling(w.inFlight[k].key, path, captured)])
    ensures !Safe(w')
  {
    var n, key := |w.inFlight|, w.inFlight[k].key;
    assert w'.inFlight[k] == w.inFlight[k] && HandlingAt(w', n, key);
    if w.now < w.inFlight[k].expiresAt {
      InsertIsRecent(w, k);
      assert RecentlyKept(w', key);
      UnsafeHandling(w', n, key);
    } else {
      assert PhaseIsSettled(w, w.inFlight[k]);
      forall j | 0 <= j < n && j != k ensures w'.inFlight[j].key != key { assert w'.inFlight[j] == w.inFlight[j]; }
      UnsafeLateInsert(w', k, n, key);
    }
  }

  lemma OverlapIsUnsafe(w: World, k: nat, path: string)
    requires Orderly(w) && Faithful(w) && k < |w.inFlight|
    ensures !Safe(Next(w, Arrive(w.inFlight[k].key, path, false)))
  {
    var n, key := |w.inFlight|, w.inFlight[k].key;
    var w' := Next(w, Arrive(key, path, false));
    assert PhaseIsSettled(w, w.inFlight[k]);
    assert w'.inFlight[k] == w.inFlight[k];
    match w.inFlight[k]
    case Handling(_, _, _) => UnsafeTwoHandlers(w', k, n, key);
    case Inserting(_, _, _, _) => UnsafeBesideInsert(w, w', k, path, true);
    case Deleting(_, _) =>
      var w2 := Next(w', Delete(n));
      AfterDelete(w', n, key);
      assert Without(w'.inFlight, n) == w.inFlight && w2.inFlight[..n] == w.inFlight;
      assert w2.inFlight[k] == w2.inFlight[..n][k];
      DeletingBesideHandler(w2, k, n, key);
      UnsafeLater(w', Delete(n));
  }

  lemma DeletingBesideHandler(w: World, k: nat, n: nat, key: string)
    requires k < n && |w.inFlight| == n + 1 && w.inFlight[k].Deleting? && w.inFlight[k].key == key && HandlingAt(w, n, key)
    ensures !Safe(w)
  {
    AfterDelete(w, k, key);
    var w' := Next(w, Delete(k));
    assert w'.inFlight[n - 1] == w.inFlight[n];
    UnsafeTwoHandlers(w', n - 1, n, key);
    UnsafeLater(w, Delete(k));
  }

  lemma FailedLookupIsUnsafe(w: World, key: string, path: string)
    requires Orderly(w) && Faithful(w)
    ensures !Safe(Next(w, Arrive(key, path, true)))
  {
    var n, w' := |w.inFlight|, Next(w, Arrive(key, path, true));
    assert HandlingAt(w', n, key);
    if k: nat :| k < n && w.inFlight[k].key == key {
      assert w'.inFlight[k] == w.inFlight[k];
      match w.inFlight[k]
      case Handling(_, _, _) => UnsafeTwoHandlers(w', k, n, key);
      case Inserting(_, _, _, _) => UnsafeBesideInsert(w, w', k, path, false);
      case Deleting(_, _) => DeletingBesideHandler(w', k, n, key);
    } else if Absent(w, key) {
      AfterRespond(w', n, key);
      assert Without(w'.inFlight, n) == w.inFlight;
      UnsafeUnrecorded(Next(w', Respond(n, OK)), key);
      UnsafeLater(w', Respond(n, OK));
    } else {
      RecordIsRecent(w, key);
      assert RecentlyKept(w', key);
      UnsafeHandling(w', n, key);
    }
  }

  lemma LostInsertIsUnsafe(w: World, k: nat)
    requires Orderly(w) && Faithful(w) && k < |w.inFlight| && w.inFlight[k].Inserting? && w.now < w.inFlight[k].expiresAt
    ensures !Safe(Next(w, Abandon(k)))
  {
    var key, w' := w.inFlight[k].key, Next(w, Abandon(k));
    InsertIsRecent(w, k);
    KeyIsFree(w, w', k);
    assert RecentlyKept(w', key);
    UnsafeUnrecorded(w', key);
  }

  /** No key is under way twice, so dropping its phase leaves none. */
  lemma KeyIsFree(w: World, w': World, k: nat)
    requires Orderly(w) && k < |w.inFlight| && w.inFlight[k].Inserting? && w' == Next(w, Abandon(k))
    ensures !Busy(w', w.inFlight[k].key) && Absent(w', w.inFlight[k].key)
  {
    assert PhaseIsSettled(w, w.inFlight[k]);
    forall j | 0 <= j < |w'.inFlight| ensures w'.inFlight[j].key != w.inFlight[k].key {
      assert w'.inFlight[j] == w.inFlight[if j < k then j else j + 1];
    }
  }

  /**
    The middleware keeps its promise after a step, however the run goes on without overlap, exactly
    when that step is itself one without overlap: a second request for a key under way, a failing
    lookup, and the loss of a response still to be stored each break it in some continuation.
   */
  lemma SafeExactlyWhenQuiet(w: World, s: Step)
    requires Orderly(w) && Faithful(w)
    ensures Safe(Next(w, s)) <==> Quiet(w, s)
  {
    if Quiet(w, s) {
      NextKeepsOrderly(w, s);
      forall steps | QuietRun(Next(w, s), steps) ensures Spaced(Run(Next(w, s), steps).handled) {
        QuietRunsStayOrderly(Next(w, s), steps);
      }
    } else if s.Abandon? {
      LostInsertIsUnsafe(w, s.k);
    } else if s.lookupFails {
      FailedLookupIsUnsafe(w, s.key, s.path);
    } else {
      var k: nat :| k < |w.inFlight| && w.inFlight[k].key == s.key;
      OverlapIsUnsafe(w, k, s.path);
    }
  }

  /** With overlap the handler runs twice: both requests look the key up before either has answered. */
  lemma OverlapRunsTheHandlerTwice(ok: Response)
    requires ok == Response(200, "paid")
    ensures var w := Next(Next(EMPTY, Arrive("k", "/pay", false)), Arrive("k", "/pay", false));
            Next(Next(w, Respond(0, ok)), Respond(0, ok)).handled == [Handled("k", "/pay", ok, 0), Handled("k", "/pay", ok, 0)]
  {
    var w := Next(Next(EMPTY, Arrive("k", "/pay", false)), Arrive("k", "/pay", false));
    assert w.inFlight == [Handling("k", "/pay", true), Handling("k", "/pay", true)];
    var w1 := Next(w, Respond(0, ok));
    assert w1.inFlight == [Handling("k", "/pay", true), Inserting("k", "/pay", ok, DAY_MS)];
  }

  // ---------- After a server error ----------

  ghost predicate AsksNothing(steps: seq<Step>, key: string) {
    forall n :: 0 <= n < |steps| && steps[n].Arrive? ==> steps[n].key != key
  }

  lemma IdleStep(w: World, s: Step, key: string)
    requires key !in w.store && !Busy(w, key) && (s.Arrive? ==> s.key != key)
    ensures key !in Next(w, s).store && !Busy(Next(w, s), key)
  {
    var w', n := Next(w, s), |w.inFlight|;
    if w'.inFlight != w.inFlight && !s.Arrive? {
      forall j | 0 <= j < |w'.inFlight| ensures w'.inFlight[j].key != key {
        if j < n - 1 {
          assert w'.inFlight[j] == w.inFlight[if j < s.k then j else j + 1];
        } else {
          assert w'.inFlight[j].key == w.inFlight[s.k].key;
        }
      }
    }
  }

  lemma {:induction false} IdleKeyStaysFree(w: World, steps: seq<Step>, key: string)
    requires key !in w.store && !Busy(w, key) && AsksNothing(steps, key)
    ensures key !in Run(w, steps).store && !Busy(Run(w, steps), key)
  {
    if steps != [] {
      IdleKeyStaysFree(w, steps[..|steps| - 1], key);
      IdleStep(Run(w, steps[..|steps| - 1]), steps[|steps| - 1], key);
    }
  }

  lemma ErrorLeavesKeyFree(w: World, k: nat, response: Response)
    requires k < |w.inFlight| && w.inFlight[k].Handling? && w.inFlight[k].key !in w.store && 500 <= response.status
    requires forall j :: 0 <= j < |w.inFlight| && j != k ==> w.inFlight[j].key != w.inFlight[k].key
    ensures !Busy(Next(w, Respond(k, response)), w.inFlight[k].key)
    ensures Next(w, Respond(k, response)).store == w.store
  {
    var rest := Next(w, Respond(k, response)).inFlight;
    assert rest == Without(w.inFlight, k);
    assert forall j :: 0 <= j < |rest| ==> rest[j] == w.inFlight[if j < k then j else j + 1];
  }

  /**
    When a handler answers 500 or above under a key without a record, and nothing else of that key is
    under way, the next request of the key reaches a handler, whatever other keys do in between.
   */
  lemma ServerErrorIsRetried(w: World, k: nat, response: Response, steps: seq<Step>, path: string)
    requires k < |w.inFlight| && w.inFlight[k].Handling? && w.inFlight[k].key !in w.store && 500 <= response.status
    requires forall j :: 0 <= j < |w.inFlight| && j != k ==> w.inFlight[j].key != w.inFlight[k].key
    requires AsksNothing(steps, w.inFlight[k].key)
    ensures var key, later := w.inFlight[k].key, Run(Next(w, Respond(k, response)), steps);
            && Next(later, Arrive(key, path, false)).inFlight == later.inFlight + [Handling(key, path, true)]
            && Next(later, Arrive(key, path, false)).replays == later.replays
  {
    ErrorLeavesKeyFree(w, k, response);
    IdleKeyStaysFree(Next(w, Respond(k, response)), steps, w.inFlight[k].key);
  }

  // ---------- Which route a replay answers ----------

  /** Every replay repeats a response that was made for the route of its own request. */
  ghost predicate AnswersOwnRoute(w: World) {
    forall i :: 0 <= i < |w.replays| && w.replays[i].recordId < |w.created| ==>
      w.created[w.replays[i].recordId].record.path == w.replays[i].path
  }

  /** The request finds a live record of its key that was made for another route. */
  ghost predicate CrossesRoutes(w: World, s: Step) {
    && s.Arrive? && !s.lookupFails && s.key in w.store && !Expired(w.store[s.key], w.now)
    && w.store[s.key].path != s.path
  }

  /** A step keeps every replay on its own route exactly when it does not present a key that is in use for another. */
  lemma OwnRouteKeptExactlyWhen(w: World, s: Step)
    requires Faithful(w) && AnswersOwnRoute(w)
    ensures AnswersOwnRoute(Next(w, s)) <==> !CrossesRoutes(w, s)
  {
    var w' := Next(w, s);
    forall i | 0 <= i < |w.replays| ensures w'.replays[i] == w.replays[i] && w.replays[i].recordId < |w.created| {}
    assert w.created <= w'.created;
    if s.Arrive? && |w'.replays| > |w.replays| {
      assert w.created[w.store[s.key].id] == Created(s.key, w.store[s.key]);
      assert w'.replays[|w.replays|].recordId == w.store[s.key].id;
    }
  }

  /** A response to one route, given as the answer of another. */
  lemma ReplayCrossesRoutes(ok: Response)
    requires ok == Response(200, "paid")
    ensures var w := Next(Next(Next(EMPTY, Arrive("k", "/pay", false)), Respond(0, ok)), Save(0));
            var w' := Next(w, Arrive("k", "/refund", false));
            w'.replays == [Replay("k", "/refund", 0, ok, 0)] && !AnswersOwnRoute(w')
  {
    var arrived := Next(EMPTY, Arrive("k", "/pay", false));
    assert arrived.inFlight == [Handling("k", "/pay", true)];
    var answered := Next(arrived, Respond(0, ok));
    assert answered.inFlight == [Inserting("k", "/pay", ok, DAY_MS)];
    var w' := Next(Next(answered, Save(0)), Arrive("k", "/refund", false));
    assert w'.replays[0] == Replay("k", "/refund", 0, ok, 0);
  }

  /** The whole run uses each key for one route only. */
  ghost predicate OneRoutePerKey(steps: seq<Step>, route: string -> string) {
    forall n :: 0 <= n < |steps| && steps[n].Arrive? ==> steps[n].path == route(steps[n].key)
  }

  ghost predicate PhasesOnRoute(inFlight: seq<Phase>, route: string -> string) {
    forall k :: 0 <= k < |inFlight| ==> inFlight[k].path == route(inFlight[k].key)
  }

  /** Everything in a world is on the route of its key. */
  ghost predicate OnRoute(w: World, route: string -> string) {
    && PhasesOnRoute(w.inFlight, route)
    && (forall i :: 0 <= i < |w.created| ==> w.created[i].record.path == route(w.created[i].key))
    && (forall i :: 0 <= i < |w.replays| ==> w.replays[i].path == route(w.replays[i].key))
  }

  lemma PhasesStayOnRoute(w: World, s: Step, route: string -> string)
    requires PhasesOnRoute(w.inFlight, route) && (s.Arrive? ==> s.path == route(s.key))
    ensures PhasesOnRoute(Next(w, s).inFlight, route)
  {
    var w', n := Next(w, s), |w.inFlight|;
    if w'.inFlight != w.inFlight && !s.Arrive? {
      forall j | 0 <= j < |w'.inFlight| ensures w'.inFlight[j].path == route(w'.inFlight[j].key) {
        if j < n - 1 {
          assert w'.inFlight[j] == w.inFlight[if j < s.k then j else j + 1];
        } else {
          assert w'.inFlight[j].path == w.inFlight[s.k].path && w'.inFlight[j].key == w.inFlight[s.k].key;
        }
      }
    }
  }

  lemma NextStaysOnRoute(w: World, s: Step, route: string -> string)
    requires OnRoute(w, route) && (s.Arrive? ==> s.path == route(s.key))
    ensures OnRoute(Next(w, s), route)
  {
    PhasesStayOnRoute(w, s, route);
  }

  lemma {:induction false} RunStaysOnRoute(steps: seq<Step>, route: string -> string)
    requires OneRoutePerKey(steps, route)
    ensures OnRoute(Run(EMPTY, steps), route)
  {
    if steps != [] {
      RunStaysOnRoute(steps[..|steps| - 1], route);
      NextStaysOnRoute(Run(EMPTY, steps[..|steps| - 1]), steps[|steps| - 1], route);
    }
  }

  /** A client that uses each key for one route gets only replays of that route, in every interleaving. */
  lemma OneRoutePerKeySuffices(steps: seq<Step>, route: string -> string)
    requires OneRoutePerKey(steps, route)
    ensures AnswersOwnRoute(Run(EMPTY, steps))
  {
    RunStaysOnRoute(steps, route);
    EveryInterleavingIsFaithful(steps);
  }

  // ---------- The middleware ----------

  datatype Outcome = Bypass | Replayed(response: Response) | Proceed(captured: bool)

  class IdempotencyStore {
    var records: Store

    constructor ()
      ensures records == EMPTY.store
    {
      records := map[];
    }

    /** A request that is served alone up to its handler: lookup, then deletion if expired. */
    method Begin(httpMethod: string, idempotencyKey: Option<string>, path: string, lookupFails: bool, now: int)
      returns (o: Outcome)
      modifies this
      ensures o == Bypass <==> httpMethod in {"GET", "HEAD", "OPTIONS"} || idempotencyKey.None? || idempotencyKey.value == ""
      ensures o == Bypass ==> records == old(records)
      ensures o != Bypass ==>
                var w := World(old(records), now, [], [], [], []);
                var w' := Next(Next(w, Arrive(idempotencyKey.value, path, lookupFails)), Delete(0));
                && records == w'.store
                && match o
                   case Replayed(response) => w'.inFlight == [] && |w'.replays| == 1 && w'.replays[0].response == response
                   case Proceed(captured) => w'.inFlight == [Handling(idempotencyKey.value, path, captured)]
                   case Bypass => true
      ensures o != Bypass ==>
                var key := idempotencyKey.value;
                && (lookupFails ==> o == Proceed(false) && records == old(records))
                && (!lookupFails && key !in old(records) ==> o == Proceed(true) && records == old(records))
                && (!lookupFails && key in old(records) && now < old(records)[key].expiresAt ==>
                      o == Replayed(old(records)[key].response) && records == old(records))
                && (!lookupFails && key in old(records) && old(records)[key].expiresAt <= now ==>
                      o == Proceed(true) && records == old(records) - {key})
    {
      if httpMethod == "GET" || httpMethod == "HEAD" || httpMethod == "OPTIONS" {
        return Bypass;
      }
      if idempotencyKey.None? || idempotencyKey.value == "" {
        return Bypass;
      }
      if lookupFails {
        return Proceed(false);
      }
      var key := idempotencyKey.value;
      if key in records {
        if records[key].expiresAt > now {
          return Replayed(records[key].response);
        }
        records := records - {key};
      }
      return Proceed(true);
    }

    /** The replaced `res.json` of a captured request; `created` are the rows made so far, and the new row's id is next. */
    method OnJson(key: string, path: string, response: Response, now: int, ghost created: seq<Created>, id: nat)
      requires id == |created|
      modifies this
      ensures records == if Kept(response) then Insert(old(records), key, Record(id, path, response, now + DAY_MS)) else old(records)
      ensures var w := World(old(records), now, [Handling(key, path, true)], [], created, []);
              records == Next(Next(w, Respond(0, response)), Save(0)).store
      ensures 500 <= response.status || key in old(records) ==> records == old(records)
      ensures response.status < 500 && key !in old(records) ==>
                records == old(records)[key := Record(id, path, response, now + 86400000)]
    {
      if response.status < 500 {
        if key !in records {
          records := records[key := Record(id, path, response, now + DAY_MS)];
        }
      }
    }
  }
}
