/**
  Developer API keys: the checks that stand before the per-key window counter, and the counter.
  A key's limit is read with every request, so it may change while a window is open.
 */
module ApiKeys {
  import opened Wrappers
  import opened FixedWindow

  datatype ApiKey = ApiKey(id: string, isActive: bool, expiresAt: Option<int>, scopes: set<string>, rateLimit: int)

  datatype Refusal = MissingKey | InvalidKey | ExpiredKey | LacksScope | RateLimited

  const WINDOW_MS := 60000

  /** `text.split(' ')[1]` of a text that starts with `Bearer `. */
  function SecondWord(text: string): string {
    UpToSpace(text[if |text| < 7 then |text| else 7..])
  }

  function UpToSpace(text: string): (word: string)
    ensures word <= text && ' ' !in word
    ensures |word| < |text| ==> text[|word|] == ' '
  {
    if text == [] || text[0] == ' ' then [] else [text[0]] + UpToSpace(text[1..])
  }

  /** The key a request presents: the bearer token if it looks like one of ours, else the header. */
  function PresentedKey(authorization: Option<string>, xApiKey: Option<string>): Option<string> {
    if authorization.Some? && "Bearer pr_" <= authorization.value then Some(SecondWord(authorization.value))
    else xApiKey
  }

  /** A bearer token of ours is what stands between the scheme and the next space; otherwise the header counts. */
  lemma PresentedInFields(token: string, rest: string, xApiKey: Option<string>)
    requires "pr_" <= token && ' ' !in token && (rest == "" || rest[0] == ' ')
    ensures PresentedKey(Some("Bearer " + token + rest), xApiKey) == Some(token)
    ensures PresentedKey(None, xApiKey) == xApiKey
    ensures forall other :: !("Bearer pr_" <= other) ==> PresentedKey(Some(other), xApiKey) == xApiKey
  {
    var text := "Bearer " + token + rest;
    assert token == "pr_" + token[3..];
    assert text == "Bearer pr_" + (token[3..] + rest);
    assert text[7..] == token + rest;
    UpToSpaceIs(token, rest);
  }

  lemma {:induction false} UpToSpaceIs(word: string, rest: string)
    requires ' ' !in word && (rest == "" || rest[0] == ' ')
    ensures UpToSpace(word + rest) == word
  {
    if word == [] {
      assert word + rest == rest;
    } else {
      assert (word + rest)[1..] == word[1..] + rest;
      UpToSpaceIs(word[1..], rest);
    }
  }

  /** The first check that turns a request away before its key's counter is looked at. */
  function Guard(key: Option<ApiKey>, requiredScope: Option<string>, now: int): Option<Refusal> {
    if key.None? || !key.value.isActive then Some(InvalidKey)
    else if key.value.expiresAt.Some? && key.value.expiresAt.value < now then Some(ExpiredKey)
    else if requiredScope.Some? && "*" !in key.value.scopes && requiredScope.value !in key.value.scopes then
      Some(LacksScope)
    else None
  }

  /** The event that a request is for the shared counters; none when a check turns it away. */
  function CountedAs(rawKey: Option<string>, key: Option<ApiKey>, requiredScope: Option<string>, now: int): Option<Event> {
    if rawKey.None? || rawKey.value == "" || Guard(key, requiredScope, now).Some? then None
    else Some(Request(key.value.id, Hit(now, key.value.rateLimit)))
  }

  // ---------- Runs of the gate ----------

  /** A request to the gate, with the key row that its lookup finds. */
  datatype Attempt = Attempt(rawKey: Option<string>, key: Option<ApiKey>, requiredScope: Option<string>, at: int)

  /** What the attempts of a run are for the counters: those turned away by a check leave no trace. */
  function CountedEvents(attempts: seq<Attempt>): seq<Event> {
    if attempts == [] then []
    else
      var a := attempts[|attempts| - 1];
      var e := CountedAs(a.rawKey, a.key, a.requiredScope, a.at);
      CountedEvents(attempts[..|attempts| - 1]) + if e.Some? then [e.value] else []
  }

  ghost predicate AttemptsInOrder(attempts: seq<Attempt>, now: int) {
    && (forall i, j :: 0 <= i < j < |attempts| ==> attempts[i].at <= attempts[j].at)
    && forall i :: 0 <= i < |attempts| ==> attempts[i].at <= now
  }

  /** No attempt finds the key with a limit above `max`. */
  ghost predicate KeyLimitedBy(attempts: seq<Attempt>, id: string, max: int) {
    forall i :: 0 <= i < |attempts| && attempts[i].key.Some? && attempts[i].key.value.id == id ==>
      attempts[i].key.value.rateLimit <= max
  }

  lemma {:induction false} CountedEventsFit(attempts: seq<Attempt>, now: int, id: string, max: int)
    requires AttemptsInOrder(attempts, now) && KeyLimitedBy(attempts, id, max)
    ensures ClockRuns(CountedEvents(attempts))
    ensures forall i :: 0 <= i < |CountedEvents(attempts)| ==>
              && TimeOf(CountedEvents(attempts)[i]) <= now
              && CountedEvents(attempts)[i].Request?
              && (CountedEvents(attempts)[i].key == id ==> CountedEvents(attempts)[i].hit.limit <= max)
  {
    if attempts != [] {
      CountedEventsFit(attempts[..|attempts| - 1], attempts[|attempts| - 1].at, id, max);
    }
  }

  /**
    Over any run of attempts, of which the checks may turn away any, and while limits may change, a
    key gets no more through in any interval than the ceiling for the largest limit it ever had,
    whatever the limits of other keys.
   */
  lemma GateBoundsEveryKey(attempts: seq<Attempt>, now: int, max: int, id: string, lo: int, span: nat)
    requires AttemptsInOrder(attempts, now) && 1 <= max && KeyLimitedBy(attempts, id, max)
    ensures ServedBetween(CountedEvents(attempts), WINDOW_MS, id, lo, lo + span) <= Ceiling(span, WINDOW_MS, max)
  {
    CountedEventsFit(attempts, now, id, max);
    LimiterBoundsEveryKey(CountedEvents(attempts), WINDOW_MS, max, id, lo, span);
  }

  class ApiKeyGate {
    var keyRequestCounters: map<string, Bucket>
    var apiKeys: map<string, ApiKey>  // by hashed key
    const sha256: string -> string

    constructor (sha256: string -> string, apiKeys: map<string, ApiKey>)
      ensures keyRequestCounters == BucketsAfter([], WINDOW_MS)
      ensures this.sha256 == sha256 && this.apiKeys == apiKeys
    {
      this.sha256 := sha256;
      this.apiKeys := apiKeys;
      keyRequestCounters := map[];
    }

    method RequireApiKey(authorization: Option<string>, xApiKey: Option<string>, requiredScope: Option<string>, now: int)
      returns (r: Result<ApiKey, Refusal>)
      modifies this`keyRequestCounters
      ensures var rawKey := PresentedKey(authorization, xApiKey);
              var key := if rawKey.Some? then Get(apiKeys, sha256(rawKey.value)) else None;
              match CountedAs(rawKey, key, requiredScope, now)
              case None =>
                && keyRequestCounters == old(keyRequestCounters)
                && (rawKey == None || rawKey == Some("") ==> r == Err(MissingKey))
                && (rawKey.Some? && rawKey != Some("") ==> r == Err(Guard(key, requiredScope, now).value))
              case Some(e) =>
                && keyRequestCounters == Handle(old(keyRequestCounters), e, WINDOW_MS)
                && r == if Admits(Get(old(keyRequestCounters), e.key), e.hit) then Ok(key.value) else Err(RateLimited)
      ensures var rawKey := PresentedKey(authorization, xApiKey);
              (r == Err(MissingKey) <==> rawKey.None? || rawKey.value == "")
      ensures r.Err? && r.error != RateLimited ==> keyRequestCounters == old(keyRequestCounters)
      ensures var rawKey := PresentedKey(authorization, xApiKey);
              rawKey.Some? && rawKey.value != "" ==>
                var hash := sha256(rawKey.value);
                && (r == Err(InvalidKey) <==> hash !in apiKeys || !apiKeys[hash].isActive)
                && (hash in apiKeys && apiKeys[hash].isActive ==>
                      var k := apiKeys[hash];
                      var expired := k.expiresAt.Some? && k.expiresAt.value < now;
                      var scoped := requiredScope.None? || "*" in k.scopes || requiredScope.value in k.scopes;
                      var passed := k.id !in old(keyRequestCounters) || old(keyRequestCounters)[k.id].resetTime < now;
                      && (r == Err(ExpiredKey) <==> expired)
                      && (r == Err(LacksScope) <==> !expired && !scoped)
                      && (r == Err(RateLimited) <==> !expired && scoped && !passed && k.rateLimit <= old(keyRequestCounters)[k.id].count)
                      && (r.Ok? ==> r.value == k)
                      && (r == Err(RateLimited) ==> keyRequestCounters == old(keyRequestCounters))
                      && (r.Ok? ==> keyRequestCounters == old(keyRequestCounters)[k.id :=
                            if passed then Bucket(1, now + 60000)
                            else Bucket(old(keyRequestCounters)[k.id].count + 1, old(keyRequestCounters)[k.id].resetTime)]))
    {
      var rawKey := PresentedKey(authorization, xApiKey);
      if rawKey.None? || rawKey.value == "" {
        return Err(MissingKey);
      }
      var hashedKey := sha256(rawKey.value);
      if hashedKey !in apiKeys || !apiKeys[hashedKey].isActive {
        return Err(InvalidKey);
      }
      var apiKey := apiKeys[hashedKey];
      if apiKey.expiresAt.Some? && apiKey.expiresAt.value < now {
        return Err(ExpiredKey);
      }
      if requiredScope.Some? && "*" !in apiKey.scopes && requiredScope.value !in apiKey.scopes {
        return Err(LacksScope);
      }
      if apiKey.id !in keyRequestCounters || now > keyRequestCounters[apiKey.id].resetTime {
        keyRequestCounters := keyRequestCounters[apiKey.id := Bucket(1, now + WINDOW_MS)];
      } else {
        var currentWindow := keyRequestCounters[apiKey.id];
        if currentWindow.count >= apiKey.rateLimit {
          return Err(RateLimited);
        }
        keyRequestCounters := keyRequestCounters[apiKey.id := currentWindow.(count := currentWindow.count + 1)];
      }
      return Ok(apiKey);
    }
  }
}
