/**
  Sessions with rotating refresh tokens, and password resets.

  New tokens are fresh values: `issued` remembers every token ever made. Operations that read before
  they write are split into a start and one or two commits, so a run may interleave them freely; a
  password reset commits the new password first and invalidates the sessions afterwards. A call that
  is served alone is the run of its steps (`Serve`).
 */
module Sessions {
  import opened Wrappers
  import opened Nigeria
  import Text

  type Token = nat

  const SESSION_MS := 7 * 24 * 60 * 60 * 1000
  const RESET_MS := 60 * 60 * 1000

  datatype Reset = Reset(token: Token, expiry: int)

  /** `phone` is held normalised. */
  datatype User = User(password: string, phone: Option<string>, isActive: bool, reset: Option<Reset>)

  datatype Session = Session(userId: string, token: Token, isValid: bool, expiresAt: int)

  datatype Tables = Tables(users: map<string, User>, sessions: seq<Session>, issued: set<Token>)

  // ---------- Reads ----------

  predicate PasswordAccepted(t: Tables, userId: string, password: string) {
    userId in t.users && t.users[userId].password == password && t.users[userId].isActive
  }

  predicate Usable(s: Session, token: Token, now: int) {
    s.token == token && s.isValid && !(s.expiresAt < now)
  }

  /** A refresh token is accepted when it is the current one of a valid, unexpired session. */
  predicate Accepts(t: Tables, token: Token, now: int) {
    exists i :: 0 <= i < |t.sessions| && Usable(t.sessions[i], token, now)
  }

  predicate Holds(t: Tables, userId: string, token: Token, now: int) {
    userId in t.users && t.users[userId].reset.Some?
    && t.users[userId].reset.value.token == token && t.users[userId].reset.value.expiry > now
  }

  /** A reset token is accepted when some user holds it, unexpired. */
  predicate AcceptsReset(t: Tables, token: Token, now: int) {
    exists userId :: userId in t.users && Holds(t, userId, token, now)
  }

  predicate PhoneTaken(users: map<string, User>, phone: Option<string>) {
    phone.Some? && exists userId :: userId in users && users[userId].phone == phone
  }

  // ---------- Writes ----------

  function AddUser(t: Tables, userId: string, password: string, phone: Option<string>): Tables {
    t.(users := t.users[userId := User(password, phone, true, None)])
  }

  function OpenSession(t: Tables, userId: string, token: Token, now: int): Tables {
    t.(sessions := t.sessions + [Session(userId, token, true, now + SESSION_MS)], issued := t.issued + {token})
  }

  /** Rotation writes by session id and looks neither at the old token nor at `isValid`. */
  function Rotate(t: Tables, id: nat, token: Token, now: int): Tables {
    if id < |t.sessions| then
      t.(sessions := t.sessions[id := t.sessions[id].(token := token, expiresAt := now + SESSION_MS)],
         issued := t.issued + {token})
    else t
  }

  function Invalidate(sessions: seq<Session>, hit: Session -> bool): (r: seq<Session>)
    ensures |r| == |sessions|
    ensures forall i :: 0 <= i < |r| ==>
              r[i] == if hit(sessions[i]) then sessions[i].(isValid := false) else sessions[i]
  {
    seq(|sessions|, i requires 0 <= i < |sessions| =>
      if hit(sessions[i]) then sessions[i].(isValid := false) else sessions[i])
  }

  function LogOut(t: Tables, token: Token): Tables {
    t.(sessions := Invalidate(t.sessions, (s: Session) => s.token == token))
  }

  function LogOutUser(t: Tables, userId: string): Tables {
    t.(sessions := Invalidate(t.sessions, (s: Session) => s.userId == userId))
  }

  function OfferReset(t: Tables, userId: string, token: Token, now: int): Tables {
    if userId in t.users then
      t.(users := t.users[userId := t.users[userId].(reset := Some(Reset(token, now + RESET_MS)))],
         issued := t.issued + {token})
    else t
  }

  function SetPassword(t: Tables, userId: string, password: string): Tables {
    if userId in t.users then t.(users := t.users[userId := t.users[userId].(password := password, reset := None)]) else t
  }

  /** A changed password leaves the reset token and the sessions alone. */
  function ChangePassword(t: Tables, userId: string, password: string): Tables {
    if userId in t.users then t.(users := t.users[userId := t.users[userId].(password := password)]) else t
  }

  // ---------- Worlds ----------

  datatype Pending =
    | LoggingIn(userId: string)
    | Refreshing(sessionId: nat)
    | Resetting(userId: string, token: Token, password: string)
    | ClearingSessions(userId: string)
    | Changing(userId: string, password: string)

  datatype World = World(tables: Tables, now: int, inFlight: seq<Pending>)

  /** `made` is the token the step makes, where it makes one. */
  datatype Step =
    | Tick(to: int)
    | Register(userId: string, password: string, phone: Option<string>)
    | StartLogin(userId: string, password: string)
    | StartRefresh(sessionId: nat, token: Token)
    | StartReset(userId: string, token: Token, password: string)
    | Finish(k: nat, made: Token)
    | Abandon(k: nat)
    | Logout(token: Token)
    | Forgot(userId: string, made: Token)
    | StartChange(userId: string, current: string, password: string)

  function Commit(w: World, k: nat, made: Token): World
    requires k < |w.inFlight|
  {
    var rest := Without(w.inFlight, k);
    match w.inFlight[k]
    case LoggingIn(userId) =>
      if made in w.tables.issued then w
      else w.(tables := OpenSession(w.tables, userId, made, w.now), inFlight := rest)
    case Refreshing(id) =>
      if made in w.tables.issued then w
      else w.(tables := Rotate(w.tables, id, made, w.now), inFlight := rest)
    case Resetting(userId, _, password) =>
      w.(tables := SetPassword(w.tables, userId, password), inFlight := rest + [ClearingSessions(userId)])
    case ClearingSessions(userId) =>
      w.(tables := LogOutUser(w.tables, userId), inFlight := rest)
    case Changing(userId, password) =>
      w.(tables := ChangePassword(w.tables, userId, password), inFlight := rest)
  }

  function Next(w: World, s: Step): World {
    match s
    case Tick(to) => if w.now <= to then w.(now := to) else w
    case Register(userId, password, phone) =>
      if userId in w.tables.users || PhoneTaken(w.tables.users, phone) then w
      else w.(tables := AddUser(w.tables, userId, password, phone), inFlight := w.inFlight + [LoggingIn(userId)])
    case StartLogin(userId, password) =>
      if PasswordAccepted(w.tables, userId, password) then w.(inFlight := w.inFlight + [LoggingIn(userId)]) else w
    case StartRefresh(id, token) =>
      if id < |w.tables.sessions| && Usable(w.tables.sessions[id], token, w.now) then
        w.(inFlight := w.inFlight + [Refreshing(id)])
      else w
    case StartReset(userId, token, password) =>
      if Holds(w.tables, userId, token, w.now) then w.(inFlight := w.inFlight + [Resetting(userId, token, password)])
      else w
    case Finish(k, made) => if k < |w.inFlight| then Commit(w, k, made) else w
    case Abandon(k) => if k < |w.inFlight| then w.(inFlight := Without(w.inFlight, k)) else w
    case Logout(token) => w.(tables := LogOut(w.tables, token))
    case Forgot(userId, made) =>
      if made in w.tables.issued then w else w.(tables := OfferReset(w.tables, userId, made, w.now))
    case StartChange(userId, current, password) =>
      if userId in w.tables.users && w.tables.users[userId].password == current then
        w.(inFlight := w.inFlight + [Changing(userId, password)])
      else w
  }

  function Run(w: World, steps: seq<Step>): World {
    if steps == [] then w else Next(Run(w, steps[..|steps| - 1]), steps[|steps| - 1])
  }

  // ---------- What every interleaving keeps ----------

  ghost predicate SessionTokensApart(t: Tables) {
    && (forall i :: 0 <= i < |t.sessions| ==> t.sessions[i].token in t.issued)
    && (forall i, j :: 0 <= i < j < |t.sessions| ==> t.sessions[i].token != t.sessions[j].token)
  }

  ghost predicate ResetTokensApart(t: Tables) {
    && (forall u :: u in t.users && t.users[u].reset.Some? ==> t.users[u].reset.value.token in t.issued)
    && (forall u, v :: u in t.users && v in t.users && u != v && t.users[u].reset.Some? && t.users[v].reset.Some? ==>
                         t.users[u].reset.value.token != t.users[v].reset.value.token)
  }

  /** Each token is the current token of at most one session, or the reset token of at most one user. */
  ghost predicate Sound(t: Tables) { SessionTokensApart(t) && ResetTokensApart(t) }

  lemma NextKeepsSessionTokens(w: World, s: Step)
    requires SessionTokensApart(w.tables)
    ensures SessionTokensApart(Next(w, s).tables)
  {
  }

  lemma NextKeepsResetTokens(w: World, s: Step)
    requires ResetTokensApart(w.tables)
    ensures ResetTokensApart(Next(w, s).tables)
  {
  }

  lemma NextKeepsSound(w: World, s: Step)
    requires Sound(w.tables)
    ensures Sound(Next(w, s).tables)
  {
    NextKeepsSessionTokens(w, s);
    NextKeepsResetTokens(w, s);
  }

  /** Sessions are only added, keep their user, and once invalid stay invalid; tokens stay issued. */
  ghost predicate Extends(t: Tables, t': Tables) {
    && t.issued <= t'.issued
    && |t.sessions| <= |t'.sessions|
    && forall i :: 0 <= i < |t.sessions| ==>
         && t'.sessions[i].userId == t.sessions[i].userId
         && (!t.sessions[i].isValid ==> !t'.sessions[i].isValid)
  }

  lemma NextExtends(w: World, s: Step)
    ensures Extends(w.tables, Next(w, s).tables)
  {
  }

  /** An invalidated session is never valid again, even if a refresh in flight commits later. */
  lemma {:induction false} InvalidStaysInvalid(w: World, steps: seq<Step>)
    requires Sound(w.tables)
    ensures Sound(Run(w, steps).tables) && Extends(w.tables, Run(w, steps).tables)
  {
    if steps != [] {
      var before := Run(w, steps[..|steps| - 1]);
      InvalidStaysInvalid(w, steps[..|steps| - 1]);
      NextKeepsSound(before, steps[|steps| - 1]);
      NextExtends(before, steps[|steps| - 1]);
    }
  }

  /** A token that was issued and is the current token of no valid session. */
  ghost predicate Dead(t: Tables, token: Token) {
    token in t.issued && forall i :: 0 <= i < |t.sessions| && t.sessions[i].token == token ==> !t.sessions[i].isValid
  }

  lemma NextKeepsDead(w: World, s: Step, token: Token)
    requires Sound(w.tables) && Dead(w.tables, token)
    ensures Dead(Next(w, s).tables, token)
  {
  }

  /** A dead token is never accepted again, whatever interleaving follows. */
  lemma {:induction false} DeadTokensAreNeverAccepted(w: World, steps: seq<Step>, token: Token)
    requires Sound(w.tables) && Dead(w.tables, token)
    ensures Dead(Run(w, steps).tables, token)
    ensures forall now :: !Accepts(Run(w, steps).tables, token, now)
  {
    if steps != [] {
      var before := Run(w, steps[..|steps| - 1]);
      DeadTokensAreNeverAccepted(w, steps[..|steps| - 1], token);
      InvalidStaysInvalid(w, steps[..|steps| - 1]);
      NextKeepsDead(before, steps[|steps| - 1], token);
    }
  }

  /** The token that a refresh rotates away is never accepted again once the rotation is committed. */
  lemma RotatedTokenIsNeverAccepted(w: World, k: nat, made: Token, steps: seq<Step>, now: int)
    requires Sound(w.tables) && k < |w.inFlight| && w.inFlight[k].Refreshing? && made !in w.tables.issued
    requires w.inFlight[k].sessionId < |w.tables.sessions|
    ensures !Accepts(Run(Next(w, Finish(k, made)), steps).tables, w.tables.sessions[w.inFlight[k].sessionId].token, now)
  {
    var w' := Next(w, Finish(k, made));
    NextKeepsSound(w, Finish(k, made));
    DeadTokensAreNeverAccepted(w', steps, w.tables.sessions[w.inFlight[k].sessionId].token);
  }

  /** A token that was logged out is never accepted again. */
  lemma LoggedOutTokenIsNeverAccepted(w: World, token: Token, steps: seq<Step>, now: int)
    requires Sound(w.tables) && token in w.tables.issued
    ensures !Accepts(Run(Next(w, Logout(token)), steps).tables, token, now)
  {
    NextKeepsSound(w, Logout(token));
    DeadTokensAreNeverAccepted(Next(w, Logout(token)), steps, token);
  }

  /** Once a reset has cleared its user's sessions, no token any of them holds is accepted again. */
  lemma ResetEndsEverySession(w: World, k: nat, made: Token, i: nat, steps: seq<Step>, now: int)
    requires Sound(w.tables) && k < |w.inFlight| && w.inFlight[k].ClearingSessions?
    requires i < |w.tables.sessions| && w.tables.sessions[i].userId == w.inFlight[k].userId
    ensures var after := Run(Next(w, Finish(k, made)), steps).tables;
            && !Accepts(after, w.tables.sessions[i].token, now)
            && i < |after.sessions| && !after.sessions[i].isValid
  {
    var w' := Next(w, Finish(k, made));
    NextKeepsSound(w, Finish(k, made));
    DeadTokensAreNeverAccepted(w', steps, w.tables.sessions[i].token);
    InvalidStaysInvalid(w', steps);
  }

  /** A reset token that was issued and that no user holds. */
  ghost predicate Spent(t: Tables, token: Token) {
    token in t.issued && forall u :: u in t.users && t.users[u].reset.Some? ==> t.users[u].reset.value.token != token
  }

  lemma NextKeepsSpent(w: World, s: Step, token: Token)
    requires Spent(w.tables, token)
    ensures Spent(Next(w, s).tables, token)
  {
  }

  lemma {:induction false} SpentResetsAreNeverAccepted(w: World, steps: seq<Step>, token: Token)
    requires Spent(w.tables, token)
    ensures Spent(Run(w, steps).tables, token)
    ensures forall now :: !AcceptsReset(Run(w, steps).tables, token, now)
  {
    if steps != [] {
      SpentResetsAreNeverAccepted(w, steps[..|steps| - 1], token);
      NextKeepsSpent(Run(w, steps[..|steps| - 1]), steps[|steps| - 1], token);
    }
  }

  /** Committing a reset spends the token that its user holds at that moment, for good. */
  lemma ResetTokenWorksNoMore(w: World, k: nat, made: Token, steps: seq<Step>, now: int)
    requires Sound(w.tables) && k < |w.inFlight| && w.inFlight[k].Resetting?
    requires w.inFlight[k].userId in w.tables.users && w.tables.users[w.inFlight[k].userId].reset.Some?
    ensures !AcceptsReset(Run(Next(w, Finish(k, made)), steps).tables,
                          w.tables.users[w.inFlight[k].userId].reset.value.token, now)
  {
    SpentResetsAreNeverAccepted(Next(w, Finish(k, made)), steps, w.tables.users[w.inFlight[k].userId].reset.value.token);
  }

  /** Asking for a new reset token spends the one issued before: only the latest works. */
  lemma OnlyTheLatestResetWorks(w: World, userId: string, made: Token, steps: seq<Step>, now: int)
    requires Sound(w.tables) && made !in w.tables.issued
    requires userId in w.tables.users && w.tables.users[userId].reset.Some?
    ensures AcceptsReset(Next(w, Forgot(userId, made)).tables, made, w.now)
    ensures !AcceptsReset(Run(Next(w, Forgot(userId, made)), steps).tables, w.tables.users[userId].reset.value.token, now)
  {
    assert Holds(Next(w, Forgot(userId, made)).tables, userId, made, w.now);
    SpentResetsAreNeverAccepted(Next(w, Forgot(userId, made)), steps, w.tables.users[userId].reset.value.token);
  }

  // ---------- Phones ----------

  ghost predicate PhonesApart(t: Tables) {
    forall u, v :: u in t.users && v in t.users && u != v && t.users[u].phone.Some? ==> t.users[u].phone != t.users[v].phone
  }

  lemma NextKeepsPhonesApart(w: World, s: Step)
    requires PhonesApart(w.tables)
    ensures PhonesApart(Next(w, s).tables)
  {
  }

  /** In every interleaving a phone number belongs to at most one user. */
  lemma {:induction false} EveryPhoneOnce(w: World, steps: seq<Step>)
    requires PhonesApart(w.tables)
    ensures PhonesApart(Run(w, steps).tables)
  {
    if steps != [] {
      EveryPhoneOnce(w, steps[..|steps| - 1]);
      NextKeepsPhonesApart(Run(w, steps[..|steps| - 1]), steps[|steps| - 1]);
    }
  }

  /** A number that is taken cannot be registered again in another of its spellings. */
  lemma RespelledPhoneIsRefused(w: World, owner: string, newcomer: Step, local: string, national: string, e164: string,
                                number: string)
    requires |number| == 10 && Text.AllDigits(number)
    requires Text.Keep(local, NotPunctuation) == "0" + number
    requires Text.Keep(national, NotPunctuation) == "234" + number
    requires Text.Keep(e164, NotPunctuation) == "+234" + number
    requires owner in w.tables.users && w.tables.users[owner].phone == Some(NormalizePhoneNumber(local))
    requires newcomer.Register? && newcomer.phone in {Some(NormalizePhoneNumber(national)), Some(NormalizePhoneNumber(e164))}
    ensures Next(w, newcomer) == w
  {
    SpellingsAgree(local, national, e164, number);
  }

  // ---------- When a reset token works again ----------

  /** The step takes the reset token from its user, by using one up or by issuing a new one. */
  ghost predicate Replaces(w: World, s: Step, userId: string) {
    || (s.Finish? && s.k < |w.inFlight| && w.inFlight[s.k].Resetting? && w.inFlight[s.k].userId == userId)
    || (s.Forgot? && s.userId == userId && s.made !in w.tables.issued)
  }

  ghost predicate Replaced(w: World, steps: seq<Step>, userId: string) {
    exists n :: 0 <= n < |steps| && Replaces(Run(w, steps[..n]), steps[n], userId)
  }

  lemma ReplacedByLast(w: World, steps: seq<Step>, userId: string)
    requires steps != []
    ensures var init, last := steps[..|steps| - 1], steps[|steps| - 1];
            Replaced(w, steps, userId) <==> Replaced(w, init, userId) || Replaces(Run(w, init), last, userId)
  {
    var init := steps[..|steps| - 1];
    assert forall n :: 0 <= n <= |init| ==> steps[..n] == init[..n];
    assert init[..|init|] == init;
    if Replaced(w, init, userId) {
      var n :| 0 <= n < |init| && Replaces(Run(w, init[..n]), init[n], userId);
      assert Replaces(Run(w, steps[..n]), steps[n], userId);
    }
    if Replaces(Run(w, init), steps[|init|], userId) { assert Replaces(Run(w, steps[..|init|]), steps[|init|], userId); }
  }

  lemma ReplacingStep(w: World, s: Step, userId: string, reset: Reset)
    requires Sound(w.tables) && userId in w.tables.users && w.tables.users[userId].reset == Some(reset)
    ensures userId in Next(w, s).tables.users
    ensures if Replaces(w, s, userId) then Spent(Next(w, s).tables, reset.token)
            else Next(w, s).tables.users[userId].reset == Some(reset)
  {
  }

  lemma {:induction false} KeptUnlessReplaced(w: World, steps: seq<Step>, userId: string, reset: Reset)
    requires Sound(w.tables) && userId in w.tables.users && w.tables.users[userId].reset == Some(reset)
    ensures Sound(Run(w, steps).tables) && userId in Run(w, steps).tables.users
    ensures if Replaced(w, steps, userId) then Spent(Run(w, steps).tables, reset.token)
            else Run(w, steps).tables.users[userId].reset == Some(reset)
  {
    if steps != [] {
      var init, s := steps[..|steps| - 1], steps[|steps| - 1];
      KeptUnlessReplaced(w, init, userId, reset);
      ReplacedByLast(w, steps, userId);
      NextKeepsSound(Run(w, init), s);
      UsersStay(Run(w, init), s, userId);
      if Replaced(w, init, userId) {
        NextKeepsSpent(Run(w, init), s, reset.token);
      } else {
        ReplacingStep(Run(w, init), s, userId, reset);
      }
    }
  }

  lemma UsersStay(w: World, s: Step, userId: string)
    requires userId in w.tables.users
    ensures userId in Next(w, s).tables.users
  {
  }

  /**
    A reset token that was read is accepted once more, after any steps, exactly when no reset of its
    user has been committed, no newer token was issued to that user, and it has not expired.
   */
  lemma ResetTokenWorksAgainExactlyWhen(w: World, steps: seq<Step>, userId: string, token: Token, password: string)
    requires Sound(w.tables) && Holds(w.tables, userId, token, w.now)
    ensures var w' := Run(w, steps);
            Next(w', StartReset(userId, token, password)) != w'
            <==> !Replaced(w, steps, userId) && w'.now < w.tables.users[userId].reset.value.expiry
  {
    KeptUnlessReplaced(w, steps, userId, w.tables.users[userId].reset.value);
  }

  lemma RunOne(w: World, s: Step)
    ensures Run(w, [s]) == Next(w, s)
  {
    assert [s][..0] == [];
    assert Run(w, []) == w;
  }

  lemma RunTwo(w: World, a: Step, b: Step)
    ensures Run(w, [a, b]) == Next(Next(w, a), b)
  {
    assert [a, b][..1] == [a];
    RunOne(w, a);
  }

  lemma RunThree(w: World, a: Step, b: Step, c: Step)
    ensures Run(w, [a, b, c]) == Next(Next(Next(w, a), b), c)
  {
    assert [a, b, c][..2] == [a, b];
    RunTwo(w, a, b);
  }

  /** Two requests that present one token before either commits both set a password with it. */
  lemma ResetTokenReadTwice(w: World, userId: string, token: Token, mine: string, theirs: string)
    requires Holds(w.tables, userId, token, w.now)
    ensures var n := |w.inFlight|;
            var first := Run(w, [StartReset(userId, token, mine), StartReset(userId, token, theirs), Finish(n, 0)]);
            && userId in first.tables.users && first.tables.users[userId].password == mine
            && n < |first.inFlight| && first.inFlight[n] == Resetting(userId, token, theirs)
            && userId in Next(first, Finish(n, 0)).tables.users
            && Next(first, Finish(n, 0)).tables.users[userId].password == theirs
  {
    var n := |w.inFlight|;
    RunThree(w, StartReset(userId, token, mine), StartReset(userId, token, theirs), Finish(n, 0));
    var read := Next(Next(w, StartReset(userId, token, mine)), StartReset(userId, token, theirs));
    assert read.inFlight[n] == Resetting(userId, token, mine) && read.inFlight[n + 1] == Resetting(userId, token, theirs);
  }

  // ---------- When a refresh token works again ----------

  /** The step ends the session's current token: it rotates it, logs it out, or clears its user's sessions. */
  ghost predicate EndsToken(w: World, s: Step, id: nat)
    requires id < |w.tables.sessions|
  {
    var session := w.tables.sessions[id];
    || (s.Logout? && s.token == session.token)
    || (s.Finish? && s.k < |w.inFlight|
        && match w.inFlight[s.k]
           case Refreshing(other) => other == id && s.made !in w.tables.issued
           case ClearingSessions(userId) => userId == session.userId
           case _ => false)
  }

  ghost predicate Ended(w: World, steps: seq<Step>, id: nat) {
    exists n :: && 0 <= n < |steps| && id < |Run(w, steps[..n]).tables.sessions|
                && EndsToken(Run(w, steps[..n]), steps[n], id)
  }

  lemma EndedByLast(w: World, steps: seq<Step>, id: nat)
    requires steps != [] && id < |Run(w, steps[..|steps| - 1]).tables.sessions|
    ensures var init, last := steps[..|steps| - 1], steps[|steps| - 1];
            Ended(w, steps, id) <==> Ended(w, init, id) || EndsToken(Run(w, init), last, id)
  {
    var init := steps[..|steps| - 1];
    assert forall n :: 0 <= n <= |init| ==> steps[..n] == init[..n];
    assert init[..|init|] == init;
    if Ended(w, init, id) {
      var n :| 0 <= n < |init| && id < |Run(w, init[..n]).tables.sessions| && EndsToken(Run(w, init[..n]), init[n], id);
      assert EndsToken(Run(w, steps[..n]), steps[n], id);
    }
    if EndsToken(Run(w, init), steps[|init|], id) { assert EndsToken(Run(w, steps[..|init|]), steps[|init|], id); }
  }

  lemma EndingStep(w: World, s: Step, id: nat)
    requires Sound(w.tables) && id < |w.tables.sessions| && w.tables.sessions[id].isValid
    ensures id < |Next(w, s).tables.sessions|
    ensures if EndsToken(w, s, id) then Dead(Next(w, s).tables, w.tables.sessions[id].token)
            else Next(w, s).tables.sessions[id] == w.tables.sessions[id]
  {
  }

  lemma {:induction false} KeptUnlessEnded(w: World, steps: seq<Step>, id: nat)
    requires Sound(w.tables) && id < |w.tables.sessions| && w.tables.sessions[id].isValid
    ensures Sound(Run(w, steps).tables) && id < |Run(w, steps).tables.sessions|
    ensures if Ended(w, steps, id) then Dead(Run(w, steps).tables, w.tables.sessions[id].token)
            else Run(w, steps).tables.sessions[id] == w.tables.sessions[id]
  {
    if steps != [] {
      var init, s := steps[..|steps| - 1], steps[|steps| - 1];
      KeptUnlessEnded(w, init, id);
      EndedByLast(w, steps, id);
      NextKeepsSound(Run(w, init), s);
      NextExtends(Run(w, init), s);
      if Ended(w, init, id) {
        NextKeepsDead(Run(w, init), s, w.tables.sessions[id].token);
      } else {
        EndingStep(Run(w, init), s, id);
      }
    }
  }

  /**
    A refresh token that was read is accepted once more, after any steps, exactly when no rotation of
    its session was committed, it was not logged out, its user's sessions were not cleared, and the
    session has not expired.
   */
  lemma RefreshTokenWorksAgainExactlyWhen(w: World, steps: seq<Step>, id: nat, token: Token)
    requires Sound(w.tables) && id < |w.tables.sessions| && Usable(w.tables.sessions[id], token, w.now)
    ensures Accepts(Run(w, steps).tables, token, Run(w, steps).now)
       <==> !Ended(w, steps, id) && !(w.tables.sessions[id].expiresAt < Run(w, steps).now)
  {
    var t, now := Run(w, steps).tables, Run(w, steps).now;
    KeptUnlessEnded(w, steps, id);
    if !Ended(w, steps, id) {
      assert t.sessions[id].token == token;
      if Accepts(t, token, now) {
        var i: nat :| i < |t.sessions| && Usable(t.sessions[i], token, now);
        assert i == id;
      }
      if !(w.tables.sessions[id].expiresAt < now) { assert Usable(t.sessions[id], token, now); }
    }
  }

  /** Two refreshes that read one token before either commits are both served; only the later one's token lasts. */
  lemma RefreshTokenReadTwice(w: World, id: nat, token: Token, mine: Token, theirs: Token)
    requires Sound(w.tables) && id < |w.tables.sessions| && Usable(w.tables.sessions[id], token, w.now)
    requires mine !in w.tables.issued && theirs !in w.tables.issued && mine != theirs
    ensures var n := |w.inFlight|;
            var first := Run(w, [StartRefresh(id, token), StartRefresh(id, token), Finish(n, mine)]);
            var second := Next(first, Finish(n, theirs));
            && Accepts(first.tables, mine, w.now) && Accepts(second.tables, theirs, w.now) && Dead(second.tables, mine)
  {
    var n := |w.inFlight|;
    var read := Next(Next(w, StartRefresh(id, token)), StartRefresh(id, token));
    RunThree(w, StartRefresh(id, token), StartRefresh(id, token), Finish(n, mine));
    assert read.inFlight[n] == Refreshing(id) && read.inFlight[n + 1] == Refreshing(id);
    var first := Next(read, Finish(n, mine));
    assert first.inFlight[n] == Refreshing(id);
    assert first.tables == Rotate(w.tables, id, mine, w.now);
    var second := Next(first, Finish(n, theirs));
    assert Usable(first.tables.sessions[id], mine, w.now) && Usable(second.tables.sessions[id], theirs, w.now);
  }

  // ---------- When an old login outlives a reset ----------

  ghost predicate HasValidSession(t: Tables, userId: string) {
    exists i :: 0 <= i < |t.sessions| && t.sessions[i].userId == userId && t.sessions[i].isValid
  }

  ghost predicate LoginUnderWay(w: World, userId: string) {
    exists k :: 0 <= k < |w.inFlight| && w.inFlight[k] == LoggingIn(userId)
  }

  /** No step starts another login of the user, by password or by registration. */
  ghost predicate NoNewLogin(steps: seq<Step>, userId: string) {
    forall n :: 0 <= n < |steps| ==> (steps[n].StartLogin? || steps[n].Register? ==> steps[n].userId != userId)
  }

  /** Some run gives the user a valid session without a new login. */
  ghost predicate MayReopen(w: World, userId: string) {
    exists steps :: NoNewLogin(steps, userId) && HasValidSession(Run(w, steps).tables, userId)
  }

  lemma ClosedStep(w: World, s: Step, userId: string)
    requires !HasValidSession(w.tables, userId) && !LoginUnderWay(w, userId)
    requires s.StartLogin? || s.Register? ==> s.userId != userId
    ensures !HasValidSession(Next(w, s).tables, userId) && !LoginUnderWay(Next(w, s), userId)
  {
    if (s.Finish? || s.Abandon?) && s.k < |w.inFlight| {
      assert forall j :: 0 <= j < |w.inFlight| - 1 ==>
        Without(w.inFlight, s.k)[j] == w.inFlight[if j < s.k then j else j + 1];
    }
  }

  lemma {:induction false} ClosedStaysClosed(w: World, steps: seq<Step>, userId: string)
    requires !HasValidSession(w.tables, userId) && !LoginUnderWay(w, userId) && NoNewLogin(steps, userId)
    ensures !HasValidSession(Run(w, steps).tables, userId) && !LoginUnderWay(Run(w, steps), userId)
  {
    if steps != [] {
      ClosedStaysClosed(w, steps[..|steps| - 1], userId);
      ClosedStep(Run(w, steps[..|steps| - 1]), steps[|steps| - 1], userId);
    }
  }

  lemma {:induction false} FreshToken(issued: set<Token>) returns (made: Token)
    ensures forall x :: x in issued ==> x < made
  {
    if issued == {} {
      made := 0;
    } else {
      var x :| x in issued;
      var rest := FreshToken(issued - {x});
      made := if x < rest then rest else x + 1;
      assert forall y :: y in issued ==> y == x || y in issued - {x};
    }
  }

  /**
    A user without a valid session gets one without a new login, in some run, exactly when a login of
    that user is under way.
   */
  lemma ReopenedExactlyWhenLoginUnderWay(w: World, userId: string)
    requires !HasValidSession(w.tables, userId)
    ensures MayReopen(w, userId) <==> LoginUnderWay(w, userId)
  {
    if LoginUnderWay(w, userId) {
      var k: nat :| k < |w.inFlight| && w.inFlight[k] == LoggingIn(userId);
      var made := FreshToken(w.tables.issued);
      var w' := Next(w, Finish(k, made));
      assert w'.tables.sessions[|w.tables.sessions|] == Session(userId, made, true, w.now + SESSION_MS);
      RunOne(w, Finish(k, made));
      assert NoNewLogin([Finish(k, made)], userId);
    } else if MayReopen(w, userId) {
      var steps :| NoNewLogin(steps, userId) && HasValidSession(Run(w, steps).tables, userId);
      ClosedStaysClosed(w, steps, userId);
    }
  }

  // ---------- When a password is overwritten by an older request ----------

  ghost predicate SetsPassword(p: Pending, userId: string, password: string) {
    match p
    case Resetting(u, _, q) => u == userId && q == password
    case Changing(u, q) => u == userId && q == password
    case _ => false
  }

  /** A change or a reset of the user's password to another one is between its check and its write. */
  ghost predicate OverwriteUnderWay(w: World, userId: string, password: string) {
    exists k, other :: 0 <= k < |w.inFlight| && SetsPassword(w.inFlight[k], userId, other) && other != password
  }

  ghost predicate NoNewPassword(steps: seq<Step>, userId: string) {
    forall n :: 0 <= n < |steps| ==> (steps[n].StartChange? || steps[n].StartReset? ==> steps[n].userId != userId)
  }

  ghost predicate HasPassword(t: Tables, userId: string, password: string) {
    userId in t.users && t.users[userId].password == password
  }

  /** Some run takes the user's password away although nobody asks for a change any more. */
  ghost predicate MayBeOverwritten(w: World, userId: string, password: string) {
    exists steps :: NoNewPassword(steps, userId) && !HasPassword(Run(w, steps).tables, userId, password)
  }

  lemma PasswordKept(w: World, s: Step, userId: string, password: string)
    requires HasPassword(w.tables, userId, password) && !OverwriteUnderWay(w, userId, password)
    ensures HasPassword(Next(w, s).tables, userId, password)
  {
    if s.Finish? && s.k < |w.inFlight| && (w.inFlight[s.k].Resetting? || w.inFlight[s.k].Changing?) {
      assert SetsPassword(w.inFlight[s.k], w.inFlight[s.k].userId, w.inFlight[s.k].password);
    }
  }

  lemma NoOverwriteStarted(w: World, s: Step, userId: string, password: string)
    requires !OverwriteUnderWay(w, userId, password)
    requires s.StartChange? || s.StartReset? ==> s.userId != userId
    ensures !OverwriteUnderWay(Next(w, s), userId, password)
  {
    if (s.Finish? || s.Abandon?) && s.k < |w.inFlight| {
      assert forall j :: 0 <= j < |w.inFlight| - 1 ==>
        Without(w.inFlight, s.k)[j] == w.inFlight[if j < s.k then j else j + 1];
    }
  }

  lemma PasswordStep(w: World, s: Step, userId: string, password: string)
    requires HasPassword(w.tables, userId, password) && !OverwriteUnderWay(w, userId, password)
    requires s.StartChange? || s.StartReset? ==> s.userId != userId
    ensures HasPassword(Next(w, s).tables, userId, password) && !OverwriteUnderWay(Next(w, s), userId, password)
  {
    PasswordKept(w, s, userId, password);
    NoOverwriteStarted(w, s, userId, password);
  }

  lemma {:induction false} PasswordStays(w: World, steps: seq<Step>, userId: string, password: string)
    requires HasPassword(w.tables, userId, password) && !OverwriteUnderWay(w, userId, password)
    requires NoNewPassword(steps, userId)
    ensures HasPassword(Run(w, steps).tables, userId, password) && !OverwriteUnderWay(Run(w, steps), userId, password)
  {
    if steps != [] {
      PasswordStays(w, steps[..|steps| - 1], userId, password);
      PasswordStep(Run(w, steps[..|steps| - 1]), steps[|steps| - 1], userId, password);
    }
  }

  /**
    A password in force, as one just set by a reset, is lost without any new request exactly when a
    change or reset to another one is under way.
   */
  lemma OverwrittenExactlyWhenUnderWay(w: World, userId: string, password: string)
    requires HasPassword(w.tables, userId, password)
    ensures MayBeOverwritten(w, userId, password) <==> OverwriteUnderWay(w, userId, password)
  {
    if OverwriteUnderWay(w, userId, password) {
      var k: nat, other :| k < |w.inFlight| && SetsPassword(w.inFlight[k], userId, other) && other != password;
      RunOne(w, Finish(k, 0));
      assert HasPassword(Next(w, Finish(k, 0)).tables, userId, other);
      assert NoNewPassword([Finish(k, 0)], userId) && !HasPassword(Run(w, [Finish(k, 0)]).tables, userId, password);
    } else if MayBeOverwritten(w, userId, password) {
      var steps :| NoNewPassword(steps, userId) && !HasPassword(Run(w, steps).tables, userId, password);
      PasswordStays(w, steps, userId, password);
    }
  }

  // ---------- When a reset locks out whoever does not know the new password ----------

  /** Nobody logs in or changes the password with `password`, and nobody registers or resets the user. */
  ghost predicate WithoutPassword(steps: seq<Step>, userId: string, password: string) {
    forall n :: 0 <= n < |steps| ==> IsOutsiders(steps[n], userId, password)
  }

  predicate IsOutsiders(s: Step, userId: string, password: string) {
    match s
    case StartLogin(u, presented) => u != userId || presented != password
    case StartChange(u, current, _) => u != userId || current != password
    case Register(u, _, _) => u != userId
    case StartReset(u, _, _) => u != userId
    case _ => true
  }

  /** Some run in which nobody presents the password opens a valid session all the same. */
  ghost predicate LetsIn(w: World, userId: string, password: string) {
    exists steps :: WithoutPassword(steps, userId, password) && HasValidSession(Run(w, steps).tables, userId)
  }

  /** The password holds, no session is valid, and nothing under way will change either. */
  ghost predicate LockedOut(w: World, userId: string, password: string) {
    && HasPassword(w.tables, userId, password) && !OverwriteUnderWay(w, userId, password)
    && !HasValidSession(w.tables, userId) && !LoginUnderWay(w, userId)
  }

  lemma LockedOutStep(w: World, s: Step, userId: string, password: string)
    requires LockedOut(w, userId, password) && IsOutsiders(s, userId, password)
    ensures LockedOut(Next(w, s), userId, password)
  {
    if (s.StartLogin? || s.StartChange?) && s.userId == userId {
      assert Next(w, s) == w;
    } else {
      PasswordStep(w, s, userId, password);
      ClosedStep(w, s, userId);
    }
  }

  lemma {:induction false} LockedOutStays(w: World, steps: seq<Step>, userId: string, password: string)
    requires LockedOut(w, userId, password) && WithoutPassword(steps, userId, password)
    ensures LockedOut(Run(w, steps), userId, password)
  {
    if steps != [] {
      LockedOutStays(w, steps[..|steps| - 1], userId, password);
      LockedOutStep(Run(w, steps[..|steps| - 1]), steps[|steps| - 1], userId, password);
    }
  }

  lemma LoginLetsIn(w: World, userId: string, password: string)
    requires LoginUnderWay(w, userId)
    ensures LetsIn(w, userId, password)
  {
    var k: nat :| k < |w.inFlight| && w.inFlight[k] == LoggingIn(userId);
    var made := FreshToken(w.tables.issued);
    var w' := Next(w, Finish(k, made));
    assert w'.tables.sessions[|w.tables.sessions|] == Session(userId, made, true, w.now + SESSION_MS);
    RunOne(w, Finish(k, made));
    assert WithoutPassword([Finish(k, made)], userId, password);
  }

  /** The other password is committed, and whoever chose it logs in with it. */
  lemma OverwriteLetsIn(w: World, userId: string, password: string)
    requires PasswordAccepted(w.tables, userId, password) && OverwriteUnderWay(w, userId, password)
    ensures LetsIn(w, userId, password)
  {
    var k: nat, other :| k < |w.inFlight| && SetsPassword(w.inFlight[k], userId, other) && other != password;
    var made := FreshToken(w.tables.issued);
    var w1 := Next(w, Finish(k, 0));
    assert PasswordAccepted(w1.tables, userId, other);
    var n := |w1.inFlight|;
    var w2 := Next(w1, StartLogin(userId, other));
    assert w2.inFlight[n] == LoggingIn(userId) && w2.tables.issued == w.tables.issued;
    var w3 := Next(w2, Finish(n, made));
    assert w3.tables.sessions[|w2.tables.sessions|] == Session(userId, made, true, w2.now + SESSION_MS);
    RunThree(w, Finish(k, 0), StartLogin(userId, other), Finish(n, made));
    assert WithoutPassword([Finish(k, 0), StartLogin(userId, other), Finish(n, made)], userId, password);
  }

  /**
    Whoever does not know the password of an active user without a valid session gets in, in some
    run, exactly when a login is under way or another password is about to be written.
   */
  lemma LetsInExactlyWhen(w: World, userId: string, password: string)
    requires PasswordAccepted(w.tables, userId, password) && !HasValidSession(w.tables, userId)
    ensures LetsIn(w, userId, password) <==> LoginUnderWay(w, userId) || OverwriteUnderWay(w, userId, password)
  {
    if LoginUnderWay(w, userId) {
      LoginLetsIn(w, userId, password);
    } else if OverwriteUnderWay(w, userId, password) {
      OverwriteLetsIn(w, userId, password);
    } else if LetsIn(w, userId, password) {
      var steps :| WithoutPassword(steps, userId, password) && HasValidSession(Run(w, steps).tables, userId);
      LockedOutStays(w, steps, userId, password);
    }
  }

  /**
    A password reset locks out everybody who knew only the old password exactly when, at the moment
    it clears the sessions, no login of the user is under way and no other password is about to be
    written; the sessions themselves stay closed exactly when no login is under way.
   */
  lemma ResetLocksOutExactlyWhen(w: World, k: nat, made: Token, password: string)
    requires k < |w.inFlight| && w.inFlight[k].ClearingSessions?
    ensures var userId, cleared := w.inFlight[k].userId, Next(w, Finish(k, made));
            && !HasValidSession(cleared.tables, userId)
            && (MayReopen(cleared, userId) <==> LoginUnderWay(w, userId))
            && (PasswordAccepted(w.tables, userId, password) ==>
                  (LetsIn(cleared, userId, password)
                   <==> LoginUnderWay(w, userId) || OverwriteUnderWay(w, userId, password)))
  {
    var userId, cleared := w.inFlight[k].userId, Next(w, Finish(k, made));
    ReopenedExactlyWhenLoginUnderWay(cleared, userId);
    ClearingLeavesOthersUnderWay(w, k, made, password);
    if PasswordAccepted(w.tables, userId, password) { LetsInExactlyWhen(cleared, userId, password); }
  }

  lemma ClearingLeavesOthersUnderWay(w: World, k: nat, made: Token, password: string)
    requires k < |w.inFlight| && w.inFlight[k].ClearingSessions?
    ensures var userId, cleared := w.inFlight[k].userId, Next(w, Finish(k, made));
            && (LoginUnderWay(cleared, userId) <==> LoginUnderWay(w, userId))
            && (OverwriteUnderWay(cleared, userId, password) <==> OverwriteUnderWay(w, userId, password))
  {
    var userId, cleared := w.inFlight[k].userId, Next(w, Finish(k, made));
    if LoginUnderWay(w, userId) {
      var j :| 0 <= j < |w.inFlight| && w.inFlight[j] == LoggingIn(userId);
      assert cleared.inFlight[if j < k then j else j - 1] == LoggingIn(userId);
    }
    if OverwriteUnderWay(w, userId, password) {
      var j, other :| 0 <= j < |w.inFlight| && SetsPassword(w.inFlight[j], userId, other) && other != password;
      assert SetsPassword(cleared.inFlight[if j < k then j else j - 1], userId, other);
    }
  }

  /** A login that checked the old password opens a valid session after the reset is complete. */
  lemma LoginSurvivesAReset(w: World, steps: seq<Step>)
    requires w == World(Tables(map["u" := User("old", None, true, Some(Reset(7, 10)))], [], {7}), 0, [])
    requires steps == [StartLogin("u", "old"), StartReset("u", 7, "new"), Finish(1, 8), Finish(1, 8), Finish(0, 9)]
    ensures var w' := Run(w, steps);
            && w'.inFlight == [] && PasswordAccepted(w'.tables, "u", "new")
            && Accepts(w'.tables, 9, w'.now)
  {
    var a, b, c, d, e := steps[0], steps[1], steps[2], steps[3], steps[4];
    assert steps == [a, b, c] + [d, e];
    RunThree(w, a, b, c);
    assert steps[..4][..3] == [a, b, c];
    var w1 := Next(w, a);
    assert w1.inFlight == [LoggingIn("u")];
    var w2 := Next(w1, b);
    assert w2.inFlight == [LoggingIn("u"), Resetting("u", 7, "new")];
    var w3 := Next(w2, c);
    assert w3.inFlight == [LoggingIn("u"), ClearingSessions("u")];
    var w4 := Next(w3, d);
    assert w4.inFlight == [LoggingIn("u")];
    assert Run(w, steps[..4]) == w4;
    var w5 := Next(w4, e);
    assert Usable(w5.tables.sessions[0], 9, w5.now);
  }

  // ---------- Suspended users ----------

  ghost predicate IsSuspended(t: Tables, userId: string) { userId in t.users && !t.users[userId].isActive }

  lemma SuspendedStep(w: World, s: Step, userId: string)
    requires IsSuspended(w.tables, userId) && !HasValidSession(w.tables, userId) && !LoginUnderWay(w, userId)
    ensures IsSuspended(Next(w, s).tables, userId)
    ensures !HasValidSession(Next(w, s).tables, userId) && !LoginUnderWay(Next(w, s), userId)
  {
    if (s.StartLogin? || s.Register?) && s.userId == userId {
      assert Next(w, s) == w;
    } else {
      ClosedStep(w, s, userId);
    }
  }

  lemma {:induction false} SuspendedStays(w: World, steps: seq<Step>, userId: string)
    requires IsSuspended(w.tables, userId) && !HasValidSession(w.tables, userId) && !LoginUnderWay(w, userId)
    ensures IsSuspended(Run(w, steps).tables, userId)
    ensures !HasValidSession(Run(w, steps).tables, userId) && !LoginUnderWay(Run(w, steps), userId)
  {
    if steps != [] {
      SuspendedStays(w, steps[..|steps| - 1], userId);
      SuspendedStep(Run(w, steps[..|steps| - 1]), steps[|steps| - 1], userId);
    }
  }

  ghost predicate GetsIn(w: World, userId: string) {
    exists steps :: HasValidSession(Run(w, steps).tables, userId)
  }

  /** A suspended user has a valid session after some run exactly when there is one now, or a login under way. */
  lemma SuspendedGetsInExactlyWhen(w: World, userId: string)
    requires userId in w.tables.users && !w.tables.users[userId].isActive
    ensures GetsIn(w, userId) <==> HasValidSession(w.tables, userId) || LoginUnderWay(w, userId)
  {
    if HasValidSession(w.tables, userId) {
      assert Run(w, []) == w;
    } else if LoginUnderWay(w, userId) {
      LoginLetsIn(w, userId, "");
      var steps :| WithoutPassword(steps, userId, "") && HasValidSession(Run(w, steps).tables, userId);
    } else if GetsIn(w, userId) {
      var steps :| HasValidSession(Run(w, steps).tables, userId);
      SuspendedStays(w, steps, userId);
    }
  }

  // ---------- Calls served alone ----------

  /** A call with the tokens it makes; a refresh with the session it finds. */
  datatype Call =
    | CallRegister(userId: string, password: string, phone: Option<string>, made: Token)
    | CallLogin(userId: string, password: string, made: Token)
    | CallRefresh(sessionId: nat, token: Token, made: Token)
    | CallLogout(token: Token)
    | CallForgot(userId: string, made: Token)
    | CallReset(userId: string, token: Token, password: string)
    | CallChange(userId: string, current: string, password: string)

  function StepsOf(c: Call): seq<Step> {
    match c
    case CallRegister(userId, password, phone, made) => [Register(userId, password, phone), Finish(0, made)]
    case CallLogin(userId, password, made) => [StartLogin(userId, password), Finish(0, made)]
    case CallRefresh(id, token, made) => [StartRefresh(id, token), Finish(0, made)]
    case CallLogout(token) => [Logout(token)]
    case CallForgot(userId, made) => [Forgot(userId, made)]
    case CallReset(userId, token, password) => [StartReset(userId, token, password), Finish(0, 0), Finish(0, 0)]
    case CallChange(userId, current, password) => [StartChange(userId, current, password), Finish(0, 0)]
  }

  /** A call with nothing in between: the run of its steps. */
  function Serve(t: Tables, c: Call, now: int): Tables {
    Run(World(t, now, []), StepsOf(c)).tables
  }

  lemma ServedInTwo(t: Tables, c: Call, now: int)
    requires |StepsOf(c)| == 2
    ensures Serve(t, c, now) == Next(Next(World(t, now, []), StepsOf(c)[0]), StepsOf(c)[1]).tables
  {
    assert StepsOf(c) == [StepsOf(c)[0], StepsOf(c)[1]];
    RunTwo(World(t, now, []), StepsOf(c)[0], StepsOf(c)[1]);
  }

  lemma ServedInOne(t: Tables, c: Call, now: int)
    requires |StepsOf(c)| == 1
    ensures Serve(t, c, now) == Next(World(t, now, []), StepsOf(c)[0]).tables
  {
    assert StepsOf(c)[..0] == [];
    assert Run(World(t, now, []), []) == World(t, now, []);
  }

  lemma ResetServed(t: Tables, c: Call, now: int)
    requires c.CallReset?
    ensures Serve(t, c, now) == if Holds(t, c.userId, c.token, now) then LogOutUser(SetPassword(t, c.userId, c.password), c.userId)
                                else t
  {
    var w, start := World(t, now, []), StartReset(c.userId, c.token, c.password);
    RunThree(w, start, Finish(0, 0), Finish(0, 0));
    if Holds(t, c.userId, c.token, now) {
      assert Next(w, start).inFlight == [Resetting(c.userId, c.token, c.password)];
      assert Next(Next(w, start), Finish(0, 0)).inFlight == [ClearingSessions(c.userId)];
    }
  }

  datatype Served = Served(call: Call, at: int)

  function SerialRun(t: Tables, calls: seq<Served>): Tables {
    if calls == [] then t
    else Serve(SerialRun(t, calls[..|calls| - 1]), calls[|calls| - 1].call, calls[|calls| - 1].at)
  }

  /** The presented reset token is accepted. */
  predicate ResetAccepted(t: Tables, s: Served) {
    s.call.CallReset? && Holds(t, s.call.userId, s.call.token, s.at)
  }

  lemma {:induction false} SerialKeepsSpent(t: Tables, calls: seq<Served>, n: nat, token: Token)
    requires n <= |calls| && Spent(SerialRun(t, calls[..n]), token)
    ensures Spent(SerialRun(t, calls), token)
    decreases |calls|
  {
    if n == |calls| {
      assert calls[..n] == calls;
    } else {
      var m := |calls| - 1;
      assert calls[..m][..n] == calls[..n];
      SerialKeepsSpent(t, calls[..m], n, token);
      SpentResetsAreNeverAccepted(World(SerialRun(t, calls[..m]), calls[m].at, []), StepsOf(calls[m].call), token);
    }
  }

  lemma {:induction false} SerialKeepsSound(t: Tables, calls: seq<Served>)
    requires Sound(t)
    ensures Sound(SerialRun(t, calls))
  {
    if calls != [] {
      var m := |calls| - 1;
      SerialKeepsSound(t, calls[..m]);
      InvalidStaysInvalid(World(SerialRun(t, calls[..m]), calls[m].at, []), StepsOf(calls[m].call));
    }
  }

  /** In every serial run of calls a reset token is accepted at most once. */
  lemma ResetTokenWorksAtMostOnce(t: Tables, calls: seq<Served>, i: nat, j: nat)
    requires Sound(t) && i < j < |calls|
    requires ResetAccepted(SerialRun(t, calls[..i]), calls[i])
    requires calls[j].call.CallReset? && calls[j].call.token == calls[i].call.token
    ensures !ResetAccepted(SerialRun(t, calls[..j]), calls[j])
  {
    var before, after := SerialRun(t, calls[..i]), SerialRun(t, calls[..i + 1]);
    assert calls[..i + 1][..i] == calls[..i];
    SerialKeepsSound(t, calls[..i]);
    ResetServed(before, calls[i].call, calls[i].at);
    assert Spent(after, calls[i].call.token);
    assert calls[..j][..i + 1] == calls[..i + 1];
    SerialKeepsSpent(t, calls[..j], i + 1, calls[i].call.token);
  }

  // ---------- The service ----------

  datatype Error = Conflict | Unauthorized | BadRequest | NotFound | UniqueViolation

  function NormalizedPhone(phone: Option<string>): Option<string> {
    if phone.Some? && phone.value != "" then Some(NormalizePhoneNumber(phone.value)) else None
  }

  class AuthService {
    var users: map<string, User>
    var sessions: seq<Session>
    ghost var issued: set<Token>

    ghost function State(): Tables reads this { Tables(users, sessions, issued) }

    constructor ()
      ensures State() == Tables(map[], [], {}) && Sound(State())
    {
      users, sessions, issued := map[], [], {};
    }

    /** `phone` as entered. An empty text is no phone; one that normalises to nothing is only caught by its column. */
    method RegisterUser(userId: string, password: string, phone: Option<string>, made: Token, now: int)
      returns (r: Result<Token, Error>)
      requires made !in issued
      modifies this
      ensures var normalized := NormalizedPhone(phone);
              && (r.Ok? <==> userId !in old(users) && !PhoneTaken(old(users), normalized))
              && (r.Ok? ==> r.value == made)
              && (r.Err? && (userId in old(users) || normalized != Some("")) ==> r.error == Conflict)
              && State() == Serve(old(State()), CallRegister(userId, password, normalized, made), now)
      ensures var normalized := if phone == None || phone == Some("") then None else Some(NormalizePhoneNumber(phone.value));
              && (r.Ok? <==> userId !in old(users)
                             && (normalized.None? || forall u :: u in old(users) ==> old(users)[u].phone != normalized))
              && (r.Ok? ==>
                    && users == old(users)[userId := User(password, normalized, true, None)]
                    && sessions == old(sessions) + [Session(userId, made, true, now + 604800000)])
      ensures r.Err? ==> users == old(users) && sessions == old(sessions)
    {
      ghost var call := CallRegister(userId, password, NormalizedPhone(phone), made);
      ServedInTwo(State(), call, now);
      if userId in users {
        return Err(Conflict);
      }
      var normalizedPhone := NormalizedPhone(phone);
      if normalizedPhone.Some? && normalizedPhone.value != "" {
        if PhoneTaken(users, normalizedPhone) {
          return Err(Conflict);
        }
      }
      if PhoneTaken(users, normalizedPhone) {
        return Err(UniqueViolation);
      }
      users := users[userId := User(password, normalizedPhone, true, None)];
      sessions := sessions + [Session(userId, made, true, now + SESSION_MS)];
      issued := issued + {made};
      return Ok(made);
    }

    method Login(userId: string, password: string, made: Token, now: int) returns (r: Result<Token, Error>)
      requires made !in issued
      modifies this
      ensures r == if PasswordAccepted(old(State()), userId, password) then Ok(made) else Err(Unauthorized)
      ensures State() == if r.Ok? then OpenSession(old(State()), userId, made, now) else old(State())
      ensures State() == Serve(old(State()), CallLogin(userId, password, made), now)
      ensures r.Ok? <==> userId in old(users) && old(users)[userId].password == password && old(users)[userId].isActive
      ensures r == Ok(made) || r == Err(Unauthorized)
      ensures users == old(users)
      ensures sessions == old(sessions) + if r.Ok? then [Session(userId, made, true, now + 604800000)] else []
    {
      ServedInTwo(State(), CallLogin(userId, password, made), now);
      if userId !in users {
        return Err(Unauthorized);
      }
      if users[userId].password != password {
        return Err(Unauthorized);
      }
      if !users[userId].isActive {
        return Err(Unauthorized);
      }
      sessions := sessions + [Session(userId, made, true, now + SESSION_MS)];
      issued := issued + {made};
      return Ok(made);
    }

    /** `signed` says whether the presented text is a token of ours that has not lapsed by itself. */
    method RefreshToken(token: Token, signed: bool, made: Token, now: int) returns (r: Result<Token, Error>)
      requires Sound(State()) && made !in issued
      modifies this
      ensures r == if signed && Accepts(old(State()), token, now) then Ok(made) else Err(Unauthorized)
      ensures r.Err? ==> State() == old(State())
      ensures r.Ok? ==> exists i: nat ::
                && i < |old(sessions)| && Usable(old(sessions)[i], token, now)
                && State() == Rotate(old(State()), i, made, now)
                && State() == Serve(old(State()), CallRefresh(i, token, made), now)
      ensures r.Ok? ==> Dead(State(), token) && Accepts(State(), made, now)
      ensures r.Ok? <==> signed && exists i :: && 0 <= i < |old(sessions)| && old(sessions)[i].token == token
                                               && old(sessions)[i].isValid && now <= old(sessions)[i].expiresAt
      ensures r.Ok? ==> exists i :: && 0 <= i < |old(sessions)| && old(sessions)[i].token == token
                                    && sessions == old(sessions)[i := Session(old(sessions)[i].userId, made, true, now + 604800000)]
      ensures users == old(users)
    {
      if !signed {
        return Err(Unauthorized);
      }
      var found := FindSession(token);
      if found.None? || !sessions[found.value].isValid || sessions[found.value].expiresAt < now {
        return Err(Unauthorized);
      }
      var id := found.value;
      ServedInTwo(State(), CallRefresh(id, token, made), now);
      sessions := sessions[id := sessions[id].(token := made, expiresAt := now + SESSION_MS)];
      issued := issued + {made};
      assert Usable(sessions[id], made, now);
      return Ok(made);
    }

    /** `findUnique` by token. */
    method FindSession(token: Token) returns (found: Option<nat>)
      ensures found.Some? ==> found.value < |sessions| && sessions[found.value].token == token
      ensures found.None? ==> forall i :: 0 <= i < |sessions| ==> sessions[i].token != token
    {
      for i := 0 to |sessions|
        invariant forall j :: 0 <= j < i ==> sessions[j].token != token
      {
        if sessions[i].token == token {
          return Some(i);
        }
      }
      return None;
    }

    method LogoutToken(token: Token)
      modifies this`sessions
      ensures State() == LogOut(old(State()), token)
      ensures State() == Serve(old(State()), CallLogout(token), 0)
      ensures |sessions| == |old(sessions)|
      ensures forall i :: 0 <= i < |sessions| ==>
                sessions[i] == if old(sessions)[i].token == token then old(sessions)[i].(isValid := false) else old(sessions)[i]
    {
      ServedInOne(State(), CallLogout(token), 0);
      sessions := Invalidate(sessions, (s: Session) => s.token == token);
    }

    method ForgotPassword(userId: string, made: Token, now: int)
      requires made !in issued
      modifies this
      ensures State() == OfferReset(old(State()), userId, made, now)
      ensures State() == Serve(old(State()), CallForgot(userId, made), now)
      ensures users == if userId in old(users)
                       then old(users)[userId := old(users)[userId].(reset := Some(Reset(made, now + 3600000)))]
                       else old(users)
      ensures sessions == old(sessions)
    {
      ServedInOne(State(), CallForgot(userId, made), now);
      if userId in users {
        users := users[userId := users[userId].(reset := Some(Reset(made, now + RESET_MS)))];
        issued := issued + {made};
      }
    }

    /** Served alone: afterwards the token is spent and none of the user's sessions is valid. */
    method ResetPassword(token: Token, password: string, now: int) returns (r: Result<string, Error>)
      requires Sound(State())
      modifies this
      ensures r.Ok? <==> AcceptsReset(old(State()), token, now)
      ensures r.Err? ==> State() == old(State())
      ensures r.Ok? ==>
                && Holds(old(State()), r.value, token, now)
                && State() == LogOutUser(SetPassword(old(State()), r.value, password), r.value)
                && State() == Serve(old(State()), CallReset(r.value, token, password), now)
                && Spent(State(), token)
                && (forall i :: 0 <= i < |sessions| && sessions[i].userId == r.value ==> !sessions[i].isValid)
      ensures r.Ok? <==> exists u :: && u in old(users) && old(users)[u].reset.Some?
                                     && old(users)[u].reset.value.token == token && now < old(users)[u].reset.value.expiry
      ensures r.Ok? ==>
                && r.value in old(users) && old(users)[r.value].reset.Some?
                && old(users)[r.value].reset.value.token == token && now < old(users)[r.value].reset.value.expiry
                && users == old(users)[r.value := old(users)[r.value].(password := password, reset := None)]
                && |sessions| == |old(sessions)|
                && forall i :: 0 <= i < |sessions| ==>
                     sessions[i] == if old(sessions)[i].userId == r.value then old(sessions)[i].(isValid := false)
                                    else old(sessions)[i]
    {
      if userId :| userId in users && Holds(Tables(users, [], {}), userId, token, now) {
        assert Holds(State(), userId, token, now);
        ResetServed(State(), CallReset(userId, token, password), now);
        users := users[userId := users[userId].(password := password, reset := None)];
        sessions := Invalidate(sessions, (s: Session) => s.userId == userId);
        return Ok(userId);
      }
      assert forall u :: u in users ==> !Holds(Tables(users, [], {}), u, token, now);
      return Err(BadRequest);
    }

    method ChangeOwnPassword(userId: string, current: string, password: string, now: int) returns (r: Result<bool, Error>)
      modifies this
      ensures r == if userId !in old(users) then Err(NotFound)
                   else if old(users)[userId].password != current then Err(BadRequest)
                   else Ok(true)
      ensures State() == Serve(old(State()), CallChange(userId, current, password), now)
      ensures users == if r.Ok? then old(users)[userId := old(users)[userId].(password := password)] else old(users)
      ensures sessions == old(sessions)
    {
      ServedInTwo(State(), CallChange(userId, current, password), now);
      if userId !in users {
        return Err(NotFound);
      }
      if users[userId].password != current {
        return Err(BadRequest);
      }
      users := users[userId := users[userId].(password := password)];
      return Ok(true);
    }
  }
}
