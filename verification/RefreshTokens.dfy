/**
 * Refresh-token rotation: single-use tokens enforced by one atomic insert into a
 * blacklist that a periodic job empties of expired entries, and access tokens
 * that a password change revokes.
 *
 * Times are microseconds; token times are whole seconds. The application's clock
 * validates tokens, the database's clock stamps revocations and drives clean-up.
 */
module RefreshTokens {
  import opened Outcomes

  const SECOND := 1_000_000
  const ACCESS_TTL := 15 * 60 * SECOND
  const REFRESH_TTL := 7 * 24 * 60 * 60 * SECOND

  function Truncated(t: nat): nat { t - t % SECOND }

  datatype Claims = Claims(jti: string, subject: string, issuedAt: nat, expiresAt: nat)

  datatype Access = Access(subject: string, issuedAt: nat, expiresAt: nat)

  function NewRefresh(jti: string, subject: string, now: nat): Claims {
    Claims(jti, subject, Truncated(now), Truncated(now + REFRESH_TTL))
  }

  function NewAccess(subject: string, now: nat): Access {
    Access(subject, Truncated(now), Truncated(now + ACCESS_TTL))
  }

  /** An access token lives a quarter of an hour and a refresh token a week, less than a second rounded off. */
  lemma LifetimesAreExact(jti: string, subject: string, now: nat)
    ensures var access, refresh := NewAccess(subject, now), NewRefresh(jti, subject, now);
      && access.issuedAt == refresh.issuedAt <= now < access.issuedAt + 1_000_000
      && access.issuedAt % 1_000_000 == access.expiresAt % 1_000_000 == refresh.expiresAt % 1_000_000 == 0
      && access.expiresAt <= now + 900_000_000 < access.expiresAt + 1_000_000
      && refresh.expiresAt <= now + 604_800_000_000 < refresh.expiresAt + 1_000_000
      && access.subject == refresh.subject == subject && refresh.jti == jti
    ensures Unexpired(NewAccess(subject, now).expiresAt, now + 899_000_000)
    ensures !Unexpired(NewAccess(subject, now).expiresAt, now + 900_000_000)
    ensures Unexpired(NewRefresh(jti, subject, now).expiresAt, now + 604_799_000_000)
    ensures !Unexpired(NewRefresh(jti, subject, now).expiresAt, now + 604_800_000_000)
  {
  }

  /** Signature checked, what remains of validation is the expiry. */
  predicate Unexpired(expiresAt: nat, now: nat) { now < expiresAt }

  // ---------------------------------------------------------------- the blacklist

  type Blacklist = map<string, nat>

  /** INSERT … ON CONFLICT (jti) DO NOTHING. */
  function Listed(b: Blacklist, tok: Claims): Blacklist {
    if tok.jti in b then b else b[tok.jti := tok.expiresAt]
  }

  /** DELETE … WHERE expires_at < now(). */
  function Swept(b: Blacklist, dbNow: nat): Blacklist {
    map jti | jti in b && !(b[jti] < dbNow) :: b[jti]
  }

  /**
   * While the database's clock is not ahead, clean-up drops only tokens that
   * validation already rejects, and exactly those the database finds expired.
   */
  lemma CleanupDropsOnlyRejected(b: Blacklist, jti: string, now: nat, dbNow: nat)
    requires jti in b && dbNow <= now
    ensures jti !in Swept(b, dbNow) ==> !Unexpired(b[jti], now)
    ensures jti in Swept(b, dbNow) <==> dbNow <= b[jti]
  {
  }

  datatype Pair = Pair(access: Access, refresh: Claims)

  datatype AuthError =
    | InvalidToken | Replayed | UnknownUser | Revoked | Unverifiable
    | WrongPassword | WeakPassword | HashFailed | Storage

  /** The service's mutable state; `users` maps a user to the time their tokens were revoked. */
  class AuthService {
    var blacklist: Blacklist
    var users: map<string, Option<nat>>
    var passwords: map<string, string>

    ghost predicate Valid()
      reads this
    {
      users.Keys == passwords.Keys
    }

    constructor (passwords: map<string, string>)
      ensures Valid() && blacklist == map[] && this.passwords == passwords
      ensures forall u :: u in users ==> users[u].None?
    {
      blacklist, this.passwords := map[], passwords;
      users := map u | u in passwords :: None;
    }

    /** One INSERT … ON CONFLICT DO NOTHING RETURNING: true for a new jti; a failed one may have been applied. */
    method ConsumeToken(tok: Claims, write: Write) returns (consumed: Result<bool, AuthError>)
      modifies this`blacklist
      ensures write.Acknowledged? ==> consumed == Ok(tok.jti !in old(blacklist))
      ensures !write.Acknowledged? ==> consumed == Err(Storage)
      ensures blacklist == if write.Rejected? then old(blacklist) else Listed(old(blacklist), tok)
    {
      var isNew := tok.jti !in blacklist;
      if isNew && !write.Rejected? {
        blacklist := blacklist[tok.jti := tok.expiresAt];
      }
      consumed := if write.Acknowledged? then Ok(isNew) else Err(Storage);
    }

    /** The token is consumed before the user is looked up: a refused refresh still spends it. */
    method RefreshToken(token: Option<Claims>, now: nat, newJti: string, consume: Write, lookupFails: bool)
      returns (reply: Result<Pair, AuthError>)
      modifies this`blacklist
      ensures token.None? || !Unexpired(token.value.expiresAt, now) ==>
                reply == Err(InvalidToken) && blacklist == old(blacklist)
      ensures token.Some? && Unexpired(token.value.expiresAt, now) ==>
                && blacklist == (if consume.Rejected? then old(blacklist) else Listed(old(blacklist), token.value))
                && reply == (if !consume.Acknowledged? then Err(Storage)
                             else if token.value.jti !in old(blacklist) && lookupFails then Err(Storage)
                             else Exchanged(old(blacklist), users.Keys, token.value, now, newJti))
    {
      if token.None? || !Unexpired(token.value.expiresAt, now) {
        return Err(InvalidToken);
      }
      var tok := token.value;
      var consumed := ConsumeToken(tok, consume);
      if consumed.Err? {
        return Err(consumed.error);
      }
      if !consumed.value {
        return Err(Replayed);
      }
      if lookupFails {
        return Err(Storage);
      }
      if tok.subject !in users {
        return Err(UnknownUser);
      }
      reply := Ok(Pair(NewAccess(tok.subject, now), NewRefresh(newJti, tok.subject, now)));
    }

    /** An invalid or expired token is nothing to blacklist: logging out then succeeds without a write. */
    method Logout(token: Option<Claims>, now: nat, write: Write) returns (refused: Option<AuthError>)
      modifies this`blacklist
      ensures var valid := token.Some? && Unexpired(token.value.expiresAt, now);
        && blacklist == (if valid && !write.Rejected? then Listed(old(blacklist), token.value) else old(blacklist))
        && refused == (if valid && !write.Acknowledged? then Some(Storage) else None)
    {
      if token.None? || !Unexpired(token.value.expiresAt, now) {
        return None;
      }
      if token.value.jti !in blacklist && !write.Rejected? {
        blacklist := blacklist[token.value.jti := token.value.expiresAt];
      }
      refused := if write.Acknowledged? then None else Some(Storage);
    }

    method CleanupExpired(dbNow: nat)
      modifies this`blacklist
      ensures blacklist == Swept(old(blacklist), dbNow)
    {
      blacklist := Swept(blacklist, dbNow);
    }

    /** A revocation time that cannot be read refuses the token; a user without one, or unknown, does not. */
    method ValidateToken(token: Option<Access>, now: nat, readFails: bool) returns (reply: Result<string, AuthError>)
      ensures reply.Ok? <==> token.Some? && Accepted(users, token.value, now) && !readFails
      ensures reply.Ok? ==> reply.value == token.value.subject
      ensures reply == Err(Revoked) ==> token.Some? && Unexpired(token.value.expiresAt, now)
    {
      if token.None? || !Unexpired(token.value.expiresAt, now) {
        return Err(InvalidToken);
      }
      if readFails {
        return Err(Unverifiable);
      }
      var revokedAt := if token.value.subject in users then users[token.value.subject] else None;
      if revokedAt.Some? {
        if token.value.issuedAt < Truncated(revokedAt.value) {
          return Err(Revoked);
        }
      }
      reply := Ok(token.value.subject);
    }

    /**
     * Two writes that are not one transaction: the new password, then the revocation,
     * stamped by the database. The fresh pair is stamped by the application. A stored
     * hash stands for the password it was made from.
     */
    method ChangePassword(userId: string, current: string, next: string, strong: string -> bool,
                          now: nat, dbNow: nat, newJti: string,
                          lookupFails: bool, hashFails: bool, update: Write, revoke: Write)
      returns (reply: Result<Pair, AuthError>)
      requires Valid()
      modifies this`users, this`passwords
      ensures Valid()
      ensures var allowed :=
          && !lookupFails && userId in old(users) && old(passwords)[userId] == current
          && strong(next) && !hashFails;
        && passwords == (if allowed && !update.Rejected? then old(passwords)[userId := next] else old(passwords))
        && users == (if allowed && update.Acknowledged? && !revoke.Rejected?
                     then old(users)[userId := Some(dbNow)] else old(users))
        && (reply.Ok? <==> allowed && update.Acknowledged? && revoke.Acknowledged?)
      ensures reply.Ok? ==> reply.value == Pair(NewAccess(userId, now), NewRefresh(newJti, userId, now))
    {
      if lookupFails {
        return Err(Storage);
      }
      if userId !in users {
        return Err(UnknownUser);
      }
      if passwords[userId] != current {
        return Err(WrongPassword);
      }
      if !strong(next) {
        return Err(WeakPassword);
      }
      if hashFails {
        return Err(HashFailed);
      }
      if !update.Rejected? {
        passwords := passwords[userId := next];
      }
      if !update.Acknowledged? {
        return Err(Storage);
      }
      if !revoke.Rejected? {
        users := users[userId := Some(dbNow)];
      }
      if !revoke.Acknowledged? {
        return Err(Storage);
      }
      reply := Ok(Pair(NewAccess(userId, now), NewRefresh(newJti, userId, now)));
    }
  }

  function Exchanged(b: Blacklist, users: set<string>, tok: Claims, now: nat, newJti: string): Result<Pair, AuthError> {
    if tok.jti in b then Err(Replayed)
    else if tok.subject !in users then Err(UnknownUser)
    else Ok(Pair(NewAccess(tok.subject, now), NewRefresh(newJti, tok.subject, now)))
  }

  /** A pair is handed out exactly for an unspent token of a known user, and it is that user's. */
  lemma ExchangeIsForItsUser(b: Blacklist, users: set<string>, tok: Claims, now: nat, newJti: string)
    ensures Exchanged(b, users, tok, now, newJti).Ok? <==> tok.jti !in b && tok.subject in users
    ensures Exchanged(b, users, tok, now, newJti) == Err(Replayed) <==> tok.jti in b
    ensures Exchanged(b, users, tok, now, newJti).Ok? ==>
      var pair := Exchanged(b, users, tok, now, newJti).value;
      pair.access.subject == pair.refresh.subject == tok.subject && pair.refresh.jti == newJti
  {
  }

  predicate Accepted(users: map<string, Option<nat>>, token: Access, now: nat) {
    && Unexpired(token.expiresAt, now)
    && (token.subject in users && users[token.subject].Some? ==>
          Truncated(users[token.subject].value) <= token.issuedAt)
  }

  // ---------------------------------------------------------------- runs

  /**
   * `inFlight` are refresh requests that passed validation and have not reached
   * the blacklist yet. `minted`, `ended` and `sweptAt` record, per jti, the pairs
   * it yielded and whether a logout listed it, and the latest clean-up. A request
   * whose database calls fail after the token was consumed spends it for nothing.
   */
  datatype State = State(
    now: nat, dbNow: nat, blacklist: Blacklist, users: map<string, Option<nat>>,
    issued: map<string, Claims>, inFlight: multiset<Claims>,
    minted: seq<string>, ended: set<string>, sweptAt: nat)

  datatype Step =
    | Tick(now: nat, dbNow: nat)
    | SignIn(userId: string, newJti: string)
    | Validate(tok: Claims)
    | Consume(tok: Claims, newJti: string)
    | Spend(tok: Claims)
    | Logout(tok: Claims, write: Write)
    | Cleanup
    | ChangePassword(userId: string, newJti: string)

  predicate Genuine(s: State, tok: Claims) {
    tok.jti in s.issued && s.issued[tok.jti] == tok
  }

  predicate Enabled(s: State, st: Step) {
    match st
    case Tick(now, dbNow) => s.now <= now && s.dbNow <= dbNow
    case SignIn(userId, newJti) => userId in s.users && newJti !in s.issued
    case Validate(tok) => Genuine(s, tok) && Unexpired(tok.expiresAt, s.now)
    case Consume(tok, newJti) => tok in s.inFlight && newJti !in s.issued
    case Spend(tok) => tok in s.inFlight
    case Logout(tok, _) => Genuine(s, tok) && Unexpired(tok.expiresAt, s.now)
    case Cleanup => true
    case ChangePassword(userId, newJti) => userId in s.users && newJti !in s.issued
  }

  function Issue(s: State, tok: Claims): State { s.(issued := s.issued[tok.jti := tok]) }

  function Apply(s: State, st: Step): State
    requires Enabled(s, st)
  {
    match st
    case Tick(now, dbNow) => s.(now := now, dbNow := dbNow)
    case SignIn(userId, newJti) => Issue(s, NewRefresh(newJti, userId, s.now))
    case Validate(tok) => s.(inFlight := s.inFlight + multiset{tok})
    case Consume(tok, newJti) =>
      var s' := s.(inFlight := s.inFlight - multiset{tok}, blacklist := Listed(s.blacklist, tok));
      (match Exchanged(s.blacklist, s.users.Keys, tok, s.now, newJti)
       case Ok(pair) => Issue(s', pair.refresh).(minted := s.minted + [tok.jti])
       case Err(_) => s')
    case Spend(tok) => s.(inFlight := s.inFlight - multiset{tok}, blacklist := Listed(s.blacklist, tok))
    case Logout(tok, write) =>
      if write.Rejected? then s
      else s.(blacklist := Listed(s.blacklist, tok), ended := s.ended + {tok.jti})
    case Cleanup =>
      s.(blacklist := Swept(s.blacklist, s.dbNow), sweptAt := if s.sweptAt < s.dbNow then s.dbNow else s.sweptAt)
    case ChangePassword(userId, newJti) =>
      Issue(s, NewRefresh(newJti, userId, s.now)).(users := s.users[userId := Some(s.dbNow)])
  }

  ghost predicate Runs(s: State, steps: seq<Step>)
    decreases |steps|
  {
    |steps| > 0 ==> Enabled(s, steps[0]) && Runs(Apply(s, steps[0]), steps[1..])
  }

  ghost function After(s: State, steps: seq<Step>): State
    requires Runs(s, steps)
    decreases |steps|
  {
    if |steps| == 0 then s else After(Apply(s, steps[0]), steps[1..])
  }

  function Initial(now: nat, dbNow: nat, users: map<string, Option<nat>>): State {
    State(now, dbNow, map[], users, map[], multiset{}, [], {}, 0)
  }

  /** Pairs obtained with this jti. */
  function Pairs(minted: seq<string>, jti: string): nat { multiset(minted)[jti] }

  predicate Spent(s: State, jti: string) { jti in s.minted || jti in s.ended }

  /** A spent token is on the blacklist until a clean-up later than its expiry. */
  ghost predicate Inv(s: State) {
    && (forall jti :: jti in s.issued ==> s.issued[jti].jti == jti)
    && (forall tok :: tok in s.inFlight ==> Genuine(s, tok))
    && (forall jti :: jti in s.blacklist ==> jti in s.issued && s.blacklist[jti] == s.issued[jti].expiresAt)
    && (forall jti :: SpentIsListed(s, jti))
    && s.sweptAt <= s.dbNow
  }

  ghost predicate SpentIsListed(s: State, jti: string) {
    Spent(s, jti) ==> jti in s.issued && (jti in s.blacklist || s.issued[jti].expiresAt < s.sweptAt)
  }

  lemma StepKeepsIssued(s: State, st: Step)
    requires Inv(s) && Enabled(s, st)
    ensures var s' := Apply(s, st);
      && (forall jti :: jti in s.issued ==> jti in s'.issued && s'.issued[jti] == s.issued[jti])
      && (forall jti :: jti in s'.issued ==> s'.issued[jti].jti == jti)
  {
  }

  lemma StepKeepsRecords(s: State, st: Step)
    requires Inv(s) && Enabled(s, st)
    ensures var s' := Apply(s, st);
      && (forall jti :: jti in s.issued ==> jti in s'.issued && s'.issued[jti] == s.issued[jti])
      && (forall jti :: jti in s'.issued ==> s'.issued[jti].jti == jti)
      && (forall tok :: tok in s'.inFlight ==> Genuine(s', tok))
      && s.sweptAt <= s'.sweptAt <= s'.dbNow
  {
    StepKeepsIssued(s, st);
  }

  lemma StepKeepsListed(s: State, st: Step, jti: string)
    requires Inv(s) && SpentIsListed(s, jti) && Enabled(s, st)
    ensures SpentIsListed(Apply(s, st), jti)
    ensures var s' := Apply(s, st);
      jti in s'.blacklist ==> jti in s'.issued && s'.blacklist[jti] == s'.issued[jti].expiresAt
  {
    if st.Consume? || st.Spend? {
      assert Genuine(s, st.tok);
    }
  }

  lemma StepKeepsInv(s: State, st: Step)
    requires Inv(s) && Enabled(s, st)
    ensures Inv(Apply(s, st))
  {
    StepKeepsRecords(s, st);
    forall jti ensures var s' := Apply(s, st);
      && SpentIsListed(s', jti)
      && (jti in s'.blacklist ==> jti in s'.issued && s'.blacklist[jti] == s'.issued[jti].expiresAt)
    {
      StepKeepsListed(s, st, jti);
    }
  }

  /** Every refresh reaches the blacklist before its token has expired by the database's clock. */
  predicate Prompt(s: State, st: Step) {
    st.Consume? ==> s.dbNow <= st.tok.expiresAt
  }

  ghost predicate AllPrompt(s: State, steps: seq<Step>)
    requires Runs(s, steps)
    decreases |steps|
  {
    |steps| > 0 ==> Prompt(s, steps[0]) && AllPrompt(Apply(s, steps[0]), steps[1..])
  }

  lemma PromptStepMintsOnce(s: State, st: Step, jti: string)
    requires Inv(s) && Enabled(s, st) && Prompt(s, st)
    ensures Spent(s, jti) ==> Pairs(Apply(s, st).minted, jti) == Pairs(s.minted, jti)
    ensures Pairs(Apply(s, st).minted, jti) <= Pairs(s.minted, jti) + 1
    ensures Spent(s, jti) ==> Spent(Apply(s, st), jti)
  {
    assert SpentIsListed(s, jti);
    if st.Consume? {
      assert Genuine(s, st.tok);
    }
  }

  /**
   * If every refresh is prompt, then over any run a token yields at most one new
   * pair, and none once it was logged out.
   */
  lemma {:induction false} TokensAreSingleUse(s: State, steps: seq<Step>, jti: string)
    requires Inv(s) && Runs(s, steps) && AllPrompt(s, steps)
    ensures Pairs(After(s, steps).minted, jti) <= Pairs(s.minted, jti) + 1
    ensures Spent(s, jti) ==> Pairs(After(s, steps).minted, jti) == Pairs(s.minted, jti)
    decreases |steps|
  {
    if |steps| > 0 {
      StepKeepsInv(s, steps[0]);
      PromptStepMintsOnce(s, steps[0], jti);
      TokensAreSingleUse(Apply(s, steps[0]), steps[1..], jti);
    }
  }

  /** A refresh that consumes in the instant it validates is prompt while the database's clock is not ahead. */
  lemma AtomicRefreshIsPrompt(s: State, tok: Claims, newJti: string)
    requires Enabled(s, Validate(tok)) && s.dbNow <= s.now && newJti !in s.issued
    ensures Enabled(Apply(s, Validate(tok)), Consume(tok, newJti))
    ensures Prompt(Apply(s, Validate(tok)), Consume(tok, newJti))
  {
  }

  /**
   * Exactly when a spent token yields another pair: when a clean-up later than
   * its expiry has dropped its entry while a validated request was on its way.
   */
  lemma SpentTokenMintsIffSwept(s: State, tok: Claims, newJti: string)
    requires Inv(s) && Enabled(s, Consume(tok, newJti)) && Spent(s, tok.jti) && tok.subject in s.users
    ensures Pairs(Apply(s, Consume(tok, newJti)).minted, tok.jti) > Pairs(s.minted, tok.jti)
       <==> tok.jti !in s.blacklist
    ensures tok.jti !in s.blacklist ==> tok.expiresAt < s.sweptAt <= s.dbNow
  {
    assert Genuine(s, tok) && SpentIsListed(s, tok.jti);
  }

  lemma StepFirst(s: State, st: Step, rest: seq<Step>)
    requires Enabled(s, st) && Runs(Apply(s, st), rest)
    ensures Runs(s, [st] + rest) && After(s, [st] + rest) == After(Apply(s, st), rest)
  {
  }

  /** A clock reading after which the next clean-up drops this token. */
  function Late(s: State, tok: Claims): nat {
    (if s.now < s.dbNow then s.dbNow else s.now) + tok.expiresAt + 1
  }

  function DelayedReplay(s: State, tok: Claims, newJti: string): seq<Step> {
    [Tick(Late(s, tok), Late(s, tok))] + ([Cleanup] + ([Consume(tok, newJti)] + []))
  }

  /** Wherever a validated request for a spent token is still on its way, a long enough delay makes it mint again. */
  lemma DelayedReplayMintsAgain(s: State, tok: Claims, newJti: string)
    requires Inv(s) && tok in s.inFlight && tok.subject in s.users && newJti !in s.issued
    ensures Runs(s, DelayedReplay(s, tok, newJti))
    ensures After(s, DelayedReplay(s, tok, newJti)).minted == s.minted + [tok.jti]
  {
    assert Genuine(s, tok);
    var s1 := Apply(s, Tick(Late(s, tok), Late(s, tok)));
    var s2 := Apply(s1, Cleanup);
    assert tok.jti !in s2.blacklist;
    StepFirst(s2, Consume(tok, newJti), []);
    StepFirst(s1, Cleanup, [Consume(tok, newJti)] + []);
    StepFirst(s, Tick(Late(s, tok), Late(s, tok)), [Cleanup] + ([Consume(tok, newJti)] + []));
  }

  /** Two requests for one token validate, one consumes it: the other is then on its way with a spent token. */
  lemma SpentTokenCanBeOnItsWay(userId: string, jti: string, newJti: string)
    requires jti != newJti
    ensures var s0 := Initial(0, 0, map[userId := None]);
      var tok := NewRefresh(jti, userId, 0);
      var s := Apply(Apply(Apply(Apply(s0, SignIn(userId, jti)), Validate(tok)), Validate(tok)), Consume(tok, newJti));
      Inv(s0) && tok in s.inFlight && Pairs(s.minted, jti) == 1
  {
  }

  /**
   * A logout keeps its token from being refreshed again exactly when its write was
   * not rejected, whether or not it was acknowledged; after a rejected one the token
   * is as good as before.
   */
  lemma LogoutHoldsIff(s: State, tok: Claims, write: Write, newJti: string)
    requires Inv(s) && Enabled(s, Step.Logout(tok, write)) && tok.jti !in s.blacklist
    requires tok.subject in s.users && newJti !in s.issued
    ensures var out := Apply(s, Step.Logout(tok, write));
      && Enabled(out, Validate(tok)) && Enabled(Apply(out, Validate(tok)), Consume(tok, newJti))
      && (Apply(Apply(out, Validate(tok)), Consume(tok, newJti)).minted == s.minted + [tok.jti] <==> write.Rejected?)
  {
    assert |s.minted + [tok.jti]| != |s.minted|;
  }

  /** A refresh that fails after its token was consumed has spent it: another request for it obtains no pair. */
  lemma FailedRefreshSpends(s: State, tok: Claims, newJti: string)
    requires Enabled(s, Spend(tok)) && tok in Apply(s, Spend(tok)).inFlight && newJti !in s.issued
    ensures var s' := Apply(s, Spend(tok));
      && Enabled(s', Consume(tok, newJti))
      && s'.minted == s.minted && Apply(s', Consume(tok, newJti)).minted == s.minted
  {
  }

  // ---------------------------------------------------------------- the records are the run

  /** The tokens that logouts of a run list. */
  function LoggedOut(steps: seq<Step>): set<string> {
    if |steps| == 0 then {}
    else
      match steps[0]
      case Logout(tok, write) => (if write.Rejected? then {} else {tok.jti}) + LoggedOut(steps[1..])
      case _ => LoggedOut(steps[1..])
  }

  /** The tokens that a run exchanges for pairs, in order. */
  ghost function ExchangedIn(s: State, steps: seq<Step>): seq<string>
    requires Runs(s, steps)
    decreases |steps|
  {
    if |steps| == 0 then [] else ExchangedBy(s, steps[0]) + ExchangedIn(Apply(s, steps[0]), steps[1..])
  }

  function ExchangedBy(s: State, st: Step): seq<string> {
    if st.Consume? && st.tok.jti !in s.blacklist && st.tok.subject in s.users then [st.tok.jti] else []
  }

  lemma ExchangeIsRecorded(s: State, st: Step)
    requires Enabled(s, st)
    ensures Apply(s, st).minted == s.minted + ExchangedBy(s, st)
  {
  }

  lemma LogoutIsRecorded(s: State, st: Step)
    requires Enabled(s, st)
    ensures Apply(s, st).ended == s.ended + LoggedOut([st])
  {
  }

  lemma {:induction false} LogoutsAreRecorded(s: State, steps: seq<Step>)
    requires Runs(s, steps)
    ensures After(s, steps).ended == s.ended + LoggedOut(steps)
    decreases |steps|
  {
    if |steps| > 0 {
      LogoutIsRecorded(s, steps[0]);
      LogoutsAreRecorded(Apply(s, steps[0]), steps[1..]);
    }
  }

  /** The pairs recorded are those that the steps of the run exchanged tokens for. */
  lemma {:induction false} ExchangesAreRecorded(s: State, steps: seq<Step>)
    requires Runs(s, steps)
    ensures After(s, steps).minted == s.minted + ExchangedIn(s, steps)
    decreases |steps|
  {
    if |steps| == 0 {
      assert s.minted + [] == s.minted;
    } else {
      ExchangeIsRecorded(s, steps[0]);
      ExchangesAreRecorded(Apply(s, steps[0]), steps[1..]);
      Associates(s.minted, ExchangedBy(s, steps[0]), ExchangedIn(Apply(s, steps[0]), steps[1..]));
    }
  }

  lemma Associates(a: seq<string>, b: seq<string>, c: seq<string>)
    ensures a + b + c == a + (b + c)
  {
  }

  // ---------------------------------------------------------------- revocation

  /** A user's revocation time never moves back. */
  lemma {:induction false} RevocationLasts(s: State, steps: seq<Step>, userId: string)
    requires Runs(s, steps) && userId in s.users && s.users[userId].Some? && s.users[userId].value <= s.dbNow
    ensures var s' := After(s, steps);
      userId in s'.users && s'.users[userId].Some? && s.users[userId].value <= s'.users[userId].value <= s'.dbNow
    decreases |steps|
  {
    if |steps| > 0 {
      RevocationLasts(Apply(s, steps[0]), steps[1..], userId);
    }
  }

  lemma TruncationIsMonotone(a: nat, b: nat)
    requires a <= b
    ensures Truncated(a) <= Truncated(b)
  {
  }

  /** After a password change no access token from an earlier second is ever accepted again. */
  lemma ChangeRevokesEarlierTokens(s: State, userId: string, newJti: string, steps: seq<Step>, token: Access)
    requires Enabled(s, Step.ChangePassword(userId, newJti))
    requires Runs(Apply(s, Step.ChangePassword(userId, newJti)), steps)
    requires token.subject == userId && token.issuedAt < Truncated(s.dbNow)
    ensures var s' := After(Apply(s, Step.ChangePassword(userId, newJti)), steps); !Accepted(s'.users, token, s'.now)
  {
    var s1 := Apply(s, Step.ChangePassword(userId, newJti));
    RevocationLasts(s1, steps, userId);
    var s' := After(s1, steps);
    TruncationIsMonotone(s.dbNow, s'.users[userId].value);
  }

  /** The pair handed out by the change is usable if and only if the database's clock is not a second ahead. */
  lemma FreshTokenAcceptedIffClocksAgree(s: State, userId: string, newJti: string)
    requires Enabled(s, Step.ChangePassword(userId, newJti))
    ensures var s' := Apply(s, Step.ChangePassword(userId, newJti));
      Accepted(s'.users, NewAccess(userId, s.now), s'.now) <==> Truncated(s.dbNow) <= Truncated(s.now)
  {
  }

  /**
   * Refreshing never looks at the revocation time: whenever an unspent refresh
   * token is shown, however old, it yields a pair, and the access token of that
   * pair passes the revocation check if and only if the clocks agree to the second.
   */
  lemma RefreshIgnoresRevocation(s: State, tok: Claims, newJti: string)
    requires Inv(s) && Enabled(s, Validate(tok)) && tok.jti !in s.blacklist && newJti !in s.issued
    requires tok.subject in s.users && s.users[tok.subject].Some?
    ensures var validated := Apply(s, Validate(tok));
      && Enabled(validated, Consume(tok, newJti))
      && var s' := Apply(validated, Consume(tok, newJti));
         && s'.minted == s.minted + [tok.jti]
         && (Accepted(s'.users, NewAccess(tok.subject, s.now), s'.now)
             <==> Truncated(s.users[tok.subject].value) <= Truncated(s.now))
  {
  }

  /** So a session opened before a password change goes on after it, with its refresh token alone. */
  lemma RefreshOutlivesPasswordChange(s: State, tok: Claims, changeJti: string, newJti: string)
    requires Inv(s) && Enabled(s, Step.ChangePassword(tok.subject, changeJti)) && changeJti != newJti
    requires Enabled(s, Validate(tok)) && tok.jti !in s.blacklist && newJti !in s.issued
    ensures var s1 := Apply(s, Step.ChangePassword(tok.subject, changeJti));
      && Enabled(s1, Validate(tok)) && Enabled(Apply(s1, Validate(tok)), Consume(tok, newJti))
      && var s2 := Apply(Apply(s1, Validate(tok)), Consume(tok, newJti));
         && s2.minted == s.minted + [tok.jti]
         && (Accepted(s2.users, NewAccess(tok.subject, s2.now), s2.now) <==> Truncated(s.dbNow) <= Truncated(s.now))
  {
    var s1 := Apply(s, Step.ChangePassword(tok.subject, changeJti));
    StepKeepsInv(s, Step.ChangePassword(tok.subject, changeJti));
    RefreshIgnoresRevocation(s1, tok, newJti);
  }
}
