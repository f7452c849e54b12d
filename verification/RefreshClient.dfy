/**
 * The browser's API client: requests that see a 401 share one refresh and retry
 * once. The page is composed with the rotating server of `RefreshTokens`, and
 * with the browser's other tabs, which refresh from the same cookie jar.
 *
 * JavaScript runs one task at a time, so each task or microtask is one step.
 */
module RefreshClient {
  import opened Outcomes
  import RT = RefreshTokens

  datatype Reply = Granted(tok: RT.Claims) | Refused(error: RT.AuthError)

  /** One POST /api/auth/refresh, carrying the cookie of the moment it was sent. */
  datatype Refresh =
    | Requested(cookie: Option<RT.Claims>)
    | Answering(reply: Reply)
    | Resolved(ok: bool)
    | Settled(ok: bool)

  datatype Outcome = Success | HttpError | SessionExpired

  datatype Phase = First | Waiting | Second | Done(outcome: Outcome)

  /** `joined` is the refresh the call waits or waited for. */
  datatype Call = Call(auth: bool, phase: Phase, fetches: nat, joined: Option<nat>)

  /**
   * `refreshes` are those of all tabs, in the order sent; `tabs` are the ones that
   * other tabs sent, and `current` is this page's refreshPromise. `owned` are the
   * tokens this browser ever held; `spoiled` records that a refresh response was
   * lost, that the server spent a token without replacing it, or that a logout or
   * another tab's refresh overlapped a refresh.
   */
  datatype Page = Page(
    calls: seq<Call>, refreshes: seq<Refresh>, tabs: set<nat>, current: Option<nat>,
    cookie: Option<RT.Claims>, owned: set<string>, spoiled: bool, server: RT.State)

  datatype Response = Good | Unauthorized | OtherError

  datatype Step =
    | Begin(auth: bool)
    | Respond(i: nat, response: Response)
    | Serve(r: nat, newJti: string)
    | ServeFails(r: nat, applied: bool)
    | Deliver(r: nat)
    | Lose(r: nat)
    | Settle(r: nat)
    | Resume(i: nat)
    | RespondAgain(i: nat, response: Response)
    | TabSends
    | SignIn(userId: string, newJti: string)
    | Logout(write: Write)
    | Elsewhere(st: RT.Step)

  predicate InPhase(p: Page, i: nat, phase: Phase) {
    i < |p.calls| && p.calls[i].phase == phase
  }

  /** A step of the server that does not involve this browser's tokens. */
  predicate Foreign(p: Page, st: RT.Step) {
    match st
    case Validate(tok) => tok.jti !in p.owned
    case Consume(tok, _) => tok.jti !in p.owned
    case Spend(tok) => tok.jti !in p.owned
    case Logout(tok, _) => tok.jti !in p.owned
    case _ => true
  }

  /** The server accepts the cookie's signature and expiry. */
  predicate Presentable(p: Page, cookie: Option<RT.Claims>) {
    cookie.Some? && RT.Enabled(p.server, RT.Validate(cookie.value))
  }

  /** Sent, and its response not yet in. */
  predicate InFlight(refresh: Refresh) { refresh.Requested? || refresh.Answering? }

  predicate AnyInFlight(p: Page) {
    exists r :: 0 <= r < |p.refreshes| && InFlight(p.refreshes[r])
  }

  /** A refresh leaves with the cookie of the moment, and overlaps whatever is still in flight. */
  function Sent(p: Page): Page {
    p.(refreshes := p.refreshes + [Requested(p.cookie)], spoiled := p.spoiled || AnyInFlight(p))
  }

  predicate Enabled(p: Page, st: Step) {
    match st
    case Begin(_) => true
    case Respond(i, _) => InPhase(p, i, First)
    case Serve(r, newJti) => r < |p.refreshes| && p.refreshes[r].Requested? && newJti !in p.server.issued
    case ServeFails(r, _) => r < |p.refreshes| && p.refreshes[r].Requested?
    case Deliver(r) => r < |p.refreshes| && p.refreshes[r].Answering?
    case Lose(r) => r < |p.refreshes| && InFlight(p.refreshes[r])
    case TabSends => true
    case Settle(r) => r < |p.refreshes| && p.refreshes[r].Resolved?
    case Resume(i) =>
      InPhase(p, i, Waiting) && p.calls[i].joined.Some? && p.calls[i].joined.value < |p.refreshes|
      && p.refreshes[p.calls[i].joined.value].Settled?
    case RespondAgain(i, _) => InPhase(p, i, Second)
    case SignIn(userId, newJti) => RT.Enabled(p.server, RT.SignIn(userId, newJti))
    case Logout(_) => true
    case Elsewhere(st) => RT.Enabled(p.server, st) && Foreign(p, st)
  }

  function SetCall(p: Page, i: nat, call: Call): Page
    requires i < |p.calls|
  {
    p.(calls := p.calls[i := call])
  }

  function SetRefresh(p: Page, r: nat, refresh: Refresh): Page
    requires r < |p.refreshes|
  {
    p.(refreshes := p.refreshes[r := refresh])
  }

  /** refreshTokens(): join the refresh in flight, or send one and remember it. */
  function Joined(p: Page, i: nat): Page
    requires i < |p.calls|
  {
    var call := p.calls[i];
    match p.current
    case Some(r) => SetCall(p, i, call.(phase := Waiting, joined := Some(r)))
    case None =>
      var r := |p.refreshes|;
      Sent(SetCall(p, i, call.(phase := Waiting, joined := Some(r)))).(current := Some(r))
  }

  function Finish(p: Page, i: nat, outcome: Outcome): Page
    requires i < |p.calls|
  {
    SetCall(p, i, p.calls[i].(phase := Done(outcome)))
  }

  /** The server's side of a refresh: validate, consume, exchange. */
  function Served(p: Page, r: nat, cookie: Option<RT.Claims>, newJti: string): Page
    requires r < |p.refreshes| && newJti !in p.server.issued
  {
    if !Presentable(p, cookie) then SetRefresh(p, r, Answering(Refused(RT.InvalidToken)))
    else
      var tok := cookie.value;
      var validated := RT.Apply(p.server, RT.Validate(tok));
      var server := RT.Apply(validated, RT.Consume(tok, newJti));
      match RT.Exchanged(p.server.blacklist, p.server.users.Keys, tok, p.server.now, newJti)
      case Ok(pair) =>
        SetRefresh(p, r, Answering(Granted(pair.refresh))).(server := server, owned := p.owned + {newJti})
      case Err(e) =>
        SetRefresh(p, r, Answering(Refused(e))).(server := server, spoiled := p.spoiled || e == RT.UnknownUser)
  }

  /** A database call fails: before the token was consumed, or after. */
  function Failed(p: Page, r: nat, applied: bool): Page
    requires r < |p.refreshes| && p.refreshes[r].Requested?
  {
    var cookie := p.refreshes[r].cookie;
    var answered := SetRefresh(p, r, Answering(Refused(RT.Storage)));
    if !applied || !Presentable(p, cookie) then answered
    else
      var validated := RT.Apply(p.server, RT.Validate(cookie.value));
      answered.(server := RT.Apply(validated, RT.Spend(cookie.value)), spoiled := true)
  }

  function Apply(p: Page, st: Step): Page
    requires Enabled(p, st)
  {
    match st
    case Begin(auth) => p.(calls := p.calls + [Call(auth, First, 1, None)])
    case Respond(i, response) =>
      (match response
       case Good => Finish(p, i, Success)
       case OtherError => Finish(p, i, HttpError)
       case Unauthorized => if p.calls[i].auth then Finish(p, i, HttpError) else Joined(p, i))
    case Serve(r, newJti) => Served(p, r, p.refreshes[r].cookie, newJti)
    case ServeFails(r, applied) => Failed(p, r, applied)
    case TabSends => Sent(p).(tabs := p.tabs + {|p.refreshes|})
    case Deliver(r) =>
      (match p.refreshes[r].reply
       case Granted(tok) => SetRefresh(p, r, Resolved(true)).(cookie := Some(tok))
       case Refused(_) => SetRefresh(p, r, Resolved(false)))
    case Lose(r) => SetRefresh(p, r, Resolved(false)).(spoiled := true)
    case Settle(r) =>
      SetRefresh(p, r, Settled(p.refreshes[r].ok)).(current := if p.current == Some(r) then None else p.current)
    case Resume(i) =>
      var call := p.calls[i];
      if p.refreshes[call.joined.value].ok then SetCall(p, i, call.(phase := Second, fetches := call.fetches + 1))
      else Finish(p, i, SessionExpired)
    case RespondAgain(i, response) => Finish(p, i, if response.Good? then Success else HttpError)
    case SignIn(userId, newJti) =>
      var server := RT.Apply(p.server, RT.SignIn(userId, newJti));
      p.(server := server, cookie := Some(server.issued[newJti]), owned := p.owned + {newJti})
    case Logout(write) =>
      var server :=
        if Presentable(p, p.cookie) then RT.Apply(p.server, RT.Step.Logout(p.cookie.value, write)) else p.server;
      p.(server := server, cookie := None, spoiled := p.spoiled || AnyInFlight(p))
    case Elsewhere(st) => p.(server := RT.Apply(p.server, st))
  }

  ghost predicate Runs(p: Page, steps: seq<Step>)
    decreases |steps|
  {
    |steps| > 0 ==> Enabled(p, steps[0]) && Runs(Apply(p, steps[0]), steps[1..])
  }

  ghost function After(p: Page, steps: seq<Step>): Page
    requires Runs(p, steps)
    decreases |steps|
  {
    if |steps| == 0 then p else After(Apply(p, steps[0]), steps[1..])
  }

  function Initial(server: RT.State): Page {
    Page([], [], {}, None, None, {}, false, server)
  }

  // ---------------------------------------------------------------- invariants

  /** One refresh of this page at most has not settled, and it is the one the module remembers. */
  ghost predicate SingleFlight(p: Page) {
    && (forall r :: r in p.tabs ==> r < |p.refreshes|)
    && (forall r :: 0 <= r < |p.refreshes| && r !in p.tabs && !p.refreshes[r].Settled? ==> p.current == Some(r))
    && (p.current.Some? ==>
          p.current.value < |p.refreshes| && p.current.value !in p.tabs && !p.refreshes[p.current.value].Settled?)
  }

  /** Unless something overlapped, only the last refresh sent can be in flight. */
  ghost predicate LastOnly(p: Page) {
    !p.spoiled ==> forall r :: 0 <= r < |p.refreshes| - 1 ==> !InFlight(p.refreshes[r])
  }

  /** Two fetches at most; who waited went on as the refresh it joined turned out. */
  ghost predicate CallInv(p: Page, call: Call) {
    && 1 <= call.fetches <= 2
    && (call.phase.First? || call.phase.Waiting? ==> call.fetches == 1)
    && (call.phase.Waiting? ==> call.joined.Some? && call.joined.value < |p.refreshes|)
    && (call.fetches == 2 ==>
          call.joined.Some? && call.joined.value < |p.refreshes| && p.refreshes[call.joined.value] == Settled(true))
    && (call.phase == Done(SessionExpired) ==>
          call.joined.Some? && call.joined.value < |p.refreshes| && p.refreshes[call.joined.value] == Settled(false))
    && (call.auth ==> call.joined.None?)
  }

  predicate Held(p: Page, tok: RT.Claims) {
    RT.Genuine(p.server, tok) && tok.jti in p.owned
  }

  predicate Unspent(p: Page, tok: RT.Claims) { tok.jti !in p.server.blacklist }

  /** The tokens in the browser's hands are genuine, and unless it was spoiled the next one to be shown is unspent. */
  ghost predicate TokenInv(p: Page) {
    RT.Inv(p.server) && p.owned <= p.server.issued.Keys && HandInv(p) && LastOnly(p)
  }

  ghost predicate HandInv(p: Page) {
    && (p.cookie.Some? ==> Held(p, p.cookie.value))
    && (forall r :: 0 <= r < |p.refreshes| ==> RefreshInv(p, p.refreshes[r]))
    && (!p.spoiled && p.cookie.Some? && !Replacing(p) ==> Unspent(p, p.cookie.value))
  }

  predicate RefreshInv(p: Page, refresh: Refresh) {
    match refresh
    case Requested(Some(tok)) => Held(p, tok) && (!p.spoiled ==> Unspent(p, tok))
    case Answering(Granted(tok)) => Held(p, tok) && (!p.spoiled ==> Unspent(p, tok))
    case Answering(Refused(e)) => !p.spoiled ==> e != RT.Replayed
    case _ => true
  }

  /** A granted token is on its way to replace the cookie. */
  predicate Replacing(p: Page) {
    |p.refreshes| > 0 && p.refreshes[|p.refreshes| - 1].Answering? && p.refreshes[|p.refreshes| - 1].reply.Granted?
  }

  ghost predicate Inv(p: Page) {
    SingleFlight(p) && TokenInv(p) && forall i :: 0 <= i < |p.calls| ==> CallInv(p, p.calls[i])
  }

  lemma CallKeepsSingleFlight(p: Page, st: Step)
    requires SingleFlight(p) && Enabled(p, st) && (st.Begin? || Caller(st).Some?)
    ensures SingleFlight(Apply(p, st))
  {
  }

  lemma RefreshKeepsSingleFlight(p: Page, st: Step)
    requires SingleFlight(p) && Enabled(p, st)
    requires st.Serve? || st.ServeFails? || st.Deliver? || st.Lose? || st.Settle? || st.TabSends?
    ensures SingleFlight(Apply(p, st))
  {
  }

  lemma StepKeepsSingleFlight(p: Page, st: Step)
    requires SingleFlight(p) && Enabled(p, st)
    ensures SingleFlight(Apply(p, st))
  {
    match st
    case Begin(_) => CallKeepsSingleFlight(p, st);
    case Respond(_, _) => CallKeepsSingleFlight(p, st);
    case Resume(_) => CallKeepsSingleFlight(p, st);
    case RespondAgain(_, _) => CallKeepsSingleFlight(p, st);
    case SignIn(_, _) =>
    case Logout(_) =>
    case Elsewhere(_) =>
    case _ => RefreshKeepsSingleFlight(p, st);
  }

  ghost predicate SettledStay(p: Page, p': Page) {
    && |p.refreshes| <= |p'.refreshes|
    && forall r :: 0 <= r < |p.refreshes| && p.refreshes[r].Settled? ==> p'.refreshes[r] == p.refreshes[r]
  }

  lemma StepKeepsSettled(p: Page, st: Step)
    requires Enabled(p, st)
    ensures SettledStay(p, Apply(p, st))
  {
  }

  /** The calls, other than the one that acts, are as they were. */
  lemma OthersWait(p: Page, st: Step, i: nat)
    requires Enabled(p, st) && i < |p.calls| && Caller(st) != Some(i)
    ensures i < |Apply(p, st).calls| && Apply(p, st).calls[i] == p.calls[i]
  {
  }

  function Caller(st: Step): Option<nat> {
    match st
    case Respond(i, _) => Some(i)
    case Resume(i) => Some(i)
    case RespondAgain(i, _) => Some(i)
    case _ => None
  }

  lemma CallerKeepsItsInv(p: Page, st: Step, i: nat)
    requires SingleFlight(p) && Enabled(p, st) && Caller(st) == Some(i) && CallInv(p, p.calls[i])
    ensures CallInv(Apply(p, st), Apply(p, st).calls[i])
  {
  }

  lemma StepKeepsCalls(p: Page, st: Step, i: nat)
    requires SingleFlight(p) && Enabled(p, st) && i < |Apply(p, st).calls|
    requires forall k :: 0 <= k < |p.calls| ==> CallInv(p, p.calls[k])
    ensures CallInv(Apply(p, st), Apply(p, st).calls[i])
  {
    if Caller(st) == Some(i) {
      CallerKeepsItsInv(p, st, i);
    } else if i < |p.calls| {
      assert CallInv(p, p.calls[i]);
      StepKeepsSettled(p, st);
      OthersWait(p, st, i);
    }
  }

  /** Server steps that leave this browser's tokens alone keep them genuine and unspent. */
  lemma ForeignStepSpares(p: Page, st: RT.Step)
    requires RT.Inv(p.server) && RT.Enabled(p.server, st) && Foreign(p, st)
    ensures var server := RT.Apply(p.server, st);
      && RT.Inv(server) && p.server.issued.Keys <= server.issued.Keys
      && (forall jti :: jti in p.server.issued ==> server.issued[jti] == p.server.issued[jti])
      && (forall jti :: jti in p.owned && jti !in p.server.blacklist ==> jti !in server.blacklist)
  {
    RT.StepKeepsInv(p.server, st);
    RT.StepKeepsRecords(p.server, st);
  }

  /** Serving a refresh spends the token shown and, when it grants, replaces it with an unspent one. */
  lemma ServingReplaces(p: Page, r: nat, tok: RT.Claims, newJti: string)
    requires RT.Inv(p.server) && r < |p.refreshes| && newJti !in p.server.issued && Presentable(p, Some(tok))
    ensures var p' := Served(p, r, Some(tok), newJti);
      && RT.Inv(p'.server) && p.server.issued.Keys <= p'.server.issued.Keys
      && (forall jti :: jti in p.server.issued ==> p'.server.issued[jti] == p.server.issued[jti])
      && (forall jti :: jti in p.server.issued && jti != tok.jti && jti !in p.server.blacklist ==>
            jti !in p'.server.blacklist)
      && p'.refreshes[r].Answering?
      && (p'.refreshes[r].reply == Refused(RT.Replayed) <==> tok.jti in p.server.blacklist)
      && (p'.refreshes[r].reply.Granted? ==>
            Held(p', p'.refreshes[r].reply.tok) && Unspent(p', p'.refreshes[r].reply.tok))
      && (p'.refreshes[r].reply.Refused? ==> p'.spoiled || p'.refreshes[r].reply.error == RT.Replayed)
  {
    var validated := RT.Apply(p.server, RT.Validate(tok));
    RT.StepKeepsInv(p.server, RT.Validate(tok));
    RT.StepKeepsInv(validated, RT.Consume(tok, newJti));
    RT.StepKeepsRecords(validated, RT.Consume(tok, newJti));
    assert RT.Genuine(p.server, tok);
    assert newJti !in p.server.blacklist;
  }

  /** A cookie the server does not accept leaves everything as it was. */
  lemma RejectionKeepsTokens(p: Page, r: nat, newJti: string)
    requires TokenInv(p) && Enabled(p, Serve(r, newJti)) && !Presentable(p, p.refreshes[r].cookie)
    ensures TokenInv(Apply(p, Serve(r, newJti)))
  {
    var p' := Apply(p, Serve(r, newJti));
    forall k | 0 <= k < |p'.refreshes| ensures RefreshInv(p', p'.refreshes[k]) {
      assert RefreshInv(p, p.refreshes[k]);
    }
  }

  lemma ServedKeepsRefresh(p: Page, r: nat, newJti: string, k: nat)
    requires TokenInv(p) && Enabled(p, Serve(r, newJti)) && Presentable(p, p.refreshes[r].cookie) && k < |p.refreshes|
    ensures var p' := Apply(p, Serve(r, newJti)); |p'.refreshes| == |p.refreshes| && RefreshInv(p', p'.refreshes[k])
  {
    ServingReplaces(p, r, p.refreshes[r].cookie.value, newJti);
    assert RefreshInv(p, p.refreshes[r]) && RefreshInv(p, p.refreshes[k]);
    assert k != r && !p.spoiled ==> !InFlight(p.refreshes[k]);
  }

  lemma ServedKeepsCookie(p: Page, r: nat, newJti: string)
    requires TokenInv(p) && Enabled(p, Serve(r, newJti)) && Presentable(p, p.refreshes[r].cookie)
    ensures var p' := Apply(p, Serve(r, newJti));
      && (p'.cookie.Some? ==> Held(p', p'.cookie.value))
      && (!p'.spoiled && p'.cookie.Some? && !Replacing(p') ==> Unspent(p', p'.cookie.value))
  {
    ServingReplaces(p, r, p.refreshes[r].cookie.value, newJti);
    assert RefreshInv(p, p.refreshes[r]);
    assert !p.spoiled ==> r == |p.refreshes| - 1;
  }

  lemma ServeKeepsTokens(p: Page, r: nat, newJti: string)
    requires TokenInv(p) && Enabled(p, Serve(r, newJti))
    ensures TokenInv(Apply(p, Serve(r, newJti)))
  {
    var p' := Apply(p, Serve(r, newJti));
    var cookie := p.refreshes[r].cookie;
    if Presentable(p, cookie) {
      ServingReplaces(p, r, cookie.value, newJti);
      ServedKeepsCookie(p, r, newJti);
      assert HandInv(p') by {
        forall k | 0 <= k < |p'.refreshes| ensures RefreshInv(p', p'.refreshes[k]) {
          ServedKeepsRefresh(p, r, newJti, k);
        }
      }
    } else {
      RejectionKeepsTokens(p, r, newJti);
    }
  }

  /** A refresh refused for a failing database call leaves genuine tokens genuine. */
  lemma FailureKeepsTokens(p: Page, r: nat, applied: bool)
    requires TokenInv(p) && Enabled(p, ServeFails(r, applied))
    ensures TokenInv(Apply(p, ServeFails(r, applied)))
  {
    var p' := Apply(p, ServeFails(r, applied));
    var cookie := p.refreshes[r].cookie;
    if applied && Presentable(p, cookie) {
      var validated := RT.Apply(p.server, RT.Validate(cookie.value));
      RT.StepKeepsInv(p.server, RT.Validate(cookie.value));
      RT.StepKeepsInv(validated, RT.Spend(cookie.value));
    }
    forall k | 0 <= k < |p'.refreshes| ensures RefreshInv(p', p'.refreshes[k]) {
      assert RefreshInv(p, p.refreshes[k]);
    }
  }

  /** Sending a refresh alone shows an unspent token; overlapping another is recorded. */
  lemma SendingKeepsTokens(p: Page)
    requires TokenInv(p)
    ensures TokenInv(Sent(p))
  {
    var p' := Sent(p);
    if !p'.spoiled {
      assert !Replacing(p);
    }
    forall k | 0 <= k < |p'.refreshes| ensures RefreshInv(p', p'.refreshes[k]) {
      if k < |p.refreshes| {
        assert RefreshInv(p, p.refreshes[k]);
      }
    }
  }

  lemma ServerMoveKeepsTokens(p: Page, p': Page)
    requires TokenInv(p) && RT.Inv(p'.server)
    requires p' == p.(server := p'.server)
    requires p.server.issued.Keys <= p'.server.issued.Keys
    requires forall jti :: jti in p.server.issued ==> p'.server.issued[jti] == p.server.issued[jti]
    requires forall jti :: jti in p.owned && jti !in p.server.blacklist ==> jti !in p'.server.blacklist
    ensures TokenInv(p')
  {
  }

  lemma SignInKeepsTokens(p: Page, userId: string, newJti: string)
    requires TokenInv(p) && Enabled(p, SignIn(userId, newJti))
    ensures TokenInv(Apply(p, SignIn(userId, newJti)))
  {
    var p' := Apply(p, SignIn(userId, newJti));
    ForeignStepSpares(p, RT.SignIn(userId, newJti));
    ServerMoveKeepsTokens(p, p.(server := p'.server));
    forall k | 0 <= k < |p'.refreshes| ensures RefreshInv(p', p'.refreshes[k]) {
      assert RefreshInv(p.(server := p'.server), p.refreshes[k]);
    }
    assert newJti !in p.server.blacklist;
  }

  lemma LogoutKeepsTokens(p: Page, write: Write)
    requires TokenInv(p)
    ensures TokenInv(Apply(p, Logout(write)))
  {
    var p' := Apply(p, Logout(write));
    if Presentable(p, p.cookie) {
      RT.StepKeepsInv(p.server, RT.Step.Logout(p.cookie.value, write));
      RT.StepKeepsRecords(p.server, RT.Step.Logout(p.cookie.value, write));
    }
    forall k | 0 <= k < |p'.refreshes| ensures RefreshInv(p', p'.refreshes[k]) {
      assert RefreshInv(p, p.refreshes[k]);
    }
  }

  /** The step of a call that sends no refresh touches no token. */
  lemma CallStepKeepsTokens(p: Page, p': Page)
    requires TokenInv(p) && p' == p.(calls := p'.calls, tabs := p'.tabs, current := p'.current)
    ensures TokenInv(p')
  {
    forall k | 0 <= k < |p'.refreshes| ensures RefreshInv(p', p'.refreshes[k]) {
      assert RefreshInv(p, p.refreshes[k]);
    }
  }

  lemma DeliveryKeepsTokens(p: Page, r: nat)
    requires TokenInv(p) && Enabled(p, Deliver(r))
    ensures TokenInv(Apply(p, Deliver(r)))
  {
    var p' := Apply(p, Deliver(r));
    assert RefreshInv(p, p.refreshes[r]);
    forall k | 0 <= k < |p'.refreshes| ensures RefreshInv(p', p'.refreshes[k]) {
      assert RefreshInv(p, p.refreshes[k]);
    }
  }

  lemma EndingKeepsTokens(p: Page, st: Step)
    requires TokenInv(p) && Enabled(p, st) && (st.Lose? || st.Settle?)
    ensures TokenInv(Apply(p, st))
  {
    var p' := Apply(p, st);
    forall k | 0 <= k < |p'.refreshes| ensures RefreshInv(p', p'.refreshes[k]) {
      assert RefreshInv(p, p.refreshes[k]);
    }
  }

  lemma ResponseKeepsTokens(p: Page, i: nat, response: Response)
    requires TokenInv(p) && Enabled(p, Respond(i, response))
    ensures TokenInv(Apply(p, Respond(i, response)))
  {
    var p' := Apply(p, Respond(i, response));
    if p'.refreshes == p.refreshes {
      CallStepKeepsTokens(p, p');
    } else {
      var waiting := p.(calls := p'.calls);
      CallStepKeepsTokens(p, waiting);
      SendingKeepsTokens(waiting);
      CallStepKeepsTokens(Sent(waiting), p');
    }
  }

  lemma StepKeepsTokens(p: Page, st: Step)
    requires TokenInv(p) && Enabled(p, st)
    ensures TokenInv(Apply(p, st))
  {
    match st
    case Serve(r, newJti) => ServeKeepsTokens(p, r, newJti);
    case ServeFails(r, applied) => FailureKeepsTokens(p, r, applied);
    case SignIn(userId, newJti) => SignInKeepsTokens(p, userId, newJti);
    case Logout(write) => LogoutKeepsTokens(p, write);
    case Elsewhere(rt) =>
      ForeignStepSpares(p, rt);
      ServerMoveKeepsTokens(p, Apply(p, st));
    case TabSends =>
      SendingKeepsTokens(p);
      CallStepKeepsTokens(Sent(p), Apply(p, st));
    case Respond(i, response) => ResponseKeepsTokens(p, i, response);
    case Deliver(r) => DeliveryKeepsTokens(p, r);
    case Lose(_) => EndingKeepsTokens(p, st);
    case Settle(_) => EndingKeepsTokens(p, st);
    case _ => CallStepKeepsTokens(p, Apply(p, st));
  }

  lemma StepKeepsInv(p: Page, st: Step)
    requires Inv(p) && Enabled(p, st)
    ensures Inv(Apply(p, st))
  {
    StepKeepsSingleFlight(p, st);
    StepKeepsTokens(p, st);
    forall i | 0 <= i < |Apply(p, st).calls| ensures CallInv(Apply(p, st), Apply(p, st).calls[i]) {
      StepKeepsCalls(p, st, i);
    }
  }

  lemma {:induction false} RunKeepsInv(p: Page, steps: seq<Step>)
    requires Inv(p) && Runs(p, steps)
    ensures Inv(After(p, steps))
    decreases |steps|
  {
    if |steps| > 0 {
      StepKeepsInv(p, steps[0]);
      RunKeepsInv(Apply(p, steps[0]), steps[1..]);
    }
  }

  // ---------------------------------------------------------------- what the page promises

  /**
   * Over every run of the page with its server and the browser's other tabs: one
   * refresh of the page in flight at most, two fetches per call at most, a session
   * reported expired only after the joined refresh failed, and no refresh of any
   * tab refused as a replay unless a response was lost, the server spent a token
   * without replacing it, or a logout or another tab's refresh overlapped one.
   */
  lemma PageIsSound(server: RT.State, steps: seq<Step>)
    requires RT.Inv(server) && Runs(Initial(server), steps)
    ensures var p := After(Initial(server), steps);
      && SingleFlight(p)
      && (forall i :: 0 <= i < |p.calls| ==> CallInv(p, p.calls[i]))
      && (!p.spoiled ==> forall r :: 0 <= r < |p.refreshes| && p.refreshes[r].Answering? ==>
            p.refreshes[r].reply != Refused(RT.Replayed))
  {
    RunKeepsInv(Initial(server), steps);
    var p := After(Initial(server), steps);
    forall r | 0 <= r < |p.refreshes| ensures RefreshInv(p, p.refreshes[r]) {}
  }

  /** This page starts a refresh exactly when one of its calls sees a 401 and none of its own is in flight. */
  lemma SendsIffNoneInFlight(p: Page, st: Step)
    requires SingleFlight(p) && Enabled(p, st)
    ensures (exists q :: |p.refreshes| <= q < |Apply(p, st).refreshes| && q !in Apply(p, st).tabs)
       <==> st.Respond? && st.response.Unauthorized? && !p.calls[st.i].auth
            && forall r :: 0 <= r < |p.refreshes| && r !in p.tabs ==> p.refreshes[r].Settled?
  {
    var p' := Apply(p, st);
    if st.Respond? && |p'.refreshes| > |p.refreshes| {
      assert |p.refreshes| !in p'.tabs;
    }
  }

  /** A call that newly waits in p' waits for refresh r. */
  ghost predicate NewWaitersJoin(p: Page, p': Page, r: nat) {
    && |p.calls| <= |p'.calls|
    && forall i :: 0 <= i < |p'.calls| && p'.calls[i].phase.Waiting? ==>
         p'.calls[i].joined == Some(r) || (i < |p.calls| && p'.calls[i] == p.calls[i])
  }

  /** Only tabs other than this page have sent anything between p and p'. */
  ghost predicate NothingSent(p: Page, p': Page) {
    && |p.refreshes| <= |p'.refreshes| && p.tabs <= p'.tabs
    && forall q :: |p.refreshes| <= q < |p'.refreshes| ==> q in p'.tabs
  }

  lemma StepJoins(p: Page, st: Step, r: nat)
    requires SingleFlight(p) && Enabled(p, st) && p.current == Some(r)
    ensures NothingSent(p, Apply(p, st)) && NewWaitersJoin(p, Apply(p, st), r)
  {
    var p' := Apply(p, st);
    forall i | 0 <= i < |p'.calls| && p'.calls[i].phase.Waiting?
      ensures p'.calls[i].joined == Some(r) || (i < |p.calls| && p'.calls[i] == p.calls[i])
    {
      if Caller(st) != Some(i) && i < |p.calls| {
        OthersWait(p, st, i);
      }
    }
  }

  lemma StepKeepsTabs(p: Page, st: Step, r: nat)
    requires Enabled(p, st) && r < |p.refreshes| && r !in p.tabs
    ensures r < |Apply(p, st).refreshes| && r !in Apply(p, st).tabs
  {
    StepKeepsSettled(p, st);
  }

  /** A refresh of this page that has not settled is the one remembered. */
  lemma StaysCurrent(p: Page, steps: seq<Step>, r: nat)
    requires Inv(p) && Runs(p, steps) && r < |p.refreshes| && r !in p.tabs
    requires |p.refreshes| <= |After(p, steps).refreshes| && !After(p, steps).refreshes[r].Settled?
    ensures p.current == Some(r)
  {
    RunKeepsSettled(p, steps);
  }

  /**
   * However a run goes on while a refresh of this page has not settled, the page
   * sends no other, and every call that meets a 401 meanwhile waits for that one.
   */
  lemma {:induction false} CallsShareTheRefresh(p: Page, steps: seq<Step>, r: nat)
    requires Inv(p) && Runs(p, steps) && p.current == Some(r)
    requires r < |After(p, steps).refreshes| && !After(p, steps).refreshes[r].Settled?
    ensures NothingSent(p, After(p, steps)) && NewWaitersJoin(p, After(p, steps), r)
    decreases |steps|
  {
    if |steps| > 0 {
      var p' := Apply(p, steps[0]);
      StepKeepsInv(p, steps[0]);
      StepJoins(p, steps[0], r);
      RunKeepsSettled(p', steps[1..]);
      StepKeepsTabs(p, steps[0], r);
      StaysCurrent(p', steps[1..], r);
      CallsShareTheRefresh(p', steps[1..], r);
    }
  }

  lemma {:induction false} RunKeepsSettled(p: Page, steps: seq<Step>)
    requires Runs(p, steps)
    ensures SettledStay(p, After(p, steps))
    decreases |steps|
  {
    if |steps| > 0 {
      StepKeepsSettled(p, steps[0]);
      RunKeepsSettled(Apply(p, steps[0]), steps[1..]);
    }
  }

  /** A refresh is refused as a replay exactly when the token it carries is spent. */
  lemma ReplayIffSpent(p: Page, r: nat, newJti: string)
    requires Inv(p) && Enabled(p, Serve(r, newJti)) && Presentable(p, p.refreshes[r].cookie)
    ensures Apply(p, Serve(r, newJti)).refreshes[r].reply == Refused(RT.Replayed)
       <==> !Unspent(p, p.refreshes[r].cookie.value)
  {
  }

  /** What the server answers to a refresh, told from the cookie it carries. */
  lemma ServedAsPresented(p: Page, r: nat, newJti: string)
    requires Enabled(p, Serve(r, newJti))
    ensures var cookie := p.refreshes[r].cookie;
      var reply := Apply(p, Serve(r, newJti)).refreshes[r].reply;
      if !Presentable(p, cookie) then reply == Refused(RT.InvalidToken)
      else if !Unspent(p, cookie.value) then reply == Refused(RT.Replayed)
      else if cookie.value.subject !in p.server.users then reply == Refused(RT.UnknownUser)
      else reply == Granted(RT.NewRefresh(newJti, cookie.value.subject, p.server.now))
  {
  }

  /** A refresh whose database calls fail is refused for that; its token is spent exactly if it came as far. */
  lemma FailureIsToldAsStorage(p: Page, r: nat, applied: bool)
    requires Enabled(p, ServeFails(r, applied))
    ensures var cookie, p' := p.refreshes[r].cookie, Apply(p, ServeFails(r, applied));
      && p'.refreshes[r] == Answering(Refused(RT.Storage))
      && (applied && Presentable(p, cookie) ==> !Unspent(p', cookie.value))
      && (!(applied && Presentable(p, cookie)) ==> p'.server == p.server)
  {
  }

  /** Logging out takes the cookie from the browser, and lists it unless the write is rejected. */
  lemma LogoutTakesTheCookie(p: Page, write: Write)
    ensures Apply(p, Logout(write)).cookie.None?
    ensures Presentable(p, p.cookie) && !write.Rejected? ==> !Unspent(Apply(p, Logout(write)), p.cookie.value)
    ensures !Presentable(p, p.cookie) || write.Rejected? ==> Apply(p, Logout(write)).server == p.server
  {
  }

  /** Losing the response to a granted refresh leaves a spent cookie behind: the next refresh is a replay. */
  lemma LostResponseSpoilsTheCookie(p: Page, r: nat, newJti: string)
    requires Inv(p) && Enabled(p, Serve(r, newJti)) && p.refreshes[r].cookie == p.cookie
    requires Presentable(p, p.cookie) && p.cookie.value.subject in p.server.users && Unspent(p, p.cookie.value)
    ensures var served := Apply(p, Serve(r, newJti));
      && Enabled(served, Lose(r))
      && var lost := Apply(served, Lose(r));
         lost.spoiled && lost.cookie == p.cookie && !Unspent(lost, lost.cookie.value)
  {
  }

  /** This page's refresh is on its way with the cookie that another tab now sends too. */
  ghost predicate TabOverlaps(p: Page, r: nat, tabJti: string, pageJti: string) {
    && Inv(p) && p.current == Some(r) && r < |p.refreshes| && p.refreshes[r] == Requested(p.cookie)
    && Presentable(p, p.cookie) && Unspent(p, p.cookie.value) && p.cookie.value.subject in p.server.users
    && tabJti != pageJti && tabJti !in p.server.issued && pageJti !in p.server.issued
  }

  lemma TabSent(p: Page, r: nat, tabJti: string, pageJti: string)
    requires TabOverlaps(p, r, tabJti, pageJti)
    ensures var q, both := |p.refreshes|, Apply(p, TabSends);
      && Inv(both) && both.spoiled && |both.refreshes| == q + 1 && both.server == p.server
      && both.refreshes[q] == both.refreshes[r] == Requested(p.cookie)
  {
    StepKeepsInv(p, TabSends);
  }

  lemma TabIsServed(p: Page, r: nat, tabJti: string, pageJti: string) returns (first: Page)
    requires TabOverlaps(p, r, tabJti, pageJti)
    ensures var q, both := |p.refreshes|, Apply(p, TabSends);
      && both.spoiled && Enabled(both, Serve(q, tabJti)) && first == Apply(both, Serve(q, tabJti))
      && first.refreshes[q].reply.Granted?
    ensures Inv(first) && Enabled(first, Serve(r, pageJti)) && first.refreshes[r].cookie == p.cookie
    ensures Presentable(first, p.cookie) && !Unspent(first, p.cookie.value)
  {
    var q, both := |p.refreshes|, Apply(p, TabSends);
    TabSent(p, r, tabJti, pageJti);
    StepKeepsInv(both, Serve(q, tabJti));
    first := ServedOnce(both, q, p.cookie.value, tabJti);
  }

  /** An unspent token of a known user, served, is spent, still shown as genuine, and replaced. */
  lemma ServedOnce(p: Page, q: nat, tok: RT.Claims, newJti: string) returns (p': Page)
    requires Inv(p) && Enabled(p, Serve(q, newJti)) && p.refreshes[q] == Requested(Some(tok))
    requires Presentable(p, Some(tok)) && Unspent(p, tok) && tok.subject in p.server.users
    ensures p' == Apply(p, Serve(q, newJti)) && |p'.refreshes| == |p.refreshes|
    ensures p'.refreshes[q].Answering? && p'.refreshes[q].reply.Granted?
    ensures forall k :: 0 <= k < |p.refreshes| && k != q ==> p'.refreshes[k] == p.refreshes[k]
    ensures p'.server.issued.Keys == p.server.issued.Keys + {newJti}
    ensures Presentable(p', Some(tok)) && !Unspent(p', tok)
  {
    p' := Apply(p, Serve(q, newJti));
    assert RT.Genuine(p.server, tok);
  }

  /**
   * Tabs do not share a refresh: when another tab refreshes with the cookie that
   * this page's refresh carries, and the server meets the other tab's first, this
   * page's is refused as a replay.
   */
  lemma TabsRefreshTwice(p: Page, r: nat, tabJti: string, pageJti: string)
    requires TabOverlaps(p, r, tabJti, pageJti)
    ensures var steps := [TabSends, Serve(|p.refreshes|, tabJti), Serve(r, pageJti)];
      && Runs(p, steps) && r < |After(p, steps).refreshes|
      && After(p, steps).refreshes[r] == Answering(Refused(RT.Replayed))
  {
    var first := TabIsServed(p, r, tabJti, pageJti);
    ReplayIffSpent(first, r, pageJti);
    ThreeSteps(p, TabSends, Serve(|p.refreshes|, tabJti), Serve(r, pageJti));
  }

  /** A browser opened on a server with one user and nothing issued. */
  function Opened(userId: string): Page { Initial(RT.Initial(0, 0, map[userId := None])) }

  /** Such an overlap is reached by signing in and making one call that meets a 401. */
  lemma OverlapIsReachable(userId: string, jti: string, tabJti: string, pageJti: string)
    requires jti != tabJti && jti != pageJti && tabJti != pageJti
    ensures var steps := [SignIn(userId, jti), Begin(false), Respond(0, Unauthorized)];
      Runs(Opened(userId), steps) && TabOverlaps(After(Opened(userId), steps), 0, tabJti, pageJti)
  {
    ThreeSteps(Opened(userId), SignIn(userId, jti), Begin(false), Respond(0, Unauthorized));
  }

  lemma ThreeSteps(p: Page, first: Step, second: Step, third: Step)
    requires Enabled(p, first) && Enabled(Apply(p, first), second)
    requires Enabled(Apply(Apply(p, first), second), third)
    ensures Runs(p, [first, second, third])
    ensures After(p, [first, second, third]) == Apply(Apply(Apply(p, first), second), third)
  {
    var p1 := Apply(p, first);
    var p2 := Apply(p1, second);
    StepFirst(p2, third, []);
    StepFirst(p1, second, [third]);
    StepFirst(p, first, [second, third]);
    assert [third] + [] == [third] && [second] + [third] == [second, third];
    assert [first] + [second, third] == [first, second, third];
  }

  lemma StepFirst(p: Page, st: Step, rest: seq<Step>)
    requires Enabled(p, st) && Runs(Apply(p, st), rest)
    ensures Runs(p, [st] + rest) && After(p, [st] + rest) == After(Apply(p, st), rest)
  {
    assert ([st] + rest)[1..] == rest;
  }
}
