/**
 * apps/web/src/api/client.ts and bootstrapSession of apps/web/src/main.tsx: one refresh call shared by
 * every request that comes back 401, against a server whose refresh cookie rotates on each use.
 * The network may deliver, delay or lose a reply at any point; steps interleave freely.
 */
module TokenRefresh {
  import opened JsText
  import opened Options

  // ----- the server and the network

  /** A refresh cookie: the session it belongs to and how often that session has rotated. */
  datatype Cookie = Cookie(session: nat, generation: nat)

  /** `Outage` is a network or gateway error: the only failure that does not reject the session. */
  datatype Reply =
    | Renewed(token: nat, cookie: Cookie)
    | Unusable(cookie: Cookie)
    | Refused
    | Outage
  {
    predicate Rotates() { Renewed? || Unusable? }
  }

  datatype Call = Asked(presented: Option<Cookie>) | Answered(reply: Reply)

  // ----- the page

  datatype Phase = OnWire | AwaitingRefresh(call: nat) | RefreshSettled(reply: Reply) | Finished

  datatype Request = Request(toPublicAuth: bool, sends: nat, isRetry: bool, hadAuthorization: bool, phase: Phase)

  datatype Bootstrap =
    | NotStarted
    | BootAwaiting(tokenAtStart: Option<nat>, call: nat)
    | BootSettled(tokenAtStart: Option<nat>, reply: Reply)
    | Initialized

  datatype World = World(
    refreshInFlight: Option<nat>, token: Option<nat>, header: Option<nat>,
    requests: map<nat, Request>, boot: Bootstrap,
    jar: Option<Cookie>, calls: map<nat, Call>, nextCall: nat,
    current: map<nat, nat>, nextSession: nat, nextToken: nat,
    staleShown: bool, rotationLost: bool, issuedBeforeBoot: nat)

  datatype Event =
    | Send(id: nat, url: string)
    | Unauthorized(id: nat)
    | OtherReply(id: nat)
    | Resume(id: nat)
    | BootStart(hasEverLoggedIn: bool)
    | BootResume
    | Answer(call: nat, usable: bool)
    | Arrive(call: nat)
    | Lose(call: nat)
    | Login
    | Expire(session: nat)

  /** A cookie that its own session has already rotated away. */
  predicate IsStale(w: World, c: Option<Cookie>) {
    c.Some? && c.value.session in w.current && c.value.generation != w.current[c.value.session]
  }

  predicate IsCurrent(w: World, c: Option<Cookie>) {
    c.Some? && c.value.session in w.current && c.value.generation == w.current[c.value.session]
  }

  // ----- the page's own steps

  /** `refreshRequestOnce`: start a call with the cookie in the jar, or share the one in flight. */
  function RefreshOnce(w: World): (r: World)
    ensures r.refreshInFlight.Some?
  {
    if w.refreshInFlight.Some? then w
    else w.(refreshInFlight := Some(w.nextCall),
            calls := w.calls[w.nextCall := Asked(w.jar)],
            nextCall := w.nextCall + 1,
            staleShown := w.staleShown || IsStale(w, w.jar))
  }

  /** `isSessionRejected` of what the refresh came back with; an unusable payload throws a plain error. */
  predicate IsSessionRejected(r: Reply) {
    r.Refused? || r.Unusable?
  }

  /** The login and the refresh itself: their own 401s must not wait for a refresh. */
  predicate IsPublicAuthEndpoint(url: string) {
    Contains(url, "/auth/login") || Contains(url, "/auth/refresh")
  }

  /** Which 401s wait for a refresh. */
  predicate Joins(q: Request) {
    !q.isRetry && q.hadAuthorization && !q.toPublicAuth
  }

  function OnUnauthorized(w: World, id: nat): World
    requires id in w.requests
  {
    var q := w.requests[id];
    if Joins(q) then
      var w1 := RefreshOnce(w);
      w1.(requests := w.requests[id := q.(isRetry := true, phase := AwaitingRefresh(w1.refreshInFlight.value))])
    else w.(requests := w.requests[id := q.(phase := Finished)])
  }

  function OnResume(w: World, id: nat, reply: Reply): World
    requires id in w.requests
  {
    var q := w.requests[id];
    if reply.Renewed? then
      w.(token := Some(reply.token), header := Some(reply.token),
         requests := w.requests[id := q.(sends := q.sends + 1, hadAuthorization := true, phase := OnWire)])
    else
      var done := w.requests[id := q.(phase := Finished)];
      if IsSessionRejected(reply) then w.(token := None, header := None, requests := done)
      else w.(requests := done)
  }

  function OnBootStart(w: World, hasEverLoggedIn: bool): World {
    var w1 := if w.token.Some? then w.(header := w.token) else w;
    if w.token.None? && !hasEverLoggedIn then w1.(boot := Initialized)
    else
      var w2 := RefreshOnce(w1);
      w2.(boot := BootAwaiting(w.token, w2.refreshInFlight.value), issuedBeforeBoot := w.nextToken)
  }

  function OnBootResume(w: World): World
    requires w.boot.BootSettled?
  {
    var reply, w1 := w.boot.reply, w.(boot := Initialized);
    if reply.Renewed? then w1.(token := Some(reply.token), header := Some(reply.token))
    else if IsSessionRejected(reply) && (w.token.None? || w.token == w.boot.tokenAtStart)
    then w1.(token := None, header := None)
    else w1
  }

  // ----- the whole system

  /** A reply, or its loss, reaches the page: `finally` empties the slot and every waiter is released. */
  function Settle(w: World, call: nat, reply: Reply): World {
    w.(calls := w.calls - {call},
       refreshInFlight := None,
       requests := map id | id in w.requests ::
         if w.requests[id].phase == AwaitingRefresh(call)
         then w.requests[id].(phase := RefreshSettled(reply)) else w.requests[id],
       boot := if w.boot.BootAwaiting? && w.boot.call == call
               then BootSettled(w.boot.tokenAtStart, reply) else w.boot)
  }

  /** The server: a current cookie rotates, a stale one ends its session. */
  function Served(w: World, call: nat, usable: bool): World
    requires call in w.calls && w.calls[call].Asked?
  {
    var c := w.calls[call].presented;
    if IsCurrent(w, c) then
      var next := Cookie(c.value.session, c.value.generation + 1);
      w.(current := w.current[next.session := next.generation],
         nextToken := w.nextToken + 1,
         calls := w.calls[call := Answered(if usable then Renewed(w.nextToken, next) else Unusable(next))])
    else
      w.(current := if c.Some? then w.current - {c.value.session} else w.current,
         calls := w.calls[call := Answered(Refused)])
  }

  predicate Enabled(w: World, e: Event) {
    match e
    case Send(id, _) => id !in w.requests
    case Unauthorized(id) => id in w.requests && w.requests[id].phase.OnWire?
    case OtherReply(id) => id in w.requests && w.requests[id].phase.OnWire?
    case Resume(id) => id in w.requests && w.requests[id].phase.RefreshSettled?
    case BootStart(_) => w.boot.NotStarted?
    case BootResume => w.boot.BootSettled?
    case Answer(call, _) => call in w.calls && w.calls[call].Asked?
    case Arrive(call) => call in w.calls && w.calls[call].Answered?
    case Lose(call) => call in w.calls
    case Login => true
    case Expire(_) => true
  }

  function Step(w: World, e: Event): World {
    if !Enabled(w, e) then w
    else match e
      case Send(id, url) => w.(requests := w.requests[id := Request(IsPublicAuthEndpoint(url), 1, false, w.header.Some?, OnWire)])
      case Unauthorized(id) => OnUnauthorized(w, id)
      case OtherReply(id) => w.(requests := w.requests[id := w.requests[id].(phase := Finished)])
      case Resume(id) => OnResume(w, id, w.requests[id].phase.reply)
      case BootStart(ever) => OnBootStart(w, ever)
      case BootResume => OnBootResume(w)
      case Answer(call, usable) => Served(w, call, usable)
      case Arrive(call) =>
        var reply := w.calls[call].reply;
        Settle(if reply.Rotates() then w.(jar := Some(reply.cookie)) else w, call, reply)
      case Lose(call) =>
        var lost := w.calls[call].Answered? && w.calls[call].reply.Rotates();
        Settle(w.(rotationLost := w.rotationLost || lost), call, Outage)
      case Login =>
        w.(token := Some(w.nextToken), header := Some(w.nextToken), nextToken := w.nextToken + 1,
           jar := Some(Cookie(w.nextSession, 0)), current := w.current[w.nextSession := 0],
           nextSession := w.nextSession + 1)
      case Expire(s) => w.(current := w.current - {s})
  }

  function Run(w: World, events: seq<Event>): World {
    if events == [] then w
    else Step(Run(w, events[..|events| - 1]), events[|events| - 1])
  }

  // ----- the page's steps, as it changes its variables

  class WebClient {
    var refreshInFlight: Option<nat>
    var token: Option<nat>
    var header: Option<nat>
    var requests: map<nat, Request>
    var boot: Bootstrap
    var jar: Option<Cookie>
    var calls: map<nat, Call>
    var nextCall: nat
    ghost var current: map<nat, nat>
    ghost var nextSession: nat
    ghost var nextToken: nat
    ghost var staleShown: bool
    ghost var rotationLost: bool
    ghost var issuedBeforeBoot: nat

    ghost function View(): World
      reads this
    {
      World(refreshInFlight, token, header, requests, boot, jar, calls, nextCall,
            current, nextSession, nextToken, staleShown, rotationLost, issuedBeforeBoot)
    }

    method RefreshRequestOnce() returns (call: nat)
      modifies this
      ensures View() == RefreshOnce(old(View())) && refreshInFlight == Some(call)
    {
      if refreshInFlight.None? {
        staleShown := staleShown || IsStale(View(), jar);
        refreshInFlight := Some(nextCall);
        calls := calls[nextCall := Asked(jar)];
        nextCall := nextCall + 1;
      }
      call := refreshInFlight.value;
    }

    method ApplyAccessToken(t: Option<nat>)
      modifies this`header
      ensures header == t
    {
      header := t;
    }

    /** The error interceptor up to its `await`. */
    method OnResponseError(id: nat)
      requires Enabled(View(), Unauthorized(id))
      modifies this
      ensures View() == Step(old(View()), Unauthorized(id))
    {
      var original := requests[id];
      if Joins(original) {
        var call := RefreshRequestOnce();
        requests := requests[id := original.(isRetry := true, phase := AwaitingRefresh(call))];
      } else {
        requests := requests[id := original.(phase := Finished)];
      }
    }

    /** The error interceptor after its `await`. */
    method AfterRefresh(id: nat)
      requires Enabled(View(), Resume(id))
      modifies this
      ensures View() == Step(old(View()), Resume(id))
    {
      var original := requests[id];
      var reply := original.phase.reply;
      if reply.Renewed? {
        ApplyAccessToken(Some(reply.token));
        token := Some(reply.token);
        requests := requests[id := original.(sends := original.sends + 1, hadAuthorization := true, phase := OnWire)];
      } else {
        if IsSessionRejected(reply) {
          ApplyAccessToken(None);
          token := None;
        }
        requests := requests[id := original.(phase := Finished)];
      }
    }

    method BootstrapSession(hasEverLoggedIn: bool)
      requires Enabled(View(), BootStart(hasEverLoggedIn))
      modifies this
      ensures View() == Step(old(View()), BootStart(hasEverLoggedIn))
    {
      var tokenAtStart := token;
      if tokenAtStart.Some? {
        ApplyAccessToken(tokenAtStart);
      }
      if tokenAtStart.None? && !hasEverLoggedIn {
        boot := Initialized;
        return;
      }
      var call := RefreshRequestOnce();
      boot := BootAwaiting(tokenAtStart, call);
      issuedBeforeBoot := nextToken;
    }

    method AfterBootstrapRefresh()
      requires Enabled(View(), BootResume)
      modifies this
      ensures View() == Step(old(View()), BootResume)
    {
      var reply := boot.reply;
      if reply.Renewed? {
        ApplyAccessToken(Some(reply.token));
        token := Some(reply.token);
      } else if IsSessionRejected(reply) && (token.None? || token == boot.tokenAtStart) {
        ApplyAccessToken(None);
        token := None;
      }
      boot := Initialized;
    }
  }

  // ----- what every step keeps

  /**
   * A page just loaded: nothing sent and no call out. Its jar may be stale, as when the page before it was reloaded
   * while a rotation was on its way: that rotation then counts as lost.
   */
  ghost predicate Fresh(w: World) {
    && w.refreshInFlight.None? && w.calls == map[] && w.requests == map[] && w.boot.NotStarted?
    && !w.staleShown && (w.rotationLost <==> IsStale(w, w.jar))
    && (w.jar.Some? && w.jar.value.session in w.current ==> w.jar.value.generation <= w.current[w.jar.value.session])
    && (forall s :: s in w.current ==> s < w.nextSession)
    && (w.jar.Some? ==> w.jar.value.session < w.nextSession)
    && (w.token.Some? ==> w.token.value < w.nextToken)
  }

  /** The calls that are out are exactly the one the page remembers. */
  ghost predicate OneCall(w: World) {
    && (forall c :: c in w.calls <==> w.refreshInFlight == Some(c))
    && (forall c :: c in w.calls && w.calls[c].Answered? ==> !w.calls[c].reply.Outage?)
    && (w.refreshInFlight.Some? ==> w.refreshInFlight.value < w.nextCall)
  }

  ghost predicate RequestOk(w: World, q: Request) {
    && 1 <= q.sends <= 2
    && (q.sends == 2 ==> q.isRetry)
    && (q.isRetry ==> !q.toPublicAuth)
    && (q.phase.AwaitingRefresh? ==> q.isRetry && q.sends == 1 && w.refreshInFlight == Some(q.phase.call))
    && (q.phase.RefreshSettled? ==> q.isRetry && q.sends == 1)
  }

  ghost predicate RequestsOk(w: World) {
    forall id :: id in w.requests ==> RequestOk(w, w.requests[id])
  }

  ghost predicate SessionsBounded(w: World) {
    && (forall s :: s in w.current ==> s < w.nextSession)
    && (w.jar.Some? ==> w.jar.value.session < w.nextSession)
    && (forall c :: c in w.calls ==>
          match w.calls[c]
          case Asked(p) => p.Some? ==> p.value.session < w.nextSession
          case Answered(r) => r.Rotates() ==> r.cookie.session < w.nextSession)
  }

  /** Unless a rotated reply got lost, no cookie that could still be presented has been rotated away. */
  ghost predicate CookiesOk(w: World) {
    match w.refreshInFlight
    case None => !IsStale(w, w.jar)
    case Some(c) =>
      c in w.calls &&
      match w.calls[c]
      case Asked(p) => !IsStale(w, p) && !IsStale(w, w.jar)
      case Answered(r) =>
        if r.Rotates() then
          && !IsStale(w, Some(r.cookie))
          && (IsStale(w, w.jar) ==> w.jar.value.session == r.cookie.session)
        else !IsStale(w, w.jar)
  }

  ghost predicate TokensOk(w: World) {
    match w.boot
    case BootAwaiting(t, _) => w.issuedBeforeBoot <= w.nextToken && (t.Some? ==> t.value < w.issuedBeforeBoot)
    case BootSettled(t, _) => w.issuedBeforeBoot <= w.nextToken && (t.Some? ==> t.value < w.issuedBeforeBoot)
    case _ => true
  }

  /** Every token anywhere in the page or on its way has been issued. */
  ghost predicate TokensIssued(w: World) {
    && (w.token.Some? ==> w.token.value < w.nextToken)
    && (forall c :: c in w.calls && w.calls[c].Answered? && w.calls[c].reply.Renewed? ==> w.calls[c].reply.token < w.nextToken)
    && (forall id :: id in w.requests ==>
          var p := w.requests[id].phase; p.RefreshSettled? && p.reply.Renewed? ==> p.reply.token < w.nextToken)
    && (w.boot.BootSettled? && w.boot.reply.Renewed? ==> w.boot.reply.token < w.nextToken)
  }

  ghost predicate Inv(w: World) {
    && OneCall(w) && RequestsOk(w) && SessionsBounded(w) && TokensOk(w) && TokensIssued(w)
    && (!w.rotationLost ==> CookiesOk(w) && !w.staleShown)
  }

  lemma RefreshKeepsInv(w: World)
    requires Inv(w)
    ensures Inv(RefreshOnce(w))
  {
  }

  lemma RequestKeepsInv(w: World, id: nat, q: Request)
    requires Inv(w) && RequestOk(w, q)
    requires !q.phase.RefreshSettled?
    ensures Inv(w.(requests := w.requests[id := q]))
  {
    var w' := w.(requests := w.requests[id := q]);
    forall i | i in w'.requests ensures RequestOk(w', w'.requests[i]) {
      if i != id {
        assert RequestOk(w, w.requests[i]);
      }
    }
  }

  lemma UnauthorizedKeepsInv(w: World, id: nat)
    requires Inv(w) && id in w.requests && w.requests[id].phase.OnWire?
    ensures Inv(OnUnauthorized(w, id))
  {
    var q := w.requests[id];
    assert RequestOk(w, q);
    if Joins(q) {
      RefreshKeepsInv(w);
      var w1 := RefreshOnce(w);
      RequestKeepsInv(w1, id, q.(isRetry := true, phase := AwaitingRefresh(w1.refreshInFlight.value)));
    } else {
      RequestKeepsInv(w, id, q.(phase := Finished));
    }
  }

  lemma TokenKeepsInv(w: World, t: Option<nat>)
    requires Inv(w) && (t.Some? ==> t.value < w.nextToken)
    ensures Inv(w.(token := t, header := t))
  {
    forall id | id in w.requests ensures RequestOk(w.(token := t, header := t), w.requests[id]) {
      assert RequestOk(w, w.requests[id]);
    }
  }

  lemma ResumeKeepsInv(w: World, id: nat)
    requires Inv(w) && id in w.requests && w.requests[id].phase.RefreshSettled?
    ensures Inv(OnResume(w, id, w.requests[id].phase.reply))
  {
    var q := w.requests[id];
    var reply := q.phase.reply;
    assert RequestOk(w, q);
    if reply.Renewed? {
      RequestKeepsInv(w, id, q.(sends := q.sends + 1, hadAuthorization := true, phase := OnWire));
      TokenKeepsInv(w.(requests := w.requests[id := q.(sends := q.sends + 1, hadAuthorization := true, phase := OnWire)]), Some(reply.token));
    } else {
      RequestKeepsInv(w, id, q.(phase := Finished));
      TokenKeepsInv(w.(requests := w.requests[id := q.(phase := Finished)]), None);
    }
  }

  lemma HeaderKeepsInv(w: World, h: Option<nat>)
    requires Inv(w)
    ensures Inv(w.(header := h))
  {
    forall id | id in w.requests ensures RequestOk(w.(header := h), w.requests[id]) {
      assert RequestOk(w, w.requests[id]);
    }
  }

  lemma BootKeepsInv(w: World, boot: Bootstrap, issued: nat)
    requires Inv(w) && !boot.BootSettled? && issued <= w.nextToken
    requires boot.BootAwaiting? && boot.tokenAtStart.Some? ==> boot.tokenAtStart.value < issued
    ensures Inv(w.(boot := boot, issuedBeforeBoot := issued))
  {
    forall id | id in w.requests ensures RequestOk(w.(boot := boot, issuedBeforeBoot := issued), w.requests[id]) {
      assert RequestOk(w, w.requests[id]);
    }
  }

  lemma BootStartKeepsInv(w: World, ever: bool)
    requires Inv(w) && w.boot.NotStarted?
    ensures Inv(OnBootStart(w, ever))
  {
    HeaderKeepsInv(w, w.token);
    var w1 := if w.token.Some? then w.(header := w.token) else w;
    if w.token.None? && !ever {
      BootDoneKeepsInv(w1);
    } else {
      RefreshKeepsInv(w1);
      var w2 := RefreshOnce(w1);
      BootKeepsInv(w2, BootAwaiting(w.token, w2.refreshInFlight.value), w.nextToken);
    }
  }

  lemma BootDoneKeepsInv(w: World)
    requires Inv(w)
    ensures Inv(w.(boot := Initialized))
  {
    forall id | id in w.requests ensures RequestOk(w.(boot := Initialized), w.requests[id]) {
      assert RequestOk(w, w.requests[id]);
    }
  }

  lemma SettleKeepsInv(w: World, call: nat, reply: Reply)
    requires Inv(w) && call in w.calls
    requires !w.rotationLost ==> !IsStale(w, w.jar)
    requires reply.Renewed? ==> reply.token < w.nextToken
    ensures Inv(Settle(w, call, reply))
  {
    var w' := Settle(w, call, reply);
    forall id | id in w'.requests ensures RequestOk(w', w'.requests[id]) {
      assert RequestOk(w, w.requests[id]);
    }
  }

  lemma ServedKeepsInv(w: World, call: nat, usable: bool)
    requires Inv(w) && call in w.calls && w.calls[call].Asked?
    ensures Inv(Served(w, call, usable))
  {
    var w' := Served(w, call, usable);
    forall id | id in w'.requests ensures RequestOk(w', w'.requests[id]) {
      assert RequestOk(w, w.requests[id]);
    }
  }

  lemma ArriveKeepsInv(w: World, call: nat)
    requires Inv(w) && Enabled(w, Arrive(call))
    ensures Inv(Step(w, Arrive(call)))
  {
    var reply := w.calls[call].reply;
    var w1 := if reply.Rotates() then w.(jar := Some(reply.cookie)) else w;
    assert RequestsOk(w1) by {
      forall id | id in w1.requests ensures RequestOk(w1, w1.requests[id]) {
        assert RequestOk(w, w.requests[id]);
      }
    }
    SettleKeepsInv(w1, call, reply);
  }

  lemma LoseKeepsInv(w: World, call: nat)
    requires Inv(w) && call in w.calls
    ensures Inv(Step(w, Lose(call)))
  {
    var lost := w.calls[call].Answered? && w.calls[call].reply.Rotates();
    SettleKeepsInv(w.(rotationLost := w.rotationLost || lost), call, Outage);
  }

  lemma LoginKeepsInv(w: World)
    requires Inv(w)
    ensures Inv(Step(w, Login))
  {
    var w' := Step(w, Login);
    forall id | id in w'.requests ensures RequestOk(w', w'.requests[id]) {
      assert RequestOk(w, w.requests[id]);
    }
  }

  lemma BootResumeKeepsInv(w: World)
    requires Inv(w) && w.boot.BootSettled?
    ensures Inv(OnBootResume(w))
  {
    var w1 := w.(boot := Initialized);
    BootDoneKeepsInv(w);
    TokenKeepsInv(w1, None);
    if w.boot.reply.Renewed? {
      TokenKeepsInv(w1, Some(w.boot.reply.token));
    }
  }

  lemma ExpireKeepsInv(w: World, s: nat)
    requires Inv(w)
    ensures Inv(w.(current := w.current - {s}))
  {
    var w' := w.(current := w.current - {s});
    forall id | id in w.requests ensures RequestOk(w', w.requests[id]) {
      assert RequestOk(w, w.requests[id]);
    }
  }

  lemma StepKeepsInv(w: World, e: Event)
    requires Inv(w)
    ensures Inv(Step(w, e))
  {
    if Enabled(w, e) {
      match e
      case Send(id, url) => RequestKeepsInv(w, id, Request(IsPublicAuthEndpoint(url), 1, false, w.header.Some?, OnWire));
      case Unauthorized(id) => UnauthorizedKeepsInv(w, id);
      case OtherReply(id) =>
        assert RequestOk(w, w.requests[id]);
        RequestKeepsInv(w, id, w.requests[id].(phase := Finished));
      case Resume(id) => ResumeKeepsInv(w, id);
      case BootStart(ever) => BootStartKeepsInv(w, ever);
      case BootResume => BootResumeKeepsInv(w);
      case Answer(call, usable) => ServedKeepsInv(w, call, usable);
      case Arrive(call) => ArriveKeepsInv(w, call);
      case Lose(call) => LoseKeepsInv(w, call);
      case Login => LoginKeepsInv(w);
      case Expire(s) => ExpireKeepsInv(w, s);
    }
  }

  /** A page just loaded satisfies the invariant, and every interleaving from there keeps it. */
  lemma {:induction false} RunKeepsInv(w: World, events: seq<Event>)
    requires Fresh(w) || Inv(w)
    ensures Inv(Run(w, events))
  {
    if events != [] {
      RunKeepsInv(w, events[..|events| - 1]);
      StepKeepsInv(Run(w, events[..|events| - 1]), events[|events| - 1]);
    }
  }

  // ----- main results

  /** In every interleaving one refresh is out at most, and each request is sent at most twice. */
  lemma {:induction false} SharedRefresh(w: World, events: seq<Event>)
    requires Fresh(w)
    ensures var w' := Run(w, events);
            && (forall c, d :: c in w'.calls && d in w'.calls ==> c == d)
            && (forall id :: id in w'.requests ==> w'.requests[id].sends <= 2)
            && (forall id :: id in w'.requests && w'.requests[id].phase.AwaitingRefresh? ==> w'.requests[id].phase.call in w'.calls)
  {
    RunKeepsInv(w, events);
    var w' := Run(w, events);
    forall id | id in w'.requests ensures RequestOk(w', w'.requests[id]) {}
  }

  lemma {:induction false} StaysOnWire(w: World, id: nat, events: seq<Event>)
    requires id in w.requests && w.requests[id].phase.OnWire?
    requires forall k :: 0 <= k < |events| ==> events[k] != Unauthorized(id) && events[k] != OtherReply(id)
    ensures id in Run(w, events).requests && Run(w, events).requests[id] == w.requests[id]
  {
    if events != [] {
      var n := |events| - 1;
      StaysOnWire(w, id, events[..n]);
      LeavesRequest(Run(w, events[..n]), events[n], id);
    }
  }

  lemma UnauthorizedTouchesOne(v: World, id: nat, other: nat)
    requires id in v.requests && other in v.requests && id != other
    ensures other in OnUnauthorized(v, id).requests && OnUnauthorized(v, id).requests[other] == v.requests[other]
  {
  }

  lemma ResumeTouchesOne(v: World, id: nat, other: nat)
    requires id in v.requests && v.requests[id].phase.RefreshSettled? && other in v.requests && id != other
    ensures var w' := OnResume(v, id, v.requests[id].phase.reply);
            other in w'.requests && w'.requests[other] == v.requests[other]
  {
  }

  lemma SettleTouchesWaiters(v: World, call: nat, reply: Reply, id: nat)
    requires id in v.requests && !v.requests[id].phase.AwaitingRefresh?
    ensures id in Settle(v, call, reply).requests && Settle(v, call, reply).requests[id] == v.requests[id]
  {
  }

  /** Only its own replies, its continuation and the end of its wait touch a request. */
  lemma LeavesRequest(w: World, e: Event, id: nat)
    requires id in w.requests && !w.requests[id].phase.AwaitingRefresh?
    requires Enabled(w, e) ==> e != Unauthorized(id) && e != OtherReply(id) && e != Resume(id)
    ensures id in Step(w, e).requests && Step(w, e).requests[id] == w.requests[id]
  {
    if Enabled(w, e) {
      match e
      case Unauthorized(other) => UnauthorizedTouchesOne(w, other, id);
      case Resume(other) => ResumeTouchesOne(w, other, id);
      case Arrive(c) => SettleTouchesWaiters(w, c, w.calls[c].reply, id);
      case Lose(c) => SettleTouchesWaiters(w, c, Outage, id);
      case _ =>
    }
  }

  /**
   * Which 401s wait for a refresh: whatever happens while the request is on its way, its first 401 joins the call in
   * flight, or starts one with the cookie in the jar, if and only if it was sent with a header and its address
   * contains neither "/auth/login" nor "/auth/refresh". Otherwise it is finished and nothing is asked of the server.
   */
  lemma {:induction false} WaitsExactly(w: World, id: nat, url: string, between: seq<Event>)
    requires id !in w.requests
    requires forall k :: 0 <= k < |between| ==> between[k] != Unauthorized(id) && between[k] != OtherReply(id)
    ensures var v := Run(Step(w, Send(id, url)), between);
            var w' := Step(v, Unauthorized(id));
            var toAuth := exists i, j :: 0 <= i <= j <= |url| && (url[i..j] == "/auth/login" || url[i..j] == "/auth/refresh");
            && id in w'.requests && w'.requests[id].sends == 1 && w'.token == v.token && w'.header == v.header
            && if w.header.Some? && !toAuth then
                 && w'.refreshInFlight.Some? && w'.requests[id].phase == AwaitingRefresh(w'.refreshInFlight.value)
                 && if v.refreshInFlight.Some? then w'.refreshInFlight == v.refreshInFlight && w'.calls == v.calls
                    else w'.calls == v.calls[w'.refreshInFlight.value := Asked(v.jar)]
               else w'.requests[id].phase.Finished? && w'.refreshInFlight == v.refreshInFlight && w'.calls == v.calls
  {
    ContainsMeans(url, "/auth/login");
    ContainsMeans(url, "/auth/refresh");
    StaysOnWire(Step(w, Send(id, url)), id, between);
  }

  /** A request that gets any other reply is over: whatever happens later it is not touched again, and nothing was asked for it. */
  lemma {:induction false} AnsweredIsOver(w: World, id: nat, events: seq<Event>)
    requires id in w.requests && w.requests[id].phase.OnWire?
    ensures var w' := Step(w, OtherReply(id));
            w'.refreshInFlight == w.refreshInFlight && w'.calls == w.calls && w'.token == w.token
    ensures var v := Run(Step(w, OtherReply(id)), events);
            id in v.requests && v.requests[id] == w.requests[id].(phase := Finished)
  {
    if events != [] {
      var n := |events| - 1;
      AnsweredIsOver(w, id, events[..n]);
      LeavesRequest(Run(Step(w, OtherReply(id)), events[..n]), events[n], id);
    }
  }

  /** The refresh call is itself a request of this client: whatever the base address, its own 401 never waits for it. */
  lemma {:induction false} RefreshNeverAwaitsItself(w: World, id: nat, base: string, between: seq<Event>)
    requires id !in w.requests
    requires forall k :: 0 <= k < |between| ==> between[k] != Unauthorized(id) && between[k] != OtherReply(id)
    ensures var w' := Step(Run(Step(w, Send(id, base + "/auth/refresh")), between), Unauthorized(id));
            id in w'.requests && w'.requests[id].phase.Finished?
  {
    var url := base + "/auth/refresh";
    WaitsExactly(w, id, url, between);
    assert url[|base|..|url|] == "/auth/refresh";
  }

  lemma {:induction false} KeepsTarget(w: World, id: nat, events: seq<Event>)
    requires id in w.requests
    ensures id in Run(w, events).requests && Run(w, events).requests[id].toPublicAuth == w.requests[id].toPublicAuth
  {
    if events != [] {
      var n := |events| - 1;
      KeepsTarget(w, id, events[..n]);
      TargetStep(Run(w, events[..n]), id, events[n]);
    }
  }

  lemma TargetStep(w: World, id: nat, e: Event)
    requires id in w.requests
    ensures id in Step(w, e).requests && Step(w, e).requests[id].toPublicAuth == w.requests[id].toPublicAuth
  {
    if Enabled(w, e) {
      match e
      case Unauthorized(other) => UnauthorizedKeepsTarget(w, other, id);
      case Resume(other) => ResumeKeepsTarget(w, other, id);
      case BootStart(ever) =>
      case BootResume =>
      case _ =>
    }
  }

  lemma UnauthorizedKeepsTarget(w: World, other: nat, id: nat)
    requires id in w.requests && other in w.requests
    ensures id in OnUnauthorized(w, other).requests
    ensures OnUnauthorized(w, other).requests[id].toPublicAuth == w.requests[id].toPublicAuth
  {
  }

  lemma ResumeKeepsTarget(w: World, other: nat, id: nat)
    requires id in w.requests && other in w.requests && w.requests[other].phase.RefreshSettled?
    ensures var w' := OnResume(w, other, w.requests[other].phase.reply);
            id in w'.requests && w'.requests[id].toPublicAuth == w.requests[id].toPublicAuth
  {
  }

  /** Whatever happens, a request to the login or the refresh is sent once and never waits for a refresh. */
  lemma {:induction false} PublicAuthIsSentOnce(w: World, before: seq<Event>, id: nat, url: string, i: nat, j: nat, after: seq<Event>)
    requires Fresh(w) && id !in Run(w, before).requests
    requires i <= j <= |url| && (url[i..j] == "/auth/login" || url[i..j] == "/auth/refresh")
    ensures var w' := Run(Step(Run(w, before), Send(id, url)), after);
            id in w'.requests && w'.requests[id].sends == 1 && !w'.requests[id].phase.AwaitingRefresh?
  {
    var sent := Step(Run(w, before), Send(id, url));
    ContainsMeans(url, url[i..j]);
    RunKeepsInv(w, before);
    StepKeepsInv(Run(w, before), Send(id, url));
    RunKeepsInv(sent, after);
    KeepsTarget(sent, id, after);
    assert RequestOk(Run(sent, after), Run(sent, after).requests[id]);
  }

  /**
   * How the bootstrap begins: a token that the page kept goes into the header at once, and a refresh is asked for, or
   * shared, unless the page has no token and nobody ever logged in.
   */
  lemma BootstrapBegins(w: World, ever: bool)
    requires w.boot.NotStarted?
    ensures var w' := Step(w, BootStart(ever));
            && w'.token == w.token && w'.header == (if w.token.Some? then w.token else w.header)
            && if w.token.None? && !ever then w'.boot.Initialized? && w'.calls == w.calls
               else
                 && w'.refreshInFlight.Some? && w'.boot == BootAwaiting(w.token, w'.refreshInFlight.value)
                 && if w.refreshInFlight.Some? then w'.refreshInFlight == w.refreshInFlight && w'.calls == w.calls
                    else w'.calls == w.calls[w'.refreshInFlight.value := Asked(w.jar)]
  {
  }

  /** A cookie that was rotated away is presented only after a rotation was lost, on this page or before it loaded. */
  lemma {:induction false} StaleOnlyAfterLoss(w: World, events: seq<Event>)
    requires Fresh(w)
    ensures var w' := Run(w, events); w'.staleShown ==> w'.rotationLost
  {
    RunKeepsInv(w, events);
  }

  /** The interceptor ends a session only on a refresh the server refused or answered unusably. */
  lemma ClearedOnlyWhenRejected(w: World, e: Event)
    requires w.token.Some? && Step(w, e).token.None?
    ensures (e.Resume? && IsSessionRejected(w.requests[e.id].phase.reply))
         || (e.BootResume? && IsSessionRejected(w.boot.reply))
  {
  }

  ghost predicate HeaderFollowsToken(w: World) {
    w.header.Some? ==> w.header == w.token
  }

  lemma HeaderStep(w: World, e: Event)
    requires HeaderFollowsToken(w)
    ensures HeaderFollowsToken(Step(w, e))
  {
    if Enabled(w, e) {
      match e
      case Unauthorized(id) =>
      case Resume(id) =>
      case Answer(_, _) =>
      case BootStart(_) =>
      case BootResume =>
      case _ =>
    }
  }

  /** A page that loads without a header never sends a token it does not hold: signing out silences the header too. */
  lemma {:induction false} HeaderAgrees(w: World, events: seq<Event>)
    requires HeaderFollowsToken(w)
    ensures HeaderFollowsToken(Run(w, events))
  {
    if events != [] {
      HeaderAgrees(w, events[..|events| - 1]);
      HeaderStep(Run(w, events[..|events| - 1]), events[|events| - 1]);
    }
  }

  /**
   * The bootstrap's failure branch keeps a token exactly when the refresh was an outage or the token is not the
   * one the bootstrap started with, and a token issued after it began never is.
   */
  lemma {:induction false} BootstrapKeepsNewerToken(w: World, events: seq<Event>)
    requires Fresh(w)
    ensures var w' := Run(w, events);
            w'.boot.BootSettled? && !w'.boot.reply.Renewed? && w'.token.Some? ==>
              && (Step(w', BootResume).token == w'.token <==> w'.boot.reply.Outage? || w'.token != w'.boot.tokenAtStart)
              && (w'.token.value >= w'.issuedBeforeBoot ==> Step(w', BootResume).token == w'.token)
  {
    RunKeepsInv(w, events);
  }

  // ----- a session the server never ends is never lost

  /** What can go wrong without ending a session: outages, and replies lost before the server saw the call. */
  predicate Calm(w: World, e: Event) {
    match e
    case Answer(_, usable) => usable
    case Lose(call) => call in w.calls ==> w.calls[call].Asked?
    case Expire(_) => false
    case _ => true
  }

  predicate CalmRun(w: World, events: seq<Event>) {
    events == [] ||
    var front := events[..|events| - 1];
    CalmRun(w, front) && Calm(Run(w, front), events[|events| - 1])
  }

  predicate Harmless(r: Reply) {
    r.Renewed? || r.Outage?
  }

  ghost predicate SignedIn(w: World) {
    && w.token.Some?
    && w.jar.Some? && w.jar.value.session in w.current
    && (forall c :: c in w.calls ==>
          match w.calls[c]
          case Asked(p) => IsCurrent(w, p)
          case Answered(r) => r.Renewed? && IsCurrent(w, Some(r.cookie)))
    && (forall id :: id in w.requests && w.requests[id].phase.RefreshSettled? ==> Harmless(w.requests[id].phase.reply))
    && (w.boot.BootSettled? ==> Harmless(w.boot.reply))
  }

  lemma CalmServed(w: World, call: nat)
    requires Inv(w) && !w.rotationLost && SignedIn(w) && call in w.calls && w.calls[call].Asked?
    ensures SignedIn(Served(w, call, true))
  {
    assert w.refreshInFlight == Some(call);
  }

  lemma CalmSettled(w: World, call: nat, reply: Reply)
    requires Inv(w) && SignedIn(w) && call in w.calls && Harmless(reply)
    ensures SignedIn(Settle(w, call, reply))
  {
  }

  lemma CalmArrive(w: World, call: nat)
    requires Inv(w) && !w.rotationLost && SignedIn(w) && call in w.calls && w.calls[call].Answered?
    ensures SignedIn(Step(w, Arrive(call)))
  {
    var reply := w.calls[call].reply;
    var w1 := w.(jar := Some(reply.cookie));
    assert RequestsOk(w1) by {
      forall id | id in w1.requests ensures RequestOk(w1, w1.requests[id]) {
        assert RequestOk(w, w.requests[id]);
      }
    }
    CalmSettled(w1, call, reply);
  }

  lemma CalmStep(w: World, e: Event)
    requires Inv(w) && !w.rotationLost && SignedIn(w) && Calm(w, e)
    ensures SignedIn(Step(w, e)) && !Step(w, e).rotationLost
  {
    if Enabled(w, e) {
      match e
      case Answer(call, usable) => CalmServed(w, call);
      case Arrive(call) => CalmArrive(w, call);
      case Lose(call) => CalmSettled(w, call, Outage);
      case _ =>
    }
  }

  /**
   * From a signed-in page with a current cookie, no interleaving of requests, 401s, outages and logins signs the user out,
   * as long as the server ends no session and every rotation that happened reaches the browser.
   */
  lemma {:induction false} OutagesNeverSignOut(w: World, events: seq<Event>)
    requires Fresh(w) && !IsStale(w, w.jar) && SignedIn(w) && CalmRun(w, events)
    ensures SignedIn(Run(w, events)) && !Run(w, events).rotationLost && !Run(w, events).staleShown
  {
    if events != [] {
      var front := events[..|events| - 1];
      OutagesNeverSignOut(w, front);
      RunKeepsInv(w, front);
      CalmStep(Run(w, front), events[|events| - 1]);
      RunKeepsInv(w, events);
    }
  }
}
