/**
 * apps/mobile/src/api/client.ts: 401s share one `refreshPromise`, which covers the call to the server
 * and the saving of the new session; any failure of it clears the session.
 */
module MobileRefresh {
  import opened JsText
  import opened Options

  datatype Tokens = Tokens(access: nat, refresh: nat)

  /** A call with no stored refresh token answers null without asking the server. */
  datatype Call = NoToken | Posted(refresh: nat) | Saving(access: nat)

  datatype Answer = Payload(tokens: Tokens) | BadPayload | HttpError(status: nat) | NetworkError

  datatype Phase = OnWire | AwaitingRefresh(call: nat) | RefreshSettled(newToken: Option<nat>) | Finished

  datatype Request = Request(toPublicAuth: bool, sends: nat, isRetry: bool, hadAuthorization: bool, phase: Phase)

  datatype World = World(
    refreshPromise: Option<nat>, session: Option<Tokens>,
    requests: map<nat, Request>, calls: map<nat, Call>, nextCall: nat)

  datatype Event =
    | Send(id: nat, url: string)
    | Unauthorized(id: nat)
    | OtherReply(id: nat)
    | Reply(call: nat, answer: Answer)
    | Saved(call: nat, ok: bool)
    | Resume(id: nat)
    | Login(tokens: Tokens)

  predicate IsPublicAuthEndpoint(url: string) {
    Contains(url, "/auth/mobile/login") || Contains(url, "/auth/mobile/refresh")
  }

  /** Which 401s wait for a refresh. */
  predicate Joins(q: Request) {
    !q.isRetry && q.hadAuthorization && !q.toPublicAuth
  }

  function Share(w: World): (r: World)
    ensures r.refreshPromise.Some?
  {
    if w.refreshPromise.Some? then w
    else
      var call := if w.session.Some? then Posted(w.session.value.refresh) else NoToken;
      w.(refreshPromise := Some(w.nextCall), calls := w.calls[w.nextCall := call], nextCall := w.nextCall + 1)
  }

  function Settle(w: World, call: nat, newToken: Option<nat>): World {
    w.(calls := w.calls - {call},
       refreshPromise := None,
       requests := map id | id in w.requests ::
         if w.requests[id].phase == AwaitingRefresh(call)
         then w.requests[id].(phase := RefreshSettled(newToken)) else w.requests[id])
  }

  predicate Enabled(w: World, e: Event) {
    match e
    case Send(id, _) => id !in w.requests
    case Unauthorized(id) => id in w.requests && w.requests[id].phase.OnWire?
    case OtherReply(id) => id in w.requests && w.requests[id].phase.OnWire?
    case Reply(call, _) => call in w.calls && !w.calls[call].Saving?
    case Saved(call, _) => call in w.calls && w.calls[call].Saving?
    case Resume(id) => id in w.requests && w.requests[id].phase.RefreshSettled?
    case Login(_) => true
  }

  function Step(w: World, e: Event): World {
    if !Enabled(w, e) then w
    else match e
      case Send(id, url) => w.(requests := w.requests[id := Request(IsPublicAuthEndpoint(url), 1, false, w.session.Some?, OnWire)])
      case OtherReply(id) => w.(requests := w.requests[id := w.requests[id].(phase := Finished)])
      case Unauthorized(id) =>
        var q := w.requests[id];
        if Joins(q) then
          var w1 := Share(w);
          w1.(requests := w.requests[id := q.(isRetry := true, phase := AwaitingRefresh(w1.refreshPromise.value))])
        else w.(requests := w.requests[id := q.(phase := Finished)])
      case Reply(call, answer) =>
        if w.calls[call].Posted? && answer.Payload?
        then w.(session := Some(answer.tokens), calls := w.calls[call := Saving(answer.tokens.access)])
        else Settle(w, call, None)
      case Saved(call, ok) => Settle(w, call, if ok then Some(w.calls[call].access) else None)
      case Resume(id) =>
        var q := w.requests[id];
        if q.phase.newToken.Some?
        then w.(requests := w.requests[id := q.(sends := q.sends + 1, hadAuthorization := true, phase := OnWire)])
        else w.(session := None, requests := w.requests[id := q.(phase := Finished)])
      case Login(tokens) => w.(session := Some(tokens))
  }

  function Run(w: World, events: seq<Event>): World {
    if events == [] then w
    else Step(Run(w, events[..|events| - 1]), events[|events| - 1])
  }

  class MobileClient {
    var refreshPromise: Option<nat>
    var session: Option<Tokens>
    var requests: map<nat, Request>
    var calls: map<nat, Call>
    var nextCall: nat

    ghost function View(): World
      reads this
    {
      World(refreshPromise, session, requests, calls, nextCall)
    }

    method RefreshAccessToken() returns (call: nat)
      modifies this`calls, this`nextCall
      ensures call == old(nextCall) && nextCall == call + 1
      ensures calls == old(calls)[call := if session.Some? then Posted(session.value.refresh) else NoToken]
    {
      call := nextCall;
      calls := calls[call := if session.Some? then Posted(session.value.refresh) else NoToken];
      nextCall := nextCall + 1;
    }

    /** The error interceptor up to its `await`. */
    method OnResponseError(id: nat)
      requires Enabled(View(), Unauthorized(id))
      modifies this
      ensures View() == Step(old(View()), Unauthorized(id))
    {
      var original := requests[id];
      if Joins(original) {
        if refreshPromise.None? {
          var call := RefreshAccessToken();
          refreshPromise := Some(call);
        }
        requests := requests[id := original.(isRetry := true, phase := AwaitingRefresh(refreshPromise.value))];
      } else {
        requests := requests[id := original.(phase := Finished)];
      }
    }

    /** The error interceptor after its `await`: a null token throws into the same catch as an error. */
    method AfterRefresh(id: nat)
      requires Enabled(View(), Resume(id))
      modifies this
      ensures View() == Step(old(View()), Resume(id))
    {
      var original := requests[id];
      if original.phase.newToken.Some? {
        requests := requests[id := original.(sends := original.sends + 1, hadAuthorization := true, phase := OnWire)];
      } else {
        session := None;
        requests := requests[id := original.(phase := Finished)];
      }
    }
  }

  ghost predicate RequestOk(w: World, q: Request) {
    && 1 <= q.sends <= 2
    && (q.sends == 2 ==> q.isRetry)
    && (q.isRetry ==> !q.toPublicAuth)
    && (q.phase.AwaitingRefresh? ==> q.isRetry && q.sends == 1 && w.refreshPromise == Some(q.phase.call))
    && (q.phase.RefreshSettled? ==> q.isRetry && q.sends == 1)
  }

  ghost predicate Inv(w: World) {
    && (forall c :: c in w.calls <==> w.refreshPromise == Some(c))
    && (w.refreshPromise.Some? ==> w.refreshPromise.value < w.nextCall)
    && (forall id :: id in w.requests ==> RequestOk(w, w.requests[id]))
  }

  lemma SettleKeepsInv(w: World, call: nat, newToken: Option<nat>)
    requires Inv(w) && call in w.calls
    ensures Inv(Settle(w, call, newToken))
  {
    var w' := Settle(w, call, newToken);
    forall id | id in w'.requests ensures RequestOk(w', w'.requests[id]) {
      assert RequestOk(w, w.requests[id]);
    }
  }

  lemma RequestKeepsInv(w: World, id: nat, q: Request)
    requires Inv(w) && RequestOk(w, q)
    ensures Inv(w.(requests := w.requests[id := q]))
  {
    var w' := w.(requests := w.requests[id := q]);
    forall i | i in w'.requests ensures RequestOk(w', w'.requests[i]) {
      if i != id {
        assert RequestOk(w, w.requests[i]);
      }
    }
  }

  lemma StepKeepsInv(w: World, e: Event)
    requires Inv(w)
    ensures Inv(Step(w, e))
  {
    if Enabled(w, e) {
      match e
      case Send(id, url) => RequestKeepsInv(w, id, Request(IsPublicAuthEndpoint(url), 1, false, w.session.Some?, OnWire));
      case OtherReply(id) =>
        assert RequestOk(w, w.requests[id]);
        RequestKeepsInv(w, id, w.requests[id].(phase := Finished));
      case Unauthorized(id) =>
        var q, w1 := w.requests[id], Share(w);
        assert RequestOk(w, q);
        forall i | i in w1.requests ensures RequestOk(w1, w1.requests[i]) {
          assert RequestOk(w, w.requests[i]);
        }
        if Joins(q) {
          RequestKeepsInv(w1, id, q.(isRetry := true, phase := AwaitingRefresh(w1.refreshPromise.value)));
        } else {
          RequestKeepsInv(w, id, q.(phase := Finished));
        }
      case Reply(call, answer) => SettleKeepsInv(w, call, None);
        forall i | i in w.requests ensures RequestOk(Step(w, e), Step(w, e).requests[i]) {
          assert RequestOk(w, w.requests[i]);
        }
      case Saved(call, ok) => SettleKeepsInv(w, call, if ok then Some(w.calls[call].access) else None);
      case Resume(id) =>
        var q := w.requests[id];
        assert RequestOk(w, q);
        RequestKeepsInv(w, id, q.(sends := 2, hadAuthorization := true, phase := OnWire));
        RequestKeepsInv(w.(session := None), id, q.(phase := Finished));
      case Login(_) =>
    }
  }

  lemma {:induction false} RunKeepsInv(w: World, events: seq<Event>)
    requires Inv(w)
    ensures Inv(Run(w, events))
  {
    if events != [] {
      RunKeepsInv(w, events[..|events| - 1]);
      StepKeepsInv(Run(w, events[..|events| - 1]), events[|events| - 1]);
    }
  }

  /** However the steps interleave, all waiting 401s wait for one call, and no request is sent a third time. */
  lemma {:induction false} SharedRefresh(session: Option<Tokens>, events: seq<Event>)
    ensures var w := Run(World(None, session, map[], map[], 0), events);
            && (forall c, d :: c in w.calls && d in w.calls ==> c == d)
            && (forall id :: id in w.requests ==> w.requests[id].sends <= 2)
            && (forall id :: id in w.requests && w.requests[id].phase.AwaitingRefresh? ==> w.requests[id].phase.call in w.calls)
  {
    RunKeepsInv(World(None, session, map[], map[], 0), events);
    var w := Run(World(None, session, map[], map[], 0), events);
    forall id | id in w.requests ensures RequestOk(w, w.requests[id]) {}
  }

  lemma {:induction false} StaysOnWire(w: World, id: nat, events: seq<Event>)
    requires id in w.requests && w.requests[id].phase.OnWire?
    requires forall k :: 0 <= k < |events| ==> events[k] != Unauthorized(id) && events[k] != OtherReply(id)
    ensures id in Run(w, events).requests && Run(w, events).requests[id] == w.requests[id]
  {
    if events != [] {
      var n := |events| - 1;
      StaysOnWire(w, id, events[..n]);
      WireStep(Run(w, events[..n]), id, events[n]);
    }
  }

  lemma WireStep(w: World, id: nat, e: Event)
    requires id in w.requests && w.requests[id].phase.OnWire? && e != Unauthorized(id) && e != OtherReply(id)
    ensures id in Step(w, e).requests && Step(w, e).requests[id] == w.requests[id]
  {
  }

  /**
   * Which 401s wait for a refresh: whatever happens while the request is on its way, its first 401 joins the shared
   * promise, or starts one with the refresh token then stored, if and only if it was sent within a session and its
   * address contains neither "/auth/mobile/login" nor "/auth/mobile/refresh". Otherwise it is finished and nothing is
   * asked of the server.
   */
  lemma {:induction false} WaitsExactly(w: World, id: nat, url: string, between: seq<Event>)
    requires id !in w.requests
    requires forall k :: 0 <= k < |between| ==> between[k] != Unauthorized(id) && between[k] != OtherReply(id)
    ensures var v := Run(Step(w, Send(id, url)), between);
            var w' := Step(v, Unauthorized(id));
            var toAuth := exists i, j :: 0 <= i <= j <= |url|
                            && (url[i..j] == "/auth/mobile/login" || url[i..j] == "/auth/mobile/refresh");
            && id in w'.requests && w'.requests[id].sends == 1 && w'.session == v.session
            && if w.session.Some? && !toAuth then
                 && w'.refreshPromise.Some? && w'.requests[id].phase == AwaitingRefresh(w'.refreshPromise.value)
                 && if v.refreshPromise.Some? then w'.refreshPromise == v.refreshPromise && w'.calls == v.calls
                    else w'.calls == v.calls[w'.refreshPromise.value :=
                                             if v.session.Some? then Posted(v.session.value.refresh) else NoToken]
               else w'.requests[id].phase.Finished? && w'.refreshPromise == v.refreshPromise && w'.calls == v.calls
  {
    ContainsMeans(url, "/auth/mobile/login");
    ContainsMeans(url, "/auth/mobile/refresh");
    StaysOnWire(Step(w, Send(id, url)), id, between);
  }

  /** A request that gets any other reply is over: whatever happens later it is not touched again, and nothing was asked for it. */
  lemma {:induction false} AnsweredIsOver(w: World, id: nat, events: seq<Event>)
    requires id in w.requests && w.requests[id].phase.OnWire?
    ensures var w' := Step(w, OtherReply(id));
            w'.refreshPromise == w.refreshPromise && w'.calls == w.calls && w'.session == w.session
    ensures var v := Run(Step(w, OtherReply(id)), events);
            id in v.requests && v.requests[id] == w.requests[id].(phase := Finished)
  {
    if events != [] {
      var n := |events| - 1;
      AnsweredIsOver(w, id, events[..n]);
      FinishedStep(Run(Step(w, OtherReply(id)), events[..n]), id, events[n]);
    }
  }

  lemma FinishedStep(w: World, id: nat, e: Event)
    requires id in w.requests && w.requests[id].phase.Finished?
    ensures id in Step(w, e).requests && Step(w, e).requests[id] == w.requests[id]
  {
  }

  /** The refresh call is itself a request of this client: its own 401 never waits for it. */
  lemma {:induction false} RefreshNeverAwaitsItself(w: World, id: nat, base: string, between: seq<Event>)
    requires id !in w.requests
    requires forall k :: 0 <= k < |between| ==> between[k] != Unauthorized(id) && between[k] != OtherReply(id)
    ensures var w' := Step(Run(Step(w, Send(id, base + "/auth/mobile/refresh")), between), Unauthorized(id));
            id in w'.requests && w'.requests[id].phase.Finished?
  {
    var url := base + "/auth/mobile/refresh";
    WaitsExactly(w, id, url, between);
    assert url[|base|..|url|] == "/auth/mobile/refresh";
  }

  lemma TargetStep(w: World, id: nat, e: Event)
    requires id in w.requests
    ensures id in Step(w, e).requests && Step(w, e).requests[id].toPublicAuth == w.requests[id].toPublicAuth
  {
  }

  lemma {:induction false} KeepsTarget(w: World, id: nat, events: seq<Event>)
    requires id in w.requests
    ensures id in Run(w, events).requests && Run(w, events).requests[id].toPublicAuth == w.requests[id].toPublicAuth
  {
    if events != [] {
      var n := |events| - 1;
      KeepsTarget(w, id, events[..n]);
      TargetStep(Run(w, events[..n]), id, events[n]);
    }
  }

  /** Whatever happens, a request to the login or the refresh is sent once and never waits for a refresh. */
  lemma {:induction false} PublicAuthIsSentOnce(session: Option<Tokens>, before: seq<Event>, id: nat, url: string, i: nat, j: nat,
                                                after: seq<Event>)
    requires id !in Run(World(None, session, map[], map[], 0), before).requests
    requires i <= j <= |url| && (url[i..j] == "/auth/mobile/login" || url[i..j] == "/auth/mobile/refresh")
    ensures var w' := Run(Step(Run(World(None, session, map[], map[], 0), before), Send(id, url)), after);
            id in w'.requests && w'.requests[id].sends == 1 && !w'.requests[id].phase.AwaitingRefresh?
  {
    var v := Run(World(None, session, map[], map[], 0), before);
    var sent := Step(v, Send(id, url));
    ContainsMeans(url, url[i..j]);
    RunKeepsInv(World(None, session, map[], map[], 0), before);
    StepKeepsInv(v, Send(id, url));
    RunKeepsInv(sent, after);
    KeepsTarget(sent, id, after);
    assert RequestOk(Run(sent, after), Run(sent, after).requests[id]);
  }

  // ----- from a 401 to its end, in every interleaving

  ghost predicate Awaits(w: World, id: nat, call: nat) {
    id in w.requests && w.requests[id].phase == AwaitingRefresh(call) && call in w.calls
  }

  /** The event neither moves the call on nor runs the request's own continuation. */
  predicate Bystander(e: Event, id: nat, call: nat) {
    e != Resume(id) && !(e.Reply? && e.call == call) && !(e.Saved? && e.call == call)
  }

  ghost predicate Bystanders(events: seq<Event>, id: nat, call: nat) {
    forall i :: 0 <= i < |events| ==> Bystander(events[i], id, call)
  }

  lemma {:induction false} RunWaits(w: World, id: nat, call: nat, events: seq<Event>)
    requires Inv(w) && Awaits(w, id, call) && Bystanders(events, id, call)
    ensures var v := Run(w, events);
            Inv(v) && Awaits(v, id, call) && v.requests[id] == w.requests[id] && v.calls[call] == w.calls[call]
  {
    if events != [] {
      var front := events[..|events| - 1];
      RunWaits(w, id, call, front);
      RunKeepsInv(w, events);
    }
  }

  lemma {:induction false} RunHeard(w: World, id: nat, events: seq<Event>)
    requires id in w.requests && w.requests[id].phase.RefreshSettled?
    requires forall i :: 0 <= i < |events| ==> events[i] != Resume(id)
    ensures id in Run(w, events).requests && Run(w, events).requests[id] == w.requests[id]
  {
    if events != [] {
      RunHeard(w, id, events[..|events| - 1]);
    }
  }

  /** The call's answer comes after `early`, the outcome of saving after `middle`, the continuation after `later`. */
  ghost function Concluded(w: World, id: nat, call: nat, early: seq<Event>, answer: Answer,
                           middle: seq<Event>, saved: bool, later: seq<Event>): World {
    var replied := Step(Run(w, early), Reply(call, answer));
    Step(Run(Step(Run(replied, middle), Saved(call, saved)), later), Resume(id))
  }

  /** What the waiting request holds before its continuation runs. */
  lemma {:induction false} RequestHears(w: World, id: nat, call: nat, early: seq<Event>, answer: Answer,
                     middle: seq<Event>, saved: bool, later: seq<Event>)
    requires Inv(w) && Awaits(w, id, call) && !w.calls[call].Saving?
    requires Bystanders(early, id, call) && Bystanders(middle, id, call) && Bystanders(later, id, call)
    ensures var replied := Step(Run(w, early), Reply(call, answer));
            var settled := Run(Step(Run(replied, middle), Saved(call, saved)), later);
            id in settled.requests && settled.requests[id] == w.requests[id].(phase := RefreshSettled(
              if w.calls[call].Posted? && answer.Payload? && saved then Some(answer.tokens.access) else None))
  {
    RunWaits(w, id, call, early);
    var replied := Step(Run(w, early), Reply(call, answer));
    StepKeepsInv(Run(w, early), Reply(call, answer));
    if w.calls[call].Posted? && answer.Payload? {
      RunWaits(replied, id, call, middle);
    } else {
      RunHeard(replied, id, middle);
    }
    RunHeard(Step(Run(replied, middle), Saved(call, saved)), id, later);
  }

  /**
   * However other steps interleave, a waiting request is sent again if its call was posted, answered with a payload
   * and saved, and ends the session in every other case: an outage, a refusal, a payload that could not be saved,
   * and a call that had no refresh token to send.
   */
  lemma {:induction false} AnyFailureSignsOut(w: World, id: nat, call: nat, early: seq<Event>, answer: Answer,
                           middle: seq<Event>, saved: bool, later: seq<Event>)
    requires Inv(w) && Awaits(w, id, call) && !w.calls[call].Saving?
    requires Bystanders(early, id, call) && Bystanders(middle, id, call) && Bystanders(later, id, call)
    ensures var w' := Concluded(w, id, call, early, answer, middle, saved, later);
            id in w'.requests &&
            if w.calls[call].Posted? && answer.Payload? && saved
            then w'.requests[id] == w.requests[id].(sends := 2, hadAuthorization := true, phase := OnWire)
            else w'.requests[id].phase.Finished? && w'.session == None
    ensures w.calls[call].Posted? && answer.Payload? ==>
              Step(Run(w, early), Reply(call, answer)).session == Some(answer.tokens)
  {
    RequestHears(w, id, call, early, answer, middle, saved, later);
    RunWaits(w, id, call, early);
    assert RequestOk(w, w.requests[id]);
  }

  // ----- when a new login outlives what is still pending

  /** The steps that finish what is already under way: no new 401 and no other login. */
  predicate Drains(e: Event) {
    e.Send? || e.OtherReply? || e.Reply? || e.Saved? || e.Resume?
  }

  ghost predicate AllDrain(events: seq<Event>) {
    forall i :: 0 <= i < |events| ==> Drains(events[i])
  }

  /** However the pending steps are scheduled, the session of a login made now is still there. */
  ghost predicate LoginSurvives(w: World, tokens: Tokens) {
    forall events :: AllDrain(events) ==> Run(Step(w, Login(tokens)), events).session == Some(tokens)
  }

  /** A request was left without a token, a posted call may still bring other tokens, or a request waits for a call. */
  ghost predicate Threatened(w: World) {
    || (exists id :: id in w.requests && w.requests[id].phase == RefreshSettled(None))
    || (exists call :: call in w.calls && w.calls[call].Posted?)
    || (exists id, call :: Awaits(w, id, call))
  }

  ghost predicate Safe(w: World, tokens: Tokens) {
    w.session == Some(tokens) && !Threatened(w)
  }

  lemma SafeRequest(w: World, id: nat, q: Request, tokens: Tokens)
    requires Safe(w, tokens) && (q.phase.OnWire? || q.phase.Finished?)
    ensures Safe(w.(requests := w.requests[id := q]), tokens)
  {
    var w' := w.(requests := w.requests[id := q]);
    forall i, call ensures !Awaits(w', i, call) {
      assert !Awaits(w, i, call);
    }
  }

  lemma SafeSettle(w: World, call: nat, newToken: Option<nat>, tokens: Tokens)
    requires Safe(w, tokens) && call in w.calls
    ensures Safe(Settle(w, call, newToken), tokens)
  {
    var w' := Settle(w, call, newToken);
    forall id | id in w'.requests ensures w'.requests[id] == w.requests[id] {
      assert !Awaits(w, id, call);
    }
    forall i, c ensures !Awaits(w', i, c) {
      assert !Awaits(w, i, c);
    }
  }

  lemma SafeStep(w: World, e: Event, tokens: Tokens)
    requires Safe(w, tokens) && Drains(e)
    ensures Safe(Step(w, e), tokens)
  {
    if Enabled(w, e) {
      match e
      case Send(id, url) => SafeRequest(w, id, Request(IsPublicAuthEndpoint(url), 1, false, w.session.Some?, OnWire), tokens);
      case OtherReply(id) => SafeRequest(w, id, w.requests[id].(phase := Finished), tokens);
      case Reply(call, _) => SafeSettle(w, call, None, tokens);
      case Saved(call, ok) => SafeSettle(w, call, if ok then Some(w.calls[call].access) else None, tokens);
      case Resume(id) =>
        var q := w.requests[id];
        SafeRequest(w, id, q.(sends := q.sends + 1, hadAuthorization := true, phase := OnWire), tokens);
    }
  }

  lemma {:induction false} SafeRun(w: World, events: seq<Event>, tokens: Tokens)
    requires Safe(w, tokens) && AllDrain(events)
    ensures Safe(Run(w, events), tokens)
  {
    if events != [] {
      var n := |events| - 1;
      SafeRun(w, events[..n], tokens);
      SafeStep(Run(w, events[..n]), events[n], tokens);
    }
  }

  lemma {:induction false} RunTwo(w: World, a: Event, b: Event)
    ensures Run(w, [a]) == Step(w, a) && Run(w, [a, b]) == Step(Step(w, a), b)
  {
    assert [a, b][..1] == [a] && [a][..0] == [];
  }

  /** A waiting request clears the session when its call, whatever stage that is at, comes to nothing. */
  lemma WaiterClears(w: World, id: nat, call: nat) returns (events: seq<Event>)
    requires Awaits(w, id, call) && !w.calls[call].Posted?
    ensures AllDrain(events) && Run(w, events).session == None
  {
    var e := if w.calls[call].Saving? then Saved(call, false) else Reply(call, NetworkError);
    events := [e, Resume(id)];
    RunTwo(w, e, Resume(id));
    assert Step(w, e) == Settle(w, call, None);
  }

  lemma ThreatLosesLogin(w: World, tokens: Tokens) returns (events: seq<Event>)
    requires Threatened(w)
    ensures AllDrain(events) && Run(Step(w, Login(tokens)), events).session != Some(tokens)
  {
    var v := Step(w, Login(tokens));
    if id :| id in w.requests && w.requests[id].phase == RefreshSettled(None) {
      events := [Resume(id)];
      RunTwo(v, Resume(id), Resume(id));
    } else if call :| call in w.calls && w.calls[call].Posted? {
      var other := Payload(Tokens(tokens.access + 1, tokens.refresh));
      events := [Reply(call, other)];
      RunTwo(v, Reply(call, other), Reply(call, other));
    } else {
      var id, call :| Awaits(w, id, call);
      assert Awaits(v, id, call);
      events := WaiterClears(v, id, call);
    }
  }

  /**
   * A login on the phone keeps its session under every schedule of what is pending if and only if no request was
   * left without a token or still waits for a call, and no posted call may still be answered: unlike the web client,
   * where an outage is harmless, every call that comes to nothing clears the session.
   */
  lemma LoginSurvivesExactly(w: World, tokens: Tokens)
    ensures LoginSurvives(w, tokens) <==> !Threatened(w)
  {
    if Threatened(w) {
      var events := ThreatLosesLogin(w, tokens);
      assert AllDrain(events);
    } else {
      var v := Step(w, Login(tokens));
      forall i, c ensures !Awaits(v, i, c) {
        assert !Awaits(w, i, c);
      }
      forall events | AllDrain(events) ensures Run(v, events).session == Some(tokens) {
        SafeRun(v, events, tokens);
      }
    }
  }
}
