/**
 * What the protocol of TokenRefresh comes to, over its interleavings: how a waiting request ends, exactly when a
 * rotated-away cookie is presented, and exactly when a new login outlives the refreshes that are still pending.
 */
module RefreshOutcomes {
  import opened Options
  import opened TokenRefresh

  // ----- from a 401 to its end, in every interleaving

  ghost predicate Awaits(w: World, id: nat, call: nat) {
    id in w.requests && w.requests[id].phase == AwaitingRefresh(call) && call in w.calls
  }

  /** The event neither answers nor loses the call, nor runs the request's own continuation. */
  predicate Bystander(e: Event, id: nat, call: nat) {
    e != Lose(call) && e != Resume(id) && !(e.Answer? && e.call == call)
  }

  ghost predicate Bystanders(events: seq<Event>, id: nat, call: nat) {
    forall i :: 0 <= i < |events| ==> Bystander(events[i], id, call)
  }

  /** `w'` has the request of `w` still waiting, or holding the reply to its call. */
  ghost predicate Heard(w: World, w': World, id: nat, call: nat, arrived: bool)
    requires Awaits(w, id, call)
  {
    id in w'.requests &&
    if arrived && w.calls[call].Answered?
    then w'.requests[id] == w.requests[id].(phase := RefreshSettled(w.calls[call].reply))
    else call in w'.calls && w'.calls[call] == w.calls[call] && w'.requests[id] == w.requests[id]
  }

  lemma HeardStays(v: World, e: Event, id: nat, reply: Reply)
    requires id in v.requests && v.requests[id].phase == RefreshSettled(reply) && e != Resume(id)
    ensures id in Step(v, e).requests && Step(v, e).requests[id] == v.requests[id]
  {
    LeavesRequest(v, e, id);
  }

  lemma WaitGoesOn(v: World, e: Event, id: nat, call: nat)
    requires OneCall(v) && Awaits(v, id, call) && Bystander(e, id, call) && e != Arrive(call)
    ensures Awaits(Step(v, e), id, call)
    ensures Step(v, e).requests[id] == v.requests[id] && Step(v, e).calls[call] == v.calls[call]
  {
    assert v.refreshInFlight == Some(call);
  }

  /** Whatever else happens, a waiting request hears the answer to its own call, once that has arrived. */
  lemma {:induction false} WaiterHears(w: World, id: nat, call: nat, events: seq<Event>)
    requires Inv(w) && Awaits(w, id, call) && Bystanders(events, id, call)
    ensures Heard(w, Run(w, events), id, call, Arrive(call) in events)
  {
    if events != [] {
      var front, e := events[..|events| - 1], events[|events| - 1];
      assert events == front + [e];
      WaiterHears(w, id, call, front);
      RunKeepsInv(w, front);
      var v := Run(w, front);
      if Arrive(call) in front && w.calls[call].Answered? {
        HeardStays(v, e, id, w.calls[call].reply);
      } else if e == Arrive(call) {
      } else {
        WaitGoesOn(v, e, id, call);
      }
    }
  }

  lemma ResumeDecides(v: World, id: nat, reply: Reply)
    requires id in v.requests && v.requests[id].phase == RefreshSettled(reply)
    ensures var q, w' := v.requests[id], Step(v, Resume(id));
            && id in w'.requests
            && (reply.Renewed? ==>
                  && w'.requests[id] == q.(sends := q.sends + 1, hadAuthorization := true, phase := OnWire)
                  && w'.token == w'.header == Some(reply.token))
            && (IsSessionRejected(reply) ==>
                  w'.requests[id].phase.Finished? && w'.token.None? && w'.header.None?)
  {
  }

  /** How the server's answer stands in the world that follows it. */
  lemma AnswerStands(v: World, id: nat, call: nat, usable: bool)
    requires Awaits(v, id, call) && v.calls[call].Asked?
    ensures var w' := Step(v, Answer(call, usable));
            && Awaits(w', id, call) && w'.requests[id] == v.requests[id] && w'.calls[call].Answered?
            && if IsCurrent(v, v.calls[call].presented) && usable
               then w'.calls[call].reply.Renewed? && w'.calls[call].reply.token == v.nextToken
               else IsSessionRejected(w'.calls[call].reply)
  {
  }

  /** The world after `early`, the server's answer, `later`, and at last the request's own continuation. */
  ghost function Concluded(w: World, id: nat, call: nat, early: seq<Event>, usable: bool, later: seq<Event>): World {
    Step(Run(Step(Run(w, early), Answer(call, usable)), later), Resume(id))
  }

  /**
   * What a waiting request gets from its refresh, however other steps interleave. If the server still accepts the
   * cookie when it answers, and usably, the request is sent a second time under the new token; otherwise the
   * session ends.
   */
  lemma {:induction false} RefreshDecides(w: World, id: nat, call: nat, early: seq<Event>, usable: bool, later: seq<Event>)
    requires Inv(w) && Awaits(w, id, call) && w.calls[call].Asked?
    requires Bystanders(early, id, call) && Bystanders(later, id, call) && Arrive(call) in later
    ensures var asked, w' := Run(w, early), Concluded(w, id, call, early, usable, later);
            id in w'.requests &&
            if IsCurrent(asked, w.calls[call].presented) && usable then
              && w'.requests[id] == w.requests[id].(sends := 2, hadAuthorization := true, phase := OnWire)
              && w'.token == w'.header == Some(asked.nextToken)
            else w'.requests[id].phase.Finished? && w'.token.None? && w'.header.None?
  {
    var asked := Run(w, early);
    var answered := Step(asked, Answer(call, usable));
    WaiterHears(w, id, call, early);
    AnswerStands(asked, id, call, usable);
    RunKeepsInv(w, early);
    StepKeepsInv(asked, Answer(call, usable));
    WaiterHears(answered, id, call, later);
    ResumeDecides(Run(answered, later), id, answered.calls[call].reply);
    assert RequestOk(w, w.requests[id]);
  }

  /** The 401 of such a request starts a refresh with the cookie in the jar, and the request waits for it. */
  lemma {:induction false} ExpiredRequestAsks(w: World, id: nat, url: string, between: seq<Event>)
    requires Inv(w) && id !in w.requests && w.header.Some?
    requires forall i, j :: 0 <= i <= j <= |url| ==> url[i..j] != "/auth/login" && url[i..j] != "/auth/refresh"
    requires forall k :: 0 <= k < |between| ==> between[k] != Unauthorized(id) && between[k] != OtherReply(id)
    requires Run(Step(w, Send(id, url)), between).refreshInFlight.None?
    ensures var v := Run(Step(w, Send(id, url)), between);
            var asked := Step(v, Unauthorized(id));
            Inv(asked) && Awaits(asked, id, v.nextCall) && asked.calls[v.nextCall] == Asked(v.jar)
  {
    var sent := Step(w, Send(id, url));
    var v := Run(sent, between);
    WaitsExactly(w, id, url, between);
    StepKeepsInv(w, Send(id, url));
    RunKeepsInv(sent, between);
    StepKeepsInv(v, Unauthorized(id));
    StartPresentsJar(v, Unauthorized(id));
    assert OneCall(Step(v, Unauthorized(id)));
    StartedCall(v, id);
  }

  lemma StartedCall(v: World, id: nat)
    requires id in v.requests && v.refreshInFlight.None? && Step(v, Unauthorized(id)).refreshInFlight.Some?
    ensures Step(v, Unauthorized(id)).refreshInFlight == Some(v.nextCall)
  {
  }

  /**
   * The whole way of a request whose token has run out, in every interleaving: sent with a header to an address outside
   * the login and the refresh, refused with a 401 while no refresh is out, and answered as the server then stands. If the
   * cookie in the jar at the 401 is still its session's latest when the server answers, and the answer can be used, the
   * request is sent once more under the new token; if not, the user is signed out.
   */
  lemma {:induction false} ExpiredRequestRoundTrip(w: World, id: nat, url: string, between: seq<Event>,
                                                   early: seq<Event>, usable: bool, later: seq<Event>)
    requires Inv(w) && id !in w.requests && w.header.Some?
    requires forall i, j :: 0 <= i <= j <= |url| ==> url[i..j] != "/auth/login" && url[i..j] != "/auth/refresh"
    requires forall k :: 0 <= k < |between| ==> between[k] != Unauthorized(id) && between[k] != OtherReply(id)
    requires Run(Step(w, Send(id, url)), between).refreshInFlight.None?
    requires var call := Run(Step(w, Send(id, url)), between).nextCall;
             Bystanders(early, id, call) && Bystanders(later, id, call) && Arrive(call) in later
    ensures var v := Run(Step(w, Send(id, url)), between);
            var asked := Step(v, Unauthorized(id));
            var served := Run(asked, early);
            var w' := Concluded(asked, id, v.nextCall, early, usable, later);
            id in w'.requests &&
            if && usable && v.jar.Some? && v.jar.value.session in served.current
               && served.current[v.jar.value.session] == v.jar.value.generation
            then && w'.requests[id].phase.OnWire? && w'.requests[id].sends == 2
                 && w'.token == w'.header == Some(served.nextToken)
            else w'.requests[id].phase.Finished? && w'.token.None? && w'.header.None?
  {
    var v := Run(Step(w, Send(id, url)), between);
    ExpiredRequestAsks(w, id, url, between);
    RefreshDecides(Step(v, Unauthorized(id)), id, v.nextCall, early, usable, later);
  }

  /** If the answer is lost, the request ends without it and the token stays what it is, whatever else happens. */
  lemma {:induction false} LostAnswerClearsNothing(w: World, id: nat, call: nat, later: seq<Event>)
    requires Inv(w) && Awaits(w, id, call) && forall i :: 0 <= i < |later| ==> later[i] != Resume(id)
    ensures var before := Run(Step(w, Lose(call)), later);
            var w' := Step(before, Resume(id));
            && id in w'.requests && w'.requests[id].phase.Finished?
            && w'.token == before.token && w'.header == before.header
  {
    SettledStays(Step(w, Lose(call)), id, Outage, later);
  }

  lemma {:induction false} SettledStays(w: World, id: nat, reply: Reply, events: seq<Event>)
    requires id in w.requests && w.requests[id].phase == RefreshSettled(reply)
    requires forall i :: 0 <= i < |events| ==> events[i] != Resume(id)
    ensures id in Run(w, events).requests && Run(w, events).requests[id] == w.requests[id]
  {
    if events != [] {
      var n := |events| - 1;
      SettledStays(w, id, reply, events[..n]);
      HeardStays(Run(w, events[..n]), events[n], id, reply);
    }
  }

  // ----- from the bootstrap's refresh to its end, in every interleaving

  ghost predicate BootAwaits(w: World, call: nat) {
    w.boot.BootAwaiting? && w.boot.call == call && call in w.calls
  }

  /** The event neither answers nor loses the call, nor runs the bootstrap's continuation. */
  predicate BootBystander(e: Event, call: nat) {
    e != Lose(call) && e != BootResume && !(e.Answer? && e.call == call)
  }

  ghost predicate BootBystanders(events: seq<Event>, call: nat) {
    forall i :: 0 <= i < |events| ==> BootBystander(events[i], call)
  }

  lemma BootHeardStays(v: World, e: Event)
    requires v.boot.BootSettled? && e != BootResume
    ensures Step(v, e).boot == v.boot
  {
  }

  lemma BootWaitGoesOn(v: World, e: Event, call: nat)
    requires OneCall(v) && BootAwaits(v, call) && BootBystander(e, call) && e != Arrive(call)
    ensures Step(v, e).boot == v.boot && call in Step(v, e).calls && Step(v, e).calls[call] == v.calls[call]
  {
    assert v.refreshInFlight == Some(call);
  }

  lemma {:induction false} BootHears(w: World, call: nat, events: seq<Event>)
    requires Inv(w) && BootAwaits(w, call) && BootBystanders(events, call)
    ensures var v := Run(w, events);
            if Arrive(call) in events && w.calls[call].Answered?
            then v.boot == BootSettled(w.boot.tokenAtStart, w.calls[call].reply)
            else v.boot == w.boot && call in v.calls && v.calls[call] == w.calls[call]
  {
    if events != [] {
      var front, e := events[..|events| - 1], events[|events| - 1];
      assert events == front + [e];
      BootHears(w, call, front);
      RunKeepsInv(w, front);
      var v := Run(w, front);
      if v.boot.BootSettled? {
        BootHeardStays(v, e);
      } else if e != Arrive(call) {
        BootWaitGoesOn(v, e, call);
      }
    }
  }

  lemma BootResumeDecides(v: World)
    requires v.boot.BootSettled?
    ensures var reply, w' := v.boot.reply, Step(v, BootResume);
            && w'.boot.Initialized?
            && (reply.Renewed? ==> w'.token == w'.header == Some(reply.token))
            && (IsSessionRejected(reply) ==>
                  if v.token.None? || v.token == v.boot.tokenAtStart then w'.token.None? && w'.header.None?
                  else w'.token == v.token && w'.header == v.header)
  {
  }

  /** How the server's answer to the bootstrap's call stands in the world that follows it. */
  lemma BootAnswerStands(v: World, call: nat, usable: bool)
    requires BootAwaits(v, call) && v.calls[call].Asked?
    ensures var w' := Step(v, Answer(call, usable));
            && BootAwaits(w', call) && w'.boot == v.boot && w'.calls[call].Answered?
            && if IsCurrent(v, v.calls[call].presented) && usable
               then w'.calls[call].reply.Renewed? && w'.calls[call].reply.token == v.nextToken
               else IsSessionRejected(w'.calls[call].reply)
  {
  }

  /** The world in which the bootstrap's continuation runs: after `early`, the server's answer and `later`. */
  ghost function BootAnswered(w: World, call: nat, early: seq<Event>, usable: bool, later: seq<Event>): World {
    Run(Step(Run(w, early), Answer(call, usable)), later)
  }

  /**
   * What the bootstrap gets from its refresh, however other steps interleave: the new token if the server accepts the
   * cookie when it answers, and usably; otherwise it signs out if and only if the page then holds no token or the one
   * that the bootstrap began with.
   */
  lemma {:induction false} BootDecides(w: World, call: nat, early: seq<Event>, usable: bool, later: seq<Event>)
    requires Inv(w) && BootAwaits(w, call) && w.calls[call].Asked?
    requires BootBystanders(early, call) && BootBystanders(later, call) && Arrive(call) in later
    ensures var asked, before := Run(w, early), BootAnswered(w, call, early, usable, later);
            var w' := Step(before, BootResume);
            w'.boot.Initialized? &&
            if IsCurrent(asked, w.calls[call].presented) && usable then w'.token == w'.header == Some(asked.nextToken)
            else if before.token.None? || before.token == w.boot.tokenAtStart then w'.token.None? && w'.header.None?
            else w'.token == before.token && w'.header == before.header
  {
    var asked := Run(w, early);
    var answered := Step(asked, Answer(call, usable));
    BootHears(w, call, early);
    BootAnswerStands(asked, call, usable);
    RunKeepsInv(w, early);
    StepKeepsInv(asked, Answer(call, usable));
    BootHears(answered, call, later);
    BootResumeDecides(Run(answered, later));
  }

  // ----- when a rotated-away cookie is presented

  /** A reply is lost that carried the rotation of the jar's own session, which the server has not ended. */
  predicate LosesRotation(w: World, e: Event) {
    && e.Lose? && Enabled(w, e) && w.calls[e.call].Answered? && w.calls[e.call].reply.Rotates()
    && w.jar.Some? && w.jar.value.session == w.calls[e.call].reply.cookie.session
    && w.jar.value.session in w.current
  }

  /** The jar gets another cookie, or the server ends the jar's session. */
  predicate Recovers(w: World, e: Event) {
    Enabled(w, e) &&
    match e
    case Login => true
    case Arrive(call) => w.calls[call].reply.Rotates()
    case Expire(s) => w.jar.Some? && w.jar.value.session == s
    case Answer(call, _) =>
      var p := w.calls[call].presented;
      p.Some? && w.jar.Some? && p.value.session == w.jar.value.session && !IsCurrent(w, p)
    case _ => false
  }

  /** The page loaded with a stale jar or lost a rotation of the jar's session, and nothing since has recovered from that. */
  ghost predicate Unhealed(w: World, events: seq<Event>) {
    if events == [] then IsStale(w, w.jar)
    else
      var front, e := events[..|events| - 1], events[|events| - 1];
      LosesRotation(Run(w, front), e) || (Unhealed(w, front) && !Recovers(Run(w, front), e))
  }

  /** The call holds a rotation of the jar's session that the jar has not seen yet. */
  predicate Owed(w: World, c: Call) {
    c.Answered? && c.reply.Rotates() && w.jar.Some? && w.jar.value.session == c.reply.cookie.session
  }

  ghost predicate CallOk(w: World, c: Call) {
    match c
    case Asked(p) => IsStale(w, w.jar) ==> p == w.jar
    case Answered(r) =>
      r.Rotates() ==>
        && !IsStale(w, Some(r.cookie))
        && (Owed(w, c) ==> w.jar.value.generation != r.cookie.generation)
  }

  ghost predicate JarOk(w: World) {
    && (w.jar.Some? && w.jar.value.session in w.current ==> w.jar.value.generation <= w.current[w.jar.value.session])
    && (forall c :: c in w.calls ==> CallOk(w, w.calls[c]))
  }

  /** A stale jar is owed a rotation that is still on its way, or, if `unhealed`, one that got lost. */
  ghost predicate Tracks(w: World, unhealed: bool) {
    && JarOk(w)
    && if exists c :: c in w.calls && Owed(w, w.calls[c]) then !unhealed else IsStale(w, w.jar) <==> unhealed
  }

  /** Jar, calls and sessions are all that matters here. */
  lemma TracksElsewhere(w: World, w': World, unhealed: bool)
    requires Tracks(w, unhealed) && w'.jar == w.jar && w'.calls == w.calls && w'.current == w.current
    ensures Tracks(w', unhealed)
  {
    forall c | c in w'.calls ensures CallOk(w', w'.calls[c]) {
      assert CallOk(w, w.calls[c]);
    }
    assert forall c :: c in w.calls ==> Owed(w, w.calls[c]) == Owed(w', w'.calls[c]);
  }

  lemma TracksRefresh(w: World, unhealed: bool)
    requires OneCall(w) && Tracks(w, unhealed)
    ensures Tracks(RefreshOnce(w), unhealed)
  {
    var w' := RefreshOnce(w);
    if w.refreshInFlight.None? {
      assert w.calls == map[];
      assert w'.calls == map[w.nextCall := Asked(w.jar)];
    }
  }

  lemma TracksAnswer(w: World, call: nat, usable: bool, unhealed: bool)
    requires OneCall(w) && Tracks(w, unhealed) && call in w.calls && w.calls[call].Asked?
    ensures Tracks(Served(w, call, usable), unhealed && !Recovers(w, Answer(call, usable)))
  {
    assert CallOk(w, w.calls[call]);
    assert w.calls == map[call := w.calls[call]];
    assert !Owed(w, w.calls[call]);
    var w' := Served(w, call, usable);
    assert w'.calls == map[call := w'.calls[call]];
  }

  lemma TracksSettle(w: World, call: nat, reply: Reply, unhealed: bool)
    requires OneCall(w) && call in w.calls
    requires w.jar.Some? && w.jar.value.session in w.current ==> w.jar.value.generation <= w.current[w.jar.value.session]
    requires IsStale(w, w.jar) <==> unhealed
    ensures Tracks(Settle(w, call, reply), unhealed)
  {
    assert Settle(w, call, reply).calls == map[];
  }

  lemma TracksArrive(w: World, call: nat, unhealed: bool)
    requires OneCall(w) && Tracks(w, unhealed) && Enabled(w, Arrive(call))
    ensures Tracks(Step(w, Arrive(call)), unhealed && !Recovers(w, Arrive(call)))
  {
    var reply := w.calls[call].reply;
    assert CallOk(w, w.calls[call]);
    assert w.calls == map[call := w.calls[call]];
    var w1 := if reply.Rotates() then w.(jar := Some(reply.cookie)) else w;
    TracksSettle(w1, call, reply, unhealed && !reply.Rotates());
  }

  lemma TracksLose(w: World, call: nat, unhealed: bool)
    requires OneCall(w) && Tracks(w, unhealed) && call in w.calls
    ensures Tracks(Step(w, Lose(call)), LosesRotation(w, Lose(call)) || unhealed)
  {
    assert CallOk(w, w.calls[call]);
    assert w.calls == map[call := w.calls[call]];
    var lost := w.calls[call].Answered? && w.calls[call].reply.Rotates();
    TracksSettle(w.(rotationLost := w.rotationLost || lost), call, Outage, LosesRotation(w, Lose(call)) || unhealed);
  }

  lemma TracksLogin(w: World, unhealed: bool)
    requires SessionsBounded(w) && Tracks(w, unhealed)
    ensures Tracks(Step(w, Login), false)
  {
    var w' := Step(w, Login);
    forall c | c in w'.calls ensures CallOk(w', w'.calls[c]) && !Owed(w', w'.calls[c]) {
      assert CallOk(w, w.calls[c]);
    }
  }

  lemma TracksExpire(w: World, s: nat, unhealed: bool)
    requires Tracks(w, unhealed)
    ensures Tracks(Step(w, Expire(s)), unhealed && !Recovers(w, Expire(s)))
  {
    var w' := Step(w, Expire(s));
    forall c | c in w'.calls ensures CallOk(w', w'.calls[c]) && Owed(w', w'.calls[c]) == Owed(w, w.calls[c]) {
      assert CallOk(w, w.calls[c]);
    }
  }

  lemma TracksUnauthorized(w: World, id: nat, unhealed: bool)
    requires OneCall(w) && Tracks(w, unhealed) && id in w.requests
    ensures Tracks(OnUnauthorized(w, id), unhealed)
  {
    TracksRefresh(w, unhealed);
    TracksElsewhere(if Joins(w.requests[id]) then RefreshOnce(w) else w, OnUnauthorized(w, id), unhealed);
  }

  /** The page's steps that start no refresh. */
  predicate IsPageStep(e: Event) {
    e.Send? || e.OtherReply? || e.Resume? || e.BootResume?
  }

  lemma PageStepElsewhere(w: World, e: Event)
    requires Enabled(w, e) && IsPageStep(e)
    ensures Step(w, e).jar == w.jar && Step(w, e).calls == w.calls
    ensures Step(w, e).current == w.current && Step(w, e).nextSession == w.nextSession
  {
    match e
    case Send(_, _) =>
    case OtherReply(_) =>
    case Resume(id) =>
    case BootResume =>
  }

  lemma TracksPageStep(w: World, e: Event, unhealed: bool)
    requires Tracks(w, unhealed) && Enabled(w, e) && IsPageStep(e)
    ensures Tracks(Step(w, e), unhealed)
  {
    PageStepElsewhere(w, e);
    TracksElsewhere(w, Step(w, e), unhealed);
  }

  lemma TracksBootStart(w: World, e: Event, unhealed: bool)
    requires OneCall(w) && Tracks(w, unhealed) && e.BootStart? && Enabled(w, e)
    ensures Tracks(Step(w, e), unhealed)
  {
    var w1 := if w.token.Some? then w.(header := w.token) else w;
    TracksElsewhere(w, w1, unhealed);
    TracksRefresh(w1, unhealed);
    TracksElsewhere(if w.token.None? && !e.hasEverLoggedIn then w1 else RefreshOnce(w1), Step(w, e), unhealed);
  }

  lemma TracksStep(w: World, e: Event, unhealed: bool)
    requires OneCall(w) && SessionsBounded(w) && Tracks(w, unhealed)
    ensures Tracks(Step(w, e), LosesRotation(w, e) || (unhealed && !Recovers(w, e)))
  {
    if Enabled(w, e) {
      match e
      case Unauthorized(id) => TracksUnauthorized(w, id, unhealed);
      case BootStart(_) => TracksBootStart(w, e, unhealed);
      case Answer(call, usable) => TracksAnswer(w, call, usable, unhealed);
      case Arrive(call) => TracksArrive(w, call, unhealed);
      case Lose(call) => TracksLose(w, call, unhealed);
      case Login => TracksLogin(w, unhealed);
      case Expire(s) => TracksExpire(w, s, unhealed);
      case _ => TracksPageStep(w, e, unhealed);
    }
  }

  lemma {:induction false} TracksRun(w: World, events: seq<Event>)
    requires Fresh(w)
    ensures Tracks(Run(w, events), Unhealed(w, events))
  {
    if events != [] {
      var front := events[..|events| - 1];
      TracksRun(w, front);
      RunKeepsInv(w, front);
      TracksStep(Run(w, front), events[|events| - 1], Unhealed(w, front));
    }
  }

  /** The step finds no call in flight and starts one. */
  predicate StartsRefresh(w: World, e: Event) {
    w.refreshInFlight.None? && Step(w, e).refreshInFlight.Some?
  }

  lemma StartsNothing(w: World, e: Event)
    requires Enabled(w, e) && !e.Unauthorized? && !e.BootStart?
    ensures Step(w, e).staleShown == w.staleShown
    ensures Step(w, e).refreshInFlight == w.refreshInFlight || Step(w, e).refreshInFlight.None?
  {
  }

  /** A refresh presents the cookie in the jar, and nothing but the start of a refresh presents one. */
  lemma StartPresentsJar(w: World, e: Event)
    ensures Step(w, e).staleShown <==> w.staleShown || (StartsRefresh(w, e) && IsStale(w, w.jar))
    ensures StartsRefresh(w, e) ==>
              var call := Step(w, e).refreshInFlight.value;
              call in Step(w, e).calls && Step(w, e).calls[call] == Asked(w.jar)
  {
    if Enabled(w, e) {
      match e
      case Unauthorized(id) =>
      case BootStart(ever) =>
      case _ => StartsNothing(w, e);
    }
  }

  /**
   * With no call out, the jar is stale if and only if it was so when the page loaded or a rotation of its session was
   * lost, and since then the jar got no other cookie and the server did not end the session.
   */
  lemma {:induction false} JarIsStaleExactly(w: World, events: seq<Event>)
    requires Fresh(w) && Run(w, events).refreshInFlight.None?
    ensures IsStale(Run(w, events), Run(w, events).jar) <==> Unhealed(w, events)
  {
    TracksRun(w, events);
    RunKeepsInv(w, events);
  }

  /** Event `i` starts a refresh while a lost rotation is unhealed. */
  ghost predicate StartsUnhealed(w: World, events: seq<Event>, i: nat) {
    i < |events| && StartsRefresh(Run(w, events[..i]), events[i]) && Unhealed(w, events[..i])
  }

  lemma {:induction false} StaleShownLast(w: World, events: seq<Event>)
    requires Fresh(w) && events != []
    ensures var n := |events| - 1;
            Run(w, events).staleShown <==> Run(w, events[..n]).staleShown || StartsUnhealed(w, events, n)
  {
    var front, e := events[..|events| - 1], events[|events| - 1];
    StartPresentsJar(Run(w, front), e);
    if StartsRefresh(Run(w, front), e) {
      JarIsStaleExactly(w, front);
    }
  }

  lemma StartedEarlier(w: World, events: seq<Event>, n: nat, i: nat)
    requires i < n <= |events|
    ensures StartsUnhealed(w, events[..n], i) <==> StartsUnhealed(w, events, i)
  {
    assert events[..n][..i] == events[..i];
  }

  /** Where a run that has presented a stale cookie first did so, or at least one such place. */
  lemma {:induction false} StaleShownAt(w: World, events: seq<Event>) returns (i: nat)
    requires Fresh(w) && Run(w, events).staleShown
    ensures StartsUnhealed(w, events, i)
  {
    var n := |events| - 1;
    StaleShownLast(w, events);
    if Run(w, events[..n]).staleShown {
      i := StaleShownAt(w, events[..n]);
      StartedEarlier(w, events, n, i);
    } else {
      i := n;
    }
  }

  lemma {:induction false} StartShows(w: World, events: seq<Event>, i: nat)
    requires Fresh(w) && StartsUnhealed(w, events, i)
    ensures Run(w, events).staleShown
  {
    var n := |events| - 1;
    StaleShownLast(w, events);
    if i < n {
      StartedEarlier(w, events, n, i);
      StartShows(w, events[..n], i);
    }
  }

  /** A run presents a rotated-away cookie if and only if it starts a refresh at a point where a lost rotation is unhealed. */
  lemma {:induction false} StaleShownExactly(w: World, events: seq<Event>)
    requires Fresh(w)
    ensures Run(w, events).staleShown <==> exists i :: StartsUnhealed(w, events, i)
  {
    if Run(w, events).staleShown {
      var i := StaleShownAt(w, events);
    }
    if i :| StartsUnhealed(w, events, i) {
      StartShows(w, events, i);
    }
  }

  // ----- what a stale cookie leads to

  /** The server will never again accept this cookie: its session has moved on, or is over. */
  predicate Outdated(w: World, c: Cookie) {
    c.session < w.nextSession && (c.session in w.current ==> c.generation < w.current[c.session])
  }

  predicate Over(w: World, session: nat) {
    session < w.nextSession && session !in w.current
  }

  lemma OutdatedStep(w: World, e: Event, c: Cookie)
    ensures Outdated(w, c) ==> Outdated(Step(w, e), c)
    ensures Over(w, c.session) ==> Over(Step(w, e), c.session)
  {
    if Enabled(w, e) {
      match e
      case Answer(call, usable) =>
      case Login =>
      case Expire(_) =>
      case _ => SessionsElsewhere(w, e);
    }
  }

  lemma SessionsElsewhere(w: World, e: Event)
    requires Enabled(w, e) && !e.Answer? && !e.Login? && !e.Expire?
    ensures Step(w, e).current == w.current && Step(w, e).nextSession == w.nextSession
  {
    if IsPageStep(e) {
      PageStepElsewhere(w, e);
    } else if e.Arrive? || e.Lose? {
    }
  }

  lemma {:induction false} OutdatedRun(w: World, events: seq<Event>, c: Cookie)
    ensures Outdated(w, c) ==> Outdated(Run(w, events), c)
    ensures Over(w, c.session) ==> Over(Run(w, events), c.session)
  {
    if events != [] {
      OutdatedRun(w, events[..|events| - 1], c);
      OutdatedStep(Run(w, events[..|events| - 1]), events[|events| - 1], c);
    }
  }

  /**
   * From any page with a stale jar and no call out, the next eligible 401 presents the stale cookie, and however
   * other steps interleave, once the answer has arrived the server's session is over and the page signs out.
   */
  lemma StaleRefreshEndsSession(w: World, id: nat, early: seq<Event>, usable: bool, later: seq<Event>)
    requires Inv(w) && JarOk(w) && w.refreshInFlight.None? && IsStale(w, w.jar)
    requires id in w.requests && w.requests[id].phase.OnWire? && Joins(w.requests[id])
    requires Bystanders(early, id, w.nextCall) && Bystanders(later, id, w.nextCall) && Arrive(w.nextCall) in later
    ensures var asked := Step(w, Unauthorized(id));
            var w' := Concluded(asked, id, w.nextCall, early, usable, later);
            && asked.staleShown && id in w'.requests && w'.requests[id].phase.Finished?
            && w'.token.None? && w'.header.None? && w.jar.value.session !in w'.current
  {
    var call, c, asked := w.nextCall, w.jar.value, Step(w, Unauthorized(id));
    StepKeepsInv(w, Unauthorized(id));
    assert Outdated(asked, c);
    OutdatedRun(asked, early, c);
    WaiterHears(asked, id, call, early);
    var answered := Step(Run(asked, early), Answer(call, usable));
    OutdatedRun(answered, later + [Resume(id)], c);
    RefreshDecides(asked, id, call, early, usable, later);
  }

  /** A page that starts its bootstrap on a stale jar presents the stale cookie. */
  lemma StaleBootAsks(w: World, ever: bool)
    requires Inv(w) && w.refreshInFlight.None? && IsStale(w, w.jar) && w.boot.NotStarted? && (w.token.Some? || ever)
    ensures var asked := Step(w, BootStart(ever));
            && asked.staleShown && BootAwaits(asked, w.nextCall) && asked.boot.tokenAtStart == w.token
            && asked.calls[w.nextCall] == Asked(w.jar)
            && asked.current == w.current && asked.nextSession == w.nextSession
  {
  }

  /**
   * A bootstrap on a stale jar presents the stale cookie, and however other steps interleave, once the answer has
   * arrived the server's session is over; the page signs out if and only if it then holds no token or the one that
   * the bootstrap began with.
   */
  lemma StaleBootstrapEndsSession(w: World, ever: bool, early: seq<Event>, usable: bool, later: seq<Event>)
    requires Inv(w) && JarOk(w) && w.refreshInFlight.None? && IsStale(w, w.jar)
    requires w.boot.NotStarted? && (w.token.Some? || ever)
    requires BootBystanders(early, w.nextCall) && BootBystanders(later, w.nextCall) && Arrive(w.nextCall) in later
    ensures var asked := Step(w, BootStart(ever));
            var before := BootAnswered(asked, w.nextCall, early, usable, later);
            var w' := Step(before, BootResume);
            && asked.staleShown && w.jar.value.session !in before.current
            && (w'.token.None? <==> before.token.None? || before.token == w.token)
            && (w'.token.Some? ==> w'.token == before.token)
  {
    var call, c, asked := w.nextCall, w.jar.value, Step(w, BootStart(ever));
    StaleBootAsks(w, ever);
    StepKeepsInv(w, BootStart(ever));
    assert Outdated(asked, c);
    OutdatedRun(asked, early, c);
    BootHears(asked, call, early);
    var answered := Step(Run(asked, early), Answer(call, usable));
    assert Over(answered, c.session);
    OutdatedRun(answered, later, c);
    BootDecides(asked, call, early, usable, later);
  }

  /** So a lost rotation of a session still open signs the user out at the next eligible 401, whatever happens beside it. */
  lemma LostRotationSignsOut(w: World, call: nat, id: nat, early: seq<Event>, usable: bool, later: seq<Event>)
    requires Inv(w) && JarOk(w) && LosesRotation(w, Lose(call))
    requires id in w.requests && w.requests[id].phase.OnWire? && Joins(w.requests[id])
    requires Bystanders(early, id, w.nextCall) && Bystanders(later, id, w.nextCall) && Arrive(w.nextCall) in later
    ensures var asked := Step(Step(w, Lose(call)), Unauthorized(id));
            var w' := Concluded(asked, id, w.nextCall, early, usable, later);
            && asked.staleShown && w'.token.None? && w'.header.None? && w.jar.value.session !in w'.current
  {
    StaleRefreshEndsSession(Step(w, Lose(call)), id, early, usable, later);
  }

  /** A rotation that arrives leaves in the jar a cookie the server accepts, unless it has ended the session meanwhile. */
  lemma ArrivalRenewsJar(w: World, call: nat)
    requires JarOk(w) && Enabled(w, Arrive(call)) && w.calls[call].reply.Rotates()
    ensures var c, w' := w.calls[call].reply.cookie, Step(w, Arrive(call));
            w'.jar == Some(c) && !IsStale(w', w'.jar) && (IsCurrent(w', w'.jar) <==> c.session in w.current)
  {
    assert CallOk(w, w.calls[call]);
  }

  /** A session that the server ends while its refresh is out signs the user out, whatever happens before, between and after. */
  lemma {:induction false} ExpiredSessionSignsOut(w: World, id: nat, call: nat, c: Cookie, before: seq<Event>, between: seq<Event>,
                                                  usable: bool, later: seq<Event>)
    requires Inv(w) && Awaits(w, id, call) && w.calls[call] == Asked(Some(c))
    requires Bystanders(before, id, call) && Bystanders(between, id, call)
    requires Bystanders(later, id, call) && Arrive(call) in later
    ensures var w' := Concluded(w, id, call, before + [Expire(c.session)] + between, usable, later);
            id in w'.requests && w'.requests[id].phase.Finished? && w'.token.None? && w'.header.None?
  {
    var early := before + [Expire(c.session)] + between;
    RunInTurn(w, before + [Expire(c.session)], between);
    RunInTurn(w, before, [Expire(c.session)]);
    RunOne(Run(w, before), Expire(c.session));
    RunKeepsInv(w, before);
    KnownSession(w, before);
    OutdatedRun(Step(Run(w, before), Expire(c.session)), between, c);
    RefreshDecides(w, id, call, early, usable, later);
  }

  /** Sessions are never issued twice. */
  lemma {:induction false} KnownSession(w: World, events: seq<Event>)
    ensures Run(w, events).nextSession >= w.nextSession
  {
    if events != [] {
      var n := |events| - 1;
      KnownSession(w, events[..n]);
      SessionsGrow(Run(w, events[..n]), events[n]);
    }
  }

  lemma SessionsGrow(w: World, e: Event)
    ensures Step(w, e).nextSession >= w.nextSession
  {
    if Enabled(w, e) && !e.Answer? && !e.Login? && !e.Expire? {
      SessionsElsewhere(w, e);
    }
  }

  // ----- when a new login outlives the refreshes still pending

  /** The steps that finish what is already under way: no new 401, bootstrap, login or expiry. */
  predicate Drains(e: Event) {
    e.Send? || e.OtherReply? || e.Answer? || e.Arrive? || e.Lose? || e.Resume? || e.BootResume?
  }

  ghost predicate AllDrain(events: seq<Event>) {
    forall i :: 0 <= i < |events| ==> Drains(events[i])
  }

  /** However the pending steps are scheduled, the token of a login made now is still there. */
  ghost predicate LoginSurvives(w: World) {
    forall events :: AllDrain(events) ==> Run(Step(w, Login), events).token == Some(w.nextToken)
  }

  /** A request holds a reply that will replace or clear whatever token is there. */
  ghost predicate RequestThreatens(w: World) {
    exists id :: id in w.requests && w.requests[id].phase.RefreshSettled? && !w.requests[id].phase.reply.Outage?
  }

  /** A request waits for the call, or the bootstrap waits for it and it may still renew. */
  ghost predicate CallThreatens(w: World, call: nat)
    requires call in w.calls
  {
    || (exists id :: Awaits(w, id, call))
    || (w.boot.BootAwaiting? && w.boot.call == call && MayRenew(w, w.calls[call]))
  }

  predicate MayRenew(w: World, c: Call) {
    match c
    case Asked(p) => IsCurrent(w, p)
    case Answered(r) => r.Renewed?
  }

  ghost predicate Threatened(w: World) {
    || RequestThreatens(w)
    || (w.boot.BootSettled? && w.boot.reply.Renewed?)
    || (exists call :: call in w.calls && CallThreatens(w, call))
  }

  /** The bootstrap started with another token than this. */
  predicate BootDiffers(w: World, t: nat) {
    match w.boot
    case BootAwaiting(start, _) => start != Some(t)
    case BootSettled(start, _) => start != Some(t)
    case _ => true
  }

  ghost predicate Safe(w: World, t: nat) {
    w.token == Some(t) && BootDiffers(w, t) && !Threatened(w)
  }

  /** A step on one request that leaves it with no rejected or renewing reply threatens nothing. */
  lemma SafeRequest(w: World, id: nat, q: Request, t: nat)
    requires Safe(w, t) && !q.phase.AwaitingRefresh? && !q.phase.RefreshSettled?
    ensures Safe(w.(requests := w.requests[id := q]), t)
  {
    var w' := w.(requests := w.requests[id := q]);
    forall call | call in w'.calls ensures !CallThreatens(w', call) {
      assert !CallThreatens(w, call);
      forall i ensures !Awaits(w', i, call) {
        assert !Awaits(w, i, call);
      }
    }
  }

  lemma SafeAnswer(w: World, call: nat, usable: bool, t: nat)
    requires OneCall(w) && Safe(w, t) && call in w.calls && w.calls[call].Asked?
    ensures Safe(Served(w, call, usable), t)
  {
    var w' := Served(w, call, usable);
    assert !CallThreatens(w, call);
    forall c | c in w'.calls ensures !CallThreatens(w', c) {
      assert c == call;
      forall i ensures !Awaits(w', i, c) {
        assert !Awaits(w, i, c);
      }
    }
  }

  lemma SafeSettle(w: World, call: nat, reply: Reply, jar: Option<Cookie>, lost: bool, t: nat)
    requires OneCall(w) && Safe(w, t) && call in w.calls
    requires reply.Outage? || w.calls[call] == Answered(reply)
    ensures Safe(Settle(w.(jar := jar, rotationLost := lost), call, reply), t)
  {
    var w' := Settle(w.(jar := jar, rotationLost := lost), call, reply);
    assert !CallThreatens(w, call);
    assert w'.calls == map[];
    forall id | id in w'.requests ensures w'.requests[id] == w.requests[id] {
      assert !Awaits(w, id, call);
    }
  }

  lemma SafeBootResume(w: World, t: nat)
    requires Safe(w, t) && w.boot.BootSettled?
    ensures Safe(OnBootResume(w), t)
  {
    var w' := OnBootResume(w);
    forall call | call in w'.calls ensures !CallThreatens(w', call) {
      assert !CallThreatens(w, call);
      forall i ensures !Awaits(w', i, call) {
        assert !Awaits(w, i, call);
      }
    }
  }

  lemma SafeStep(w: World, e: Event, t: nat)
    requires OneCall(w) && Safe(w, t) && Drains(e)
    ensures Safe(Step(w, e), t)
  {
    if Enabled(w, e) {
      match e
      case Send(id, url) => SafeRequest(w, id, Request(IsPublicAuthEndpoint(url), 1, false, w.header.Some?, OnWire), t);
      case OtherReply(id) => SafeRequest(w, id, w.requests[id].(phase := Finished), t);
      case Resume(id) => SafeRequest(w, id, w.requests[id].(phase := Finished), t);
      case BootResume => SafeBootResume(w, t);
      case Answer(call, usable) => SafeAnswer(w, call, usable, t);
      case Arrive(call) =>
        var reply := w.calls[call].reply;
        SafeSettle(w, call, reply, if reply.Rotates() then Some(reply.cookie) else w.jar, w.rotationLost, t);
      case Lose(call) =>
        SafeSettle(w, call, Outage, w.jar, Step(w, e).rotationLost, t);
    }
  }

  lemma {:induction false} SafeRun(w: World, events: seq<Event>, t: nat)
    requires Inv(w) && Safe(w, t) && AllDrain(events)
    ensures Safe(Run(w, events), t)
  {
    if events != [] {
      var front := events[..|events| - 1];
      SafeRun(w, front, t);
      RunKeepsInv(w, front);
      SafeStep(Run(w, front), events[|events| - 1], t);
    }
  }

  lemma LoginIsSafe(w: World)
    requires Inv(w) && !Threatened(w)
    ensures Safe(Step(w, Login), w.nextToken)
  {
    var w' := Step(w, Login);
    forall call | call in w'.calls ensures !CallThreatens(w', call) {
      assert !CallThreatens(w, call);
      forall i ensures !Awaits(w', i, call) {
        assert !Awaits(w, i, call);
      }
      assert call < w.nextCall;
    }
  }

  // A threatened login has a schedule that loses it.

  lemma {:induction false} RunOne(w: World, e: Event)
    ensures Run(w, [e]) == Step(w, e)
  {
    assert [e][..0] == [];
  }

  lemma ResumeOverwrites(w: World, id: nat)
    requires id in w.requests && w.requests[id].phase.RefreshSettled? && !w.requests[id].phase.reply.Outage?
    ensures var r := w.requests[id].phase.reply;
            Step(w, Resume(id)).token == if r.Renewed? then Some(r.token) else None
  {
  }

  lemma BootResumeOverwrites(w: World)
    requires w.boot.BootSettled? && w.boot.reply.Renewed?
    ensures Step(w, BootResume).token == Some(w.boot.reply.token)
  {
  }

  /** The call is answered now, if it was not already, and the answer is not an outage. */
  lemma CallAnswered(w: World, call: nat) returns (events: seq<Event>)
    requires Inv(w) && call in w.calls
    ensures AllDrain(events) && Inv(Run(w, events))
    ensures var w' := Run(w, events);
            && call in w'.calls && w'.calls[call].Answered? && !w'.calls[call].reply.Outage?
            && w'.requests == w.requests && w'.boot == w.boot
            && (MayRenew(w, w.calls[call]) ==> w'.calls[call].reply.Renewed?)
            && (w.calls[call].Answered? ==> w'.calls[call] == w.calls[call])
            && (w.calls[call].Asked? && w'.calls[call].reply.Renewed? ==> w'.calls[call].reply.token == w.nextToken)
  {
    if w.calls[call].Asked? {
      events := [Answer(call, true)];
      RunOne(w, Answer(call, true));
      StepKeepsInv(w, Answer(call, true));
    } else {
      events := [];
    }
  }

  lemma {:induction false} ArriveDelivers(w: World, call: nat, id: nat)
    requires call in w.calls && w.calls[call].Answered?
    ensures var r, w' := w.calls[call].reply, Run(w, [Arrive(call)]);
            && (Awaits(w, id, call) ==> id in w'.requests && w'.requests[id].phase == RefreshSettled(r))
            && (w.boot.BootAwaiting? && w.boot.call == call ==> w'.boot == BootSettled(w.boot.tokenAtStart, r))
  {
    RunOne(w, Arrive(call));
  }

  lemma {:induction false} RunInTurn(w: World, a: seq<Event>, b: seq<Event>)
    ensures Run(w, a + b) == Run(Run(w, a), b)
  {
    if b == [] {
      assert a + b == a;
    } else {
      assert (a + b)[..|a + b| - 1] == a + b[..|b| - 1];
      RunInTurn(w, a, b[..|b| - 1]);
    }
  }

  lemma CallThreatLosesToken(w: World, call: nat, t: nat) returns (events: seq<Event>)
    requires Inv(w) && call in w.calls && CallThreatens(w, call) && t < w.nextToken
    requires w.calls[call].Answered? && w.calls[call].reply.Renewed? ==> w.calls[call].reply.token != t
    ensures AllDrain(events) && Run(w, events).token != Some(t)
  {
    var early := CallAnswered(w, call);
    var answered := Run(w, early);
    var reply := answered.calls[call].reply;
    var last;
    if id :| Awaits(w, id, call) {
      last := Resume(id);
      ArriveDelivers(answered, call, id);
      ResumeOverwrites(Run(answered, [Arrive(call)]), id);
    } else {
      last := BootResume;
      ArriveDelivers(answered, call, 0);
      BootResumeOverwrites(Run(answered, [Arrive(call)]));
    }
    events := early + [Arrive(call)] + [last];
    RunInTurn(w, early, [Arrive(call)]);
    RunInTurn(w, early + [Arrive(call)], [last]);
    RunOne(Run(answered, [Arrive(call)]), last);
  }

  lemma ThreatLosesLogin(w: World) returns (events: seq<Event>)
    requires Inv(w) && Threatened(w)
    ensures AllDrain(events) && Run(Step(w, Login), events).token != Some(w.nextToken)
  {
    var v, t := Step(w, Login), w.nextToken;
    StepKeepsInv(w, Login);
    if id :| id in w.requests && w.requests[id].phase.RefreshSettled? && !w.requests[id].phase.reply.Outage? {
      events := [Resume(id)];
      RunOne(v, Resume(id));
      ResumeOverwrites(v, id);
    } else if w.boot.BootSettled? && w.boot.reply.Renewed? {
      events := [BootResume];
      RunOne(v, BootResume);
      BootResumeOverwrites(v);
    } else {
      var call :| call in w.calls && CallThreatens(w, call);
      ThreatOutlivesLogin(w, call);
      events := CallThreatLosesToken(v, call, t);
    }
  }

  lemma ThreatOutlivesLogin(w: World, call: nat)
    requires Inv(w) && call in w.calls && CallThreatens(w, call)
    ensures call in Step(w, Login).calls && CallThreatens(Step(w, Login), call)
  {
    var v := Step(w, Login);
    if id :| Awaits(w, id, call) {
      assert Awaits(v, id, call);
    }
  }

  /**
   * A login made while refreshes are pending keeps its token under every schedule of what is pending if and only
   * if no request waits for a call or holds a reply other than an outage, and the bootstrap neither holds a
   * renewal nor waits for one that may still come. A rejection that only the bootstrap hears is harmless: it has
   * the guard that the interceptor lacks.
   */
  lemma LoginSurvivesExactly(w: World)
    requires Inv(w)
    ensures LoginSurvives(w) <==> !Threatened(w)
  {
    if Threatened(w) {
      var events := ThreatLosesLogin(w);
      assert AllDrain(events);
    } else {
      StepKeepsInv(w, Login);
      LoginIsSafe(w);
      forall events | AllDrain(events) ensures Run(Step(w, Login), events).token == Some(w.nextToken) {
        SafeRun(Step(w, Login), events, w.nextToken);
      }
    }
  }
}
