/**
 * Properties of the relay client over whole event traces: the timer
 * invariant on every reachable state, the reconnect and auth-retry
 * scenarios, the end-to-end subscribe / AUTH / OK exchange, and two
 * behaviours of the source as written.
 */
module RelayProperties {
  import opened Wrappers
  import opened RelayService
  import Hex
  import EventSigner

  /** One event with the platform's answers during it. */
  datatype Input = Input(event: Event, env: Env)

  /** The service's reaction to a sequence of events, effects in order. */
  function Run(s: Service, trace: seq<Input>): Transition
    decreases |trace|
  {
    if trace == [] then Transition(s, [])
    else
      var t := Step(s, trace[0].event, trace[0].env);
      Then(t.effects, Run(t.next, trace[1..]))
  }

  lemma {:induction false} RunPreservesInv(s: Service, trace: seq<Input>)
    requires Inv(s)
    ensures Inv(Run(s, trace).next)
    decreases |trace|
  {
    if trace != [] {
      var t := Step(s, trace[0].event, trace[0].env);
      RunPreservesInv(t.next, trace[1..]);
    }
  }

  lemma AtMostOnePending(t: Timer, nextId: nat)
    requires TimerOk(t, nextId)
    ensures |t.pending| <= 1
  {
    if t.pending != {} {
      var r :| r in t.pending;
      assert t.pending == {r};
    }
  }

  /** Whatever happens, at most one reconnect and at most one auth retry are pending. */
  lemma AtMostOneTimerOfEachKind(trace: seq<Input>)
    ensures |Run(Initial, trace).next.reconnect.pending| <= 1
    ensures |Run(Initial, trace).next.authRetry.pending| <= 1
  {
    InitialInv();
    RunPreservesInv(Initial, trace);
    var s := Run(Initial, trace).next;
    AtMostOnePending(s.reconnect, s.nextId);
    AtMostOnePending(s.authRetry, s.nextId);
  }

  /**
   * After an unexpected close exactly one reconnect is pending, and another
   * connection attempt before it runs does not add a second one.
   */
  lemma CloseThenConnectKeepsOneReconnect(s: Service, env1: Env, env2: Env)
    requires Inv(s) && !s.isReconnecting
    ensures
      var closed := Step(s, Closed, env1);
      var again := Connect(closed.next, env2);
      && |closed.next.reconnect.pending| == 1
      && |again.next.reconnect.pending| == 1
      && (!env2.connectThrows && s.config.relay.Some? ==> again.next.reconnect == closed.next.reconnect)
  {
    var closed := Step(s, Closed, env1);
    var again := Connect(closed.next, env2);
    assert closed.next.reconnect.pending == {closed.next.reconnect.runnable.value};
    if !closed.next.isConnecting && (env2.connectThrows || s.config.relay.None?) {
      assert again.next.reconnect.pending == {again.next.reconnect.runnable.value};
    }
  }

  /** An inbound `["AUTH", challenge]` frame. */
  function AuthFrame(challenge: string): Inbound {
    JsonArray([JString("AUTH"), JString(challenge)])
  }

  /** An inbound `["OK", id, true, ""]` frame. */
  function OkFrame(eventId: string): Inbound {
    JsonArray([JString("OK"), JString(eventId), JBool(true), JString("")])
  }

  /** An AUTH frame hands its challenge to the challenge handler. */
  lemma AuthFrameHandled(s: Service, challenge: string, env: Env)
    ensures Step(s, Message(AuthFrame(challenge)), env) == HandleAuthChallenge(s, challenge, env)
  {
    var items := AuthFrame(challenge).items;
    assert GetString(items, 0) == Some("AUTH") && GetString(items, 1) == Some(challenge);
  }

  /** An accepting OK frame for the recorded AUTH event takes the post-AUTH path. */
  lemma OkFrameHandled(s: Service, id: string, env: Env)
    requires s.authEventId == Some(id)
    ensures Step(s, Message(OkFrame(id)), env) == AuthConfirmed(s, env)
  {
    var items := OkFrame(id).items;
    assert GetString(items, 0) == Some("OK") && GetString(items, 1) == Some(id);
    assert GetBoolean(items, 2) == Some(true);
    assert ConfirmsAuth(s, items);
  }

  /**
   * An OK frame whose optional message slot is elided (`["OK", id, true,]`)
   * makes `getString(3)` throw, so even a matching id does not confirm, and
   * the frame changes nothing.
   */
  lemma ElidedOkMessageDropsFrame(s: Service, id: string, env: Env)
    requires s.authEventId == Some(id)
    ensures Step(s, Message(JsonArray([JString("OK"), JString(id), JBool(true), JNull])), env) == Transition(s, [])
  {
    var items := [JString("OK"), JString(id), JBool(true), JNull];
    assert GetString(items, 0) == Some("OK") && GetString(items, 1) == Some(id);
    assert GetString(items, 3).None?;
  }

  /** An AUTH frame whose challenge slot is elided (`["AUTH",,"x"]`) is dropped. */
  lemma ElidedChallengeDropsFrame(s: Service, env: Env)
    ensures Step(s, Message(JsonArray([JString("AUTH"), JNull, JString("x")])), env) == Transition(s, [])
  {
    var items := [JString("AUTH"), JNull, JString("x")];
    assert GetString(items, 0) == Some("AUTH") && GetString(items, 1).None?;
  }

  /**
   * A challenge arrives while no key is stored, the retry runs twice more
   * without a key, then once with a key: each keyless attempt leaves exactly
   * one retry pending and sends nothing, the keyed attempt signs once, and
   * the earlier retries, already removed, do nothing when their time comes.
   */
  lemma {:induction false} KeylessRetriesThenOneSignature(
    s: Service, challenge: string, noKey1: Env, noKey2: Env, noKey3: Env, withKey: Env)
    requires Inv(s)
    requires Missing(noKey1.privateKey) && Missing(noKey2.privateKey) && Missing(noKey3.privateKey)
    requires !Missing(withKey.privateKey)
    ensures
      var t1 := Step(s, Message(AuthFrame(challenge)), noKey1);
      var r1 := t1.next.authRetry.runnable.value;
      var t2 := Step(t1.next, AuthRetryFires(r1), noKey2);
      var r2 := t2.next.authRetry.runnable.value;
      var t3 := Step(t2.next, AuthRetryFires(r2), noKey3);
      var r3 := t3.next.authRetry.runnable.value;
      var t4 := Step(t3.next, AuthRetryFires(r3), withKey);
      var built := BuildAuthEvent(s, challenge, withKey.privateKey.value, withKey);
      && t1.effects == [PostDelayed(r1, AuthRetryDelayMs)] && t1.next.authRetry.pending == {r1}
      && t2.effects == [PostDelayed(r2, AuthRetryDelayMs)] && t2.next.authRetry.pending == {r2}
      && t3.effects == [PostDelayed(r3, AuthRetryDelayMs)] && t3.next.authRetry.pending == {r3}
      && t3.next.pendingAuthChallenge == Some(challenge)
      && t4.next.pendingAuthChallenge.None? && t4.next.authRetry.pending == {}
      && t4.effects == (if built.Some? then SendIfOpen(s, Auth(built.value)) else [])
      && Step(t4.next, AuthRetryFires(r1), noKey1) == Transition(t4.next, [])
      && Step(t4.next, AuthRetryFires(r2), noKey2) == Transition(t4.next, [])
  {
    var t1 := Step(s, Message(AuthFrame(challenge)), noKey1);
    AuthFrameHandled(s, challenge, noKey1);
    var r1 := t1.next.authRetry.runnable.value;
    var t2 := Step(t1.next, AuthRetryFires(r1), noKey2);
    assert t2 == HandleAuthChallenge(t1.next.(authRetry := Fire(t1.next.authRetry, r1)), challenge, noKey2);
    var r2 := t2.next.authRetry.runnable.value;
    var t3 := Step(t2.next, AuthRetryFires(r2), noKey3);
    assert t3 == HandleAuthChallenge(t2.next.(authRetry := Fire(t2.next.authRetry, r2)), challenge, noKey3);
    var r3 := t3.next.authRetry.runnable.value;
    var s3 := t3.next.(authRetry := Fire(t3.next.authRetry, r3));
    var t4 := Step(t3.next, AuthRetryFires(r3), withKey);
    assert t4 == HandleAuthChallenge(s3, challenge, withKey);
    assert s3.config == s.config && s3.secpReady == s.secpReady && s3.socket == s.socket;
    assert r1 !in t4.next.authRetry.pending && r2 !in t4.next.authRetry.pending;
  }

  /** The configuration a creation with stored `relay` and `pubkey` ends up with. */
  function ExchangeConfig(relay: string, pubkey: string): Config {
    Config(Some(relay), Some(pubkey), Some(pubkey))
  }

  /** The service right after creation has opened its first socket. */
  function Connecting(relay: string, pubkey: string): Service {
    Initial.(secpReady := true, config := ExchangeConfig(relay, pubkey), isConnecting := true, socket := Some(0), nextId := 1)
  }

  lemma CreateOpensSocket(relay: string, pubkey: string, env: Env)
    requires relay != "" && pubkey != "" && !env.connectThrows
    ensures Step(Initial, Create(Config(Some(relay), None, Some(pubkey)), true), env)
         == Transition(Connecting(relay, pubkey), [OpenSocket(0, relay)])
  {
    var s1 := Initial.(secpReady := true, config := ExchangeConfig(relay, pubkey));
    assert Step(Initial, Create(Config(Some(relay), None, Some(pubkey)), true), env) == Connect(s1, env);
  }

  lemma OpenSubscribes(relay: string, pubkey: string, env: Env)
    ensures
      var id := Hex.RandomHex(SubscriptionIdLength, env.idDraws);
      Step(Connecting(relay, pubkey), Opened, env)
      == Transition(Connecting(relay, pubkey).(isConnecting := false, subscriptionId := Some(id)),
                    [Send(0, Req(id, [20285, 20284], [pubkey]))])
  {
    var s := Connecting(relay, pubkey);
    assert Step(s, Opened, env) == SendSubscriptionRequest(s.(isConnecting := false), env);
  }

  lemma ChallengeAnswered(s: Service, relay: string, pubkey: string, challenge: string, env: Env)
    requires s.config == ExchangeConfig(relay, pubkey) && s.secpReady && s.socket == Some(0)
    requires s.authRetry == Timer({}, None)
    requires !Missing(env.privateKey)
    requires EventSigner.CreateAuthEvent(env.crypto, true, challenge, relay, pubkey, env.privateKey.value, env.nowMillis, env.aux).Some?
    ensures
      var ev := EventSigner.CreateAuthEvent(env.crypto, true, challenge, relay, pubkey, env.privateKey.value, env.nowMillis, env.aux).value;
      Step(s, Message(AuthFrame(challenge)), env)
      == Transition(s.(pendingAuthChallenge := None, authEventId := Some(ev.id)), [Send(0, Auth(ev))])
  {
    AuthFrameHandled(s, challenge, env);
  }

  /**
   * The exchange of a fresh service with a relay: it connects, subscribes
   * under a 16-digit hex id with the two kinds and the device key, answers an
   * AUTH challenge with a kind-22242 event bound to the relay and the
   * challenge, and when the relay accepts that event resubscribes under a
   * newly drawn id.
   */
  lemma EndToEnd(relay: string, pubkey: string, challenge: string, e0: Env, e1: Env, e2: Env, e3: Env)
    requires relay != "" && pubkey != ""
    requires !e0.connectThrows && !Missing(e2.privateKey)
    requires EventSigner.CreateAuthEvent(e2.crypto, true, challenge, relay, pubkey, e2.privateKey.value, e2.nowMillis, e2.aux).Some?
    ensures
      var created := Step(Initial, Create(Config(Some(relay), None, Some(pubkey)), true), e0);
      var up := Step(created.next, Opened, e1);
      var auth := Step(up.next, Message(AuthFrame(challenge)), e2);
      var socket := created.next.socket.value;
      && created.effects == [OpenSocket(socket, relay)]
      && up.next.subscriptionId == Some(Hex.RandomHex(SubscriptionIdLength, e1.idDraws))
      && up.effects == [Send(socket, Req(up.next.subscriptionId.value, [20285, 20284], [pubkey]))]
      && IsSubscriptionId(up.next.subscriptionId.value)
      && |auth.effects| == 1 && auth.effects[0].Send? && auth.effects[0].socket == socket
      && auth.effects[0].frame.Auth?
      && var ev := auth.effects[0].frame.event;
         && ev.kind == 22242 && ev.content == ""
         && ev.tags == [["relay", relay], ["challenge", challenge]]
         && auth.next.authEventId == Some(ev.id)
         && var ok := Step(auth.next, Message(OkFrame(ev.id)), e3);
            && ok.next.authEventId.None? && ok.next.pendingAuthChallenge.None?
            && ok.next.subscriptionId == Some(Hex.RandomHex(SubscriptionIdLength, e3.idDraws))
            && ok.effects == [Send(socket, Req(ok.next.subscriptionId.value, [20285, 20284], [pubkey]))]
  {
    CreateOpensSocket(relay, pubkey, e0);
    OpenSubscribes(relay, pubkey, e1);
    var id1 := Hex.RandomHex(SubscriptionIdLength, e1.idDraws);
    var s2 := Connecting(relay, pubkey).(isConnecting := false, subscriptionId := Some(id1));
    ChallengeAnswered(s2, relay, pubkey, challenge, e2);
    var ev := EventSigner.CreateAuthEvent(e2.crypto, true, challenge, relay, pubkey, e2.privateKey.value, e2.nowMillis, e2.aux).value;
    var s3 := s2.(pendingAuthChallenge := None, authEventId := Some(ev.id));
    OkFrameHandled(s3, ev.id, e3);
  }

  /**
   * The AUTH event id is not tied to a connection: closing, reconnecting and
   * reopening keep it, so an OK for the earlier connection's event still
   * confirms on the new one.
   */
  lemma AuthIdSurvivesReconnect(s: Service, id: string, e1: Env, e2: Env, e3: Env, e4: Env)
    requires s.authEventId == Some(id) && !s.isReconnecting
    ensures
      var closed := Step(s, Closed, e1);
      var fired := Step(closed.next, ReconnectFires(closed.next.reconnect.runnable.value), e2);
      var up := Step(fired.next, Opened, e3);
      && up.next.authEventId == Some(id)
      && Step(up.next, Message(OkFrame(id)), e4) == AuthConfirmed(up.next, e4)
  {
    var closed := Step(s, Closed, e1);
    var fired := Step(closed.next, ReconnectFires(closed.next.reconnect.runnable.value), e2);
    var up := Step(fired.next, Opened, e3);
    OkFrameHandled(up.next, id, e4);
  }

  /**
   * `onDestroy` does not detach the listener, so the socket's `onClosed`
   * arriving afterwards schedules a reconnect, and when that runs the
   * destroyed service opens a new socket.
   */
  lemma ClosedAfterDestroyReconnects(s: Service, e1: Env, e2: Env, e3: Env)
    requires s.config.relay.Some? && !e3.connectThrows
    ensures
      var destroyed := Step(s, Destroy, e1);
      var closed := Step(destroyed.next, Closed, e2);
      var fired := Step(closed.next, ReconnectFires(closed.next.reconnect.runnable.value), e3);
      && destroyed.next.socket.None?
      && closed.effects == [PostDelayed(closed.next.reconnect.runnable.value, ReconnectDelayMs)]
      && fired.next.socket.Some?
      && fired.effects == [OpenSocket(fired.next.socket.value, s.config.relay.value)]
  {
    var destroyed := Step(s, Destroy, e1);
    var closed := Step(destroyed.next, Closed, e2);
    assert closed == ScheduleReconnect(destroyed.next);
  }

  /** Loading the stored configuration twice is loading it once. */
  lemma LoadConfigIdempotent(current: Config, stored: Config)
    ensures LoadConfigFromPrefs(LoadConfigFromPrefs(current, stored), stored) == LoadConfigFromPrefs(current, stored)
  {
  }

  /** A start without an endpoint or public key stops the service and never connects. */
  lemma IncompleteStartNeverConnects(s: Service, intent: Option<Config>, stored: Config, env: Env)
    requires intent.None? || Missing(intent.value.relay) || Missing(intent.value.pubkey)
    ensures forall e :: e in Step(s, StartCommand(intent, stored), env).effects ==> e == StopSelf
  {
  }
}
