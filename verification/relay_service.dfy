/**
 * The relay push client's state machine: one record holding the service's
 * fields, and one step per callback the service reacts to (service
 * creation and start, the socket listener's open / message / closed /
 * failure callbacks, the two delayed runnables, and destruction).
 *
 * Socket callbacks are not tagged with the socket that fired them, exactly
 * as the listener in the source writes to the service's fields whichever
 * socket it was attached to. Oracles (key store, clock, randomness, the
 * foreground check, SHA-256, Schnorr signing) arrive with each step.
 */
module RelayService {
  import opened Wrappers
  import opened Ascii
  import Hex
  import EventSigner

  const ReconnectDelayMs: nat := 5000
  const AuthRetryDelayMs: nat := 2000
  const SubscriptionIdLength: nat := 16
  /** The subscription's event kinds. */
  const SubscriptionKinds: seq<int> := [20285, 20284]
  /** WebSocket close code 1000, normal closure. */
  const NormalClosure: int := 1000

  /** The service's configuration strings; `None` is Java's `null`. */
  datatype Config = Config(relay: Option<string>, deviceId: Option<string>, pubkey: Option<string>)

  /** The `s == null || s.isEmpty()` test. */
  predicate Missing(v: Option<string>) {
    v.None? || v.value == ""
  }

  /**
   * One `Handler` queue used for one purpose: the runnables posted and
   * neither run nor removed, and the field that references the runnable
   * posted last (`reconnectRunnable` / `authRetryRunnable`).
   */
  datatype Timer = Timer(pending: set<nat>, runnable: Option<nat>)

  /** `handler.removeCallbacks(runnable)` for the referenced runnable, when there is one. */
  function Cancel(t: Timer): (u: Timer)
    ensures u.runnable == t.runnable
    ensures u.pending <= t.pending
    ensures t.runnable.Some? ==> t.runnable.value !in u.pending
    ensures forall r :: r in t.pending && Some(r) != t.runnable ==> r in u.pending
  {
    if t.runnable.Some? then t.(pending := t.pending - {t.runnable.value}) else t
  }

  /** `runnable = new Runnable(..); handler.postDelayed(runnable, ..)`. */
  function Post(t: Timer, id: nat): (u: Timer)
    ensures id in u.pending && u.runnable == Some(id)
    ensures u.pending - {id} == t.pending - {id}
  {
    Timer(t.pending + {id}, Some(id))
  }

  /** A runnable runs: it leaves the queue, and the field still references it. */
  function Fire(t: Timer, id: nat): (u: Timer)
    ensures id !in u.pending && u.runnable == t.runnable && u.pending <= t.pending
    ensures forall r :: r in t.pending && r != id ==> r in u.pending
  {
    t.(pending := t.pending - {id})
  }

  /** The service's fields. `nextId` names the next socket or runnable to be created. */
  datatype Service = Service(
    config: Config,
    secpReady: bool,
    socket: Option<nat>,
    isConnecting: bool,
    isReconnecting: bool,
    subscriptionId: Option<string>,
    regenerateSubscriptionId: bool,
    pendingAuthChallenge: Option<string>,
    authEventId: Option<string>,
    reconnect: Timer,
    authRetry: Timer,
    nextId: nat)

  /** The fields of a newly created service. */
  const Initial: Service := Service(
    Config(None, None, None), false, None, false, false, None, false, None, None,
    Timer({}, None), Timer({}, None), 0)

  /** Outbound frames, before JSON rendering. */
  datatype Frame =
    | Req(subscriptionId: string, kinds: seq<int>, hTags: seq<string>)
    | Auth(event: EventSigner.Event)

  datatype Effect =
    | OpenSocket(socket: nat, url: string)
    | CloseSocket(socket: nat, code: int, reason: string)
    | Send(socket: nat, frame: Frame)
    | PostDelayed(runnable: nat, delayMs: nat)
    | ShowNotification
    | ClearPrivateKey
    | StopSelf

  /**
   * A slot of an inbound frame's top-level array. `JNull` is the Java
   * `null` org.json stores for an elided value (`[a,,b]`, or a trailing
   * comma); JSON's own `null` is `JOther("null")`.
   */
  datatype Json = JString(str: string) | JBool(b: bool) | JOther(text: string) | JNull

  /** An inbound text message: a JSON array, or text `new JSONArray(..)` rejects. */
  datatype Inbound = Unparseable | JsonArray(items: seq<Json>)

  /** What the platform answers during one step. */
  datatype Env = Env(
    crypto: EventSigner.Crypto,
    privateKey: Option<string>,
    appInForeground: bool,
    nowMillis: nat,
    idDraws: nat -> Hex.Nibble,
    aux: EventSigner.AuxRand,
    connectThrows: bool)

  datatype Event =
    | Create(stored: Config, secpOk: bool)
    | StartCommand(intent: Option<Config>, stored: Config)
    | Opened
    | Message(frame: Inbound)
    | Closed
    | Failed
    | ReconnectFires(runnable: nat)
    | AuthRetryFires(runnable: nat)
    | Destroy

  datatype Transition = Transition(next: Service, effects: seq<Effect>)

  function Then(effects: seq<Effect>, t: Transition): Transition {
    Transition(t.next, effects + t.effects)
  }

  // ---------------------------------------------------------------------------
  // Invariant: at most one pending runnable per handler

  predicate TimerOk(t: Timer, nextId: nat) {
    && (forall r :: r in t.pending ==> t.runnable == Some(r))
    && (t.runnable.Some? ==> t.runnable.value < nextId)
  }

  predicate IsSubscriptionId(id: string) {
    |id| == SubscriptionIdLength && Hex.IsLowerHex(id)
  }

  predicate Inv(s: Service) {
    && TimerOk(s.reconnect, s.nextId)
    && TimerOk(s.authRetry, s.nextId)
    && (s.socket.Some? ==> s.socket.value < s.nextId)
    && (s.subscriptionId.Some? ==> IsSubscriptionId(s.subscriptionId.value))
  }

  lemma InitialInv()
    ensures Inv(Initial)
  {
  }

  // ---------------------------------------------------------------------------
  // Operations

  /**
   * `loadConfigFromPrefs`: a field that is null or empty takes the stored
   * value; a field that is present is never overwritten. A field still
   * missing afterwards holds the stored value, so loading again changes
   * nothing.
   */
  function LoadConfigFromPrefs(current: Config, stored: Config): (c: Config)
    ensures Missing(c.relay) <==> Missing(current.relay) && Missing(stored.relay)
    ensures Missing(c.deviceId) <==> Missing(current.deviceId) && Missing(stored.deviceId)
    ensures Missing(c.pubkey) <==> Missing(current.pubkey) && Missing(stored.pubkey)
    ensures !Missing(current.relay) ==> c.relay == current.relay
    ensures !Missing(current.deviceId) ==> c.deviceId == current.deviceId
    ensures !Missing(current.pubkey) ==> c.pubkey == current.pubkey
    ensures Missing(current.relay) ==> c.relay == stored.relay
    ensures Missing(current.deviceId) ==> c.deviceId == stored.deviceId
    ensures Missing(current.pubkey) ==> c.pubkey == stored.pubkey
    ensures Missing(c.relay) ==> c.relay == stored.relay
    ensures Missing(c.deviceId) ==> c.deviceId == stored.deviceId
    ensures Missing(c.pubkey) ==> c.pubkey == stored.pubkey
  {
    Config(
      if Missing(current.relay) then stored.relay else current.relay,
      if Missing(current.deviceId) then stored.deviceId else current.deviceId,
      if Missing(current.pubkey) then stored.pubkey else current.pubkey)
  }

  /** A device id defaults to the public key when it is null or empty. */
  function DefaultDeviceId(c: Config): (d: Config)
    ensures d.relay == c.relay && d.pubkey == c.pubkey
    ensures !Missing(c.deviceId) ==> d.deviceId == c.deviceId
    ensures Missing(c.deviceId) ==> d.deviceId == c.pubkey
  {
    if Missing(c.deviceId) then c.(deviceId := c.pubkey) else c
  }

  /** `scheduleReconnect`. */
  function ScheduleReconnect(s: Service): (r: Transition)
    ensures s.isConnecting || s.isReconnecting ==> r == Transition(s, [])
    ensures !(s.isConnecting || s.isReconnecting) ==>
      && r.next.isReconnecting
      && r.next.reconnect.runnable.Some?
      && (TimerOk(s.reconnect, s.nextId) ==> r.next.reconnect.runnable.value !in s.reconnect.pending)
      && r.effects == [PostDelayed(r.next.reconnect.runnable.value, ReconnectDelayMs)]
      && r.next == s.(isReconnecting := true, reconnect := r.next.reconnect, nextId := r.next.nextId)
      && (TimerOk(s.reconnect, s.nextId) ==> r.next.reconnect.pending == {r.next.reconnect.runnable.value})
    ensures r.next.nextId >= s.nextId
    ensures Inv(s) ==> Inv(r.next)
  {
    if s.isConnecting || s.isReconnecting then Transition(s, [])
    else
      var id := s.nextId;
      var t := Post(Cancel(s.reconnect), id);
      Transition(s.(isReconnecting := true, reconnect := t, nextId := id + 1), [PostDelayed(id, ReconnectDelayMs)])
  }

  /** Closes the current socket with a normal closure, when there is one. */
  function CloseCurrent(s: Service, reason: string): (e: seq<Effect>)
    ensures s.socket.None? ==> e == []
    ensures s.socket.Some? ==> e == [CloseSocket(s.socket.value, NormalClosure, reason)]
  {
    if s.socket.Some? then [CloseSocket(s.socket.value, NormalClosure, reason)] else []
  }

  /** `connectToRelay`. `env.connectThrows` is the request builder or `newWebSocket` throwing. */
  function Connect(s: Service, env: Env): (r: Transition)
    ensures s.isConnecting ==> r == Transition(s, [])
    ensures !s.isConnecting ==>
      && (s.socket.Some? ==> 0 < |r.effects| && r.effects[0] == CloseSocket(s.socket.value, NormalClosure, "Reconnecting"))
      && (env.connectThrows || s.config.relay.None? ==>
            && r.next.socket.None? && !r.next.isConnecting && r.next.isReconnecting
            && r.next.reconnect.runnable.Some? && r.next.reconnect.runnable.value in r.next.reconnect.pending
            && r.next == s.(socket := None, isConnecting := false, isReconnecting := true,
                            reconnect := r.next.reconnect, nextId := r.next.nextId)
            && r.effects == CloseCurrent(s, "Reconnecting")
                            + [PostDelayed(r.next.reconnect.runnable.value, ReconnectDelayMs)])
      && (!env.connectThrows && s.config.relay.Some? ==>
            && r.next.isConnecting
            && r.next.socket.Some?
            && (Inv(s) ==> r.next.socket != s.socket)
            && r.next == s.(socket := r.next.socket, isConnecting := true,
                            isReconnecting := s.isReconnecting || s.socket.Some?, nextId := r.next.nextId)
            && r.effects == CloseCurrent(s, "Reconnecting") + [OpenSocket(r.next.socket.value, s.config.relay.value)])
    ensures r.next.authEventId == s.authEventId && r.next.pendingAuthChallenge == s.pendingAuthChallenge
    ensures r.next.subscriptionId == s.subscriptionId && r.next.authRetry == s.authRetry
    ensures r.next.nextId >= s.nextId
    ensures Inv(s) ==> Inv(r.next)
  {
    if s.isConnecting then Transition(s, [])
    else
      var closing := CloseCurrent(s, "Reconnecting");
      var s1 := if s.socket.Some? then s.(isReconnecting := true, socket := None) else s;
      var s2 := s1.(isConnecting := true);
      if env.connectThrows || s.config.relay.None? then
        Then(closing, ScheduleReconnect(s2.(isConnecting := false, isReconnecting := false)))
      else
        var id := s2.nextId;
        Transition(s2.(socket := Some(id), nextId := id + 1), closing + [OpenSocket(id, s.config.relay.value)])
  }

  /** The filter's frame for the current subscription id and public key. */
  function ReqFrame(subscriptionId: string, pubkey: string): Frame {
    Req(subscriptionId, SubscriptionKinds, [pubkey])
  }

  /** Sends `frame` on the current socket, or drops it when there is none. */
  function SendIfOpen(s: Service, frame: Frame): (e: seq<Effect>)
    ensures s.socket.None? ==> e == []
    ensures s.socket.Some? ==> e == [Send(s.socket.value, frame)]
  {
    if s.socket.Some? then [Send(s.socket.value, frame)] else []
  }

  /** `sendSubscriptionRequest`. */
  function SendSubscriptionRequest(s: Service, env: Env): (r: Transition)
    ensures s.config.pubkey.None? ==> r == Transition(s, [])
    ensures s.config.pubkey.Some? ==>
      && r.next == s.(subscriptionId := r.next.subscriptionId, regenerateSubscriptionId := false)
      && r.next.subscriptionId.Some?
      && (s.subscriptionId.Some? && !s.regenerateSubscriptionId ==> r.next.subscriptionId == s.subscriptionId)
      && (s.subscriptionId.None? || s.regenerateSubscriptionId ==>
            r.next.subscriptionId == Some(Hex.RandomHex(SubscriptionIdLength, env.idDraws)))
      && r.effects == SendIfOpen(s, ReqFrame(r.next.subscriptionId.value, s.config.pubkey.value))
    ensures Inv(s) ==> Inv(r.next)
  {
    if s.config.pubkey.None? then Transition(s, [])
    else
      var s1 :=
        if s.subscriptionId.None? || s.regenerateSubscriptionId
        then s.(subscriptionId := Some(Hex.RandomHex(SubscriptionIdLength, env.idDraws)), regenerateSubscriptionId := false)
        else s;
      Transition(s1, SendIfOpen(s1, ReqFrame(s1.subscriptionId.value, s.config.pubkey.value)))
  }

  /** The AUTH event `handleAuthChallenge` builds; a null relay or public key makes the build throw. */
  function BuildAuthEvent(s: Service, challenge: string, privkey: string, env: Env): Option<EventSigner.Event> {
    if s.config.relay.None? || s.config.pubkey.None? then None
    else EventSigner.CreateAuthEvent(env.crypto, s.secpReady, challenge, s.config.relay.value, s.config.pubkey.value,
                                     privkey, env.nowMillis, env.aux)
  }

  /** `handleAuthChallenge`. */
  function HandleAuthChallenge(s: Service, challenge: string, env: Env): (r: Transition)
    ensures Missing(env.privateKey) ==>
      && r.next == s.(pendingAuthChallenge := Some(challenge), authRetry := r.next.authRetry, nextId := r.next.nextId)
      && r.next.authRetry.runnable.Some?
      && (TimerOk(s.authRetry, s.nextId) ==> r.next.authRetry.runnable.value !in s.authRetry.pending)
      && r.effects == [PostDelayed(r.next.authRetry.runnable.value, AuthRetryDelayMs)]
      && (TimerOk(s.authRetry, s.nextId) ==> r.next.authRetry.pending == {r.next.authRetry.runnable.value})
    ensures !Missing(env.privateKey) ==>
      && r.next.pendingAuthChallenge.None?
      && r.next.authRetry.runnable.None?
      && (TimerOk(s.authRetry, s.nextId) ==> r.next.authRetry.pending == {})
      && var built := BuildAuthEvent(s, challenge, env.privateKey.value, env);
         && r.next == s.(pendingAuthChallenge := None, authRetry := r.next.authRetry,
                         authEventId := if built.Some? then Some(built.value.id) else s.authEventId)
         && r.effects == (if built.Some? then SendIfOpen(s, Auth(built.value)) else [])
    ensures r.next.nextId >= s.nextId
    ensures Inv(s) ==> Inv(r.next)
  {
    var s1 := s.(pendingAuthChallenge := Some(challenge));
    if Missing(env.privateKey) then
      var id := s1.nextId;
      Transition(s1.(authRetry := Post(Cancel(s1.authRetry), id), nextId := id + 1), [PostDelayed(id, AuthRetryDelayMs)])
    else
      var s2 := s1.(pendingAuthChallenge := None, authRetry := Cancel(s1.authRetry).(runnable := None));
      match BuildAuthEvent(s, challenge, env.privateKey.value, env)
      case None => Transition(s2, [])
      case Some(ev) => Transition(s2.(authEventId := Some(ev.id)), SendIfOpen(s2, Auth(ev)))
  }

  /**
   * org.json's `getString(i)`: out of range or an elided slot throws; other
   * values are coerced to their text.
   */
  function GetString(items: seq<Json>, i: nat): (r: Option<string>)
    ensures r.Some? <==> i < |items| && !items[i].JNull?
    ensures i < |items| && items[i].JString? ==> r == Some(items[i].str)
    ensures i < |items| && items[i].JBool? ==> r == Some(if items[i].b then "true" else "false")
    ensures i < |items| && items[i].JOther? ==> r == Some(items[i].text)
  {
    if i >= |items| then None
    else
      match items[i]
      case JString(t) => Some(t)
      case JBool(b) => Some(if b then "true" else "false")
      case JOther(text) => Some(text)
      case JNull => None
  }

  /** org.json's `getBoolean(i)`: a boolean, or the string "true"/"false" in any case; anything else throws. */
  function GetBoolean(items: seq<Json>, i: nat): (r: Option<bool>)
    ensures r.Some? ==> i < |items|
    ensures i < |items| && items[i].JBool? ==> r == Some(items[i].b)
    ensures i < |items| && items[i].JString? ==>
      (r == Some(true) <==> Lower(items[i].str) == "true")
      && (r == Some(false) <==> Lower(items[i].str) == "false")
    ensures i < |items| && (items[i].JOther? || items[i].JNull?) ==> r.None?
  {
    if i >= |items| then None
    else
      match items[i]
      case JBool(b) => Some(b)
      case JString(t) => if Lower(t) == "true" then Some(true) else if Lower(t) == "false" then Some(false) else None
      case JOther(_) => None
      case JNull => None
  }

  /**
   * An OK frame confirms the pending AUTH event: three or more items, status
   * true, id equal to `authEventId`, and a readable message when there is a
   * fourth item.
   */
  predicate ConfirmsAuth(s: Service, items: seq<Json>) {
    && 3 <= |items|
    && GetString(items, 0) == Some("OK")
    && GetBoolean(items, 2) == Some(true)
    && (|items| <= 3 || GetString(items, 3).Some?)
    && s.authEventId.Some?
    && GetString(items, 1) == s.authEventId
  }

  /** The post-AUTH path: forget the AUTH event and challenge, and resubscribe under a new id. */
  function AuthConfirmed(s: Service, env: Env): (r: Transition)
    ensures r.next.authEventId.None? && r.next.pendingAuthChallenge.None?
    ensures r.next == s.(authEventId := None, pendingAuthChallenge := None, subscriptionId := r.next.subscriptionId,
                         regenerateSubscriptionId := s.config.pubkey.None?)
    ensures s.config.pubkey.Some? ==>
      && r.next.subscriptionId == Some(Hex.RandomHex(SubscriptionIdLength, env.idDraws))
      && r.effects == SendIfOpen(s, ReqFrame(r.next.subscriptionId.value, s.config.pubkey.value))
    ensures s.config.pubkey.None? ==> r.effects == [] && r.next.regenerateSubscriptionId
    ensures Inv(s) ==> Inv(r.next)
  {
    SendSubscriptionRequest(s.(authEventId := None, pendingAuthChallenge := None, regenerateSubscriptionId := true), env)
  }

  /** `handleMessage`. Parse errors and out-of-range reads are caught: the frame is dropped. */
  function HandleMessage(s: Service, frame: Inbound, env: Env): (r: Transition)
    ensures frame.JsonArray? && ConfirmsAuth(s, frame.items) ==> r == AuthConfirmed(s, env)
    ensures frame.JsonArray? && GetString(frame.items, 0) == Some("AUTH") && GetString(frame.items, 1).Some? ==>
      r == HandleAuthChallenge(s, GetString(frame.items, 1).value, env)
    ensures frame.JsonArray? && GetString(frame.items, 0) == Some("EVENT") ==>
      r == Transition(s, if env.appInForeground then [] else [ShowNotification])
    ensures (!(frame.JsonArray? && ConfirmsAuth(s, frame.items))
             && !(frame.JsonArray? && GetString(frame.items, 0) == Some("AUTH"))
             && !(frame.JsonArray? && GetString(frame.items, 0) == Some("EVENT"))) ==>
      r == Transition(s, [])
    ensures frame.JsonArray? && GetString(frame.items, 0) == Some("AUTH") && GetString(frame.items, 1).None? ==>
      r == Transition(s, [])
    ensures r.next.nextId >= s.nextId
    ensures Inv(s) ==> Inv(r.next)
  {
    match frame
    case Unparseable => Transition(s, [])
    case JsonArray(items) =>
      match GetString(items, 0)
      case None => Transition(s, [])
      case Some(messageType) =>
        if messageType == "EVENT" then
          Transition(s, if env.appInForeground then [] else [ShowNotification])
        else if messageType == "AUTH" then
          match GetString(items, 1)
          case None => Transition(s, [])
          case Some(challenge) => HandleAuthChallenge(s, challenge, env)
        else if messageType == "OK" then
          if |items| < 3 then Transition(s, [])
          else
            match GetString(items, 1)
            case None => Transition(s, [])
            case Some(eventId) =>
              match GetBoolean(items, 2)
              case None => Transition(s, [])
              case Some(status) =>
                if |items| > 3 && GetString(items, 3).None? then Transition(s, [])
                else if status && s.authEventId.Some? && s.authEventId.value == eventId then AuthConfirmed(s, env)
                else Transition(s, [])
        else
          Transition(s, [])
  }

  /** The listener's `onClosed`. */
  function OnClosed(s: Service): (r: Transition)
    ensures s.isReconnecting ==> r == Transition(s.(isConnecting := false, isReconnecting := false), [])
    ensures !s.isReconnecting ==> r == ScheduleReconnect(s.(isConnecting := false))
    ensures !s.isReconnecting ==> r.next.isReconnecting && |r.effects| == 1 && r.effects[0].PostDelayed?
    ensures Inv(s) ==> Inv(r.next)
  {
    var s1 := s.(isConnecting := false);
    if !s1.isReconnecting then ScheduleReconnect(s1) else Transition(s1.(isReconnecting := false), [])
  }

  /** `onStartCommand`. */
  function StartCommandStep(s: Service, intent: Option<Config>, stored: Config, env: Env): (r: Transition)
    ensures intent.Some? && (Missing(intent.value.relay) || Missing(intent.value.pubkey)) ==>
      r == Transition(s.(config := intent.value), [StopSelf])
    ensures intent.Some? && !Missing(intent.value.relay) && !Missing(intent.value.pubkey) ==>
      && r.next.config == DefaultDeviceId(intent.value)
      && StopSelf !in r.effects
      && (s.isConnecting || s.socket.Some? ==> r == Transition(s.(config := r.next.config), []))
      && (!s.isConnecting && s.socket.None? ==> r == Connect(s.(config := DefaultDeviceId(intent.value)), env))
    ensures intent.None? && !Missing(s.config.relay) && !Missing(s.config.pubkey) ==> r == Transition(s, [])
    ensures intent.None? && (Missing(s.config.relay) || Missing(s.config.pubkey)) ==>
      var loaded := LoadConfigFromPrefs(s.config, stored);
      && r.next == s.(config := loaded)
      && r.effects == (if Missing(loaded.relay) || Missing(loaded.pubkey) then [StopSelf] else [])
    ensures Inv(s) ==> Inv(r.next)
  {
    match intent
    case Some(cfg) =>
      var s1 := s.(config := cfg);
      if Missing(cfg.relay) || Missing(cfg.pubkey) then Transition(s1, [StopSelf])
      else
        var s2 := s1.(config := DefaultDeviceId(cfg));
        if !s2.isConnecting && s2.socket.None? then
          var t := Connect(s2, env);
          assert forall e :: e in t.effects ==> e.OpenSocket? || e.CloseSocket? || e.PostDelayed?;
          t
        else Transition(s2, [])
    case None =>
      if Missing(s.config.relay) || Missing(s.config.pubkey) then
        var s1 := s.(config := LoadConfigFromPrefs(s.config, stored));
        if Missing(s1.config.relay) || Missing(s1.config.pubkey) then Transition(s1, [StopSelf]) else Transition(s1, [])
      else Transition(s, [])
  }

  /** `onCreate`. */
  function CreateStep(s: Service, stored: Config, secpOk: bool, env: Env): (r: Transition)
    ensures r.next.secpReady == secpOk
    ensures Missing(r.next.config.relay) || Missing(r.next.config.pubkey) ==>
      r == Transition(s.(secpReady := secpOk, config := LoadConfigFromPrefs(s.config, stored)), [])
    ensures !Missing(r.next.config.relay) && !Missing(r.next.config.pubkey) ==>
      r.next.config == DefaultDeviceId(LoadConfigFromPrefs(s.config, stored))
    ensures var loaded := LoadConfigFromPrefs(s.config, stored);
      !Missing(loaded.relay) && !Missing(loaded.pubkey) ==>
        && (!s.isConnecting && s.socket.None? ==>
              r == Connect(s.(secpReady := secpOk, config := DefaultDeviceId(loaded)), env))
        && (s.isConnecting || s.socket.Some? ==>
              r == Transition(s.(secpReady := secpOk, config := DefaultDeviceId(loaded)), []))
    ensures Inv(s) ==> Inv(r.next)
  {
    var s1 := s.(secpReady := secpOk, config := LoadConfigFromPrefs(s.config, stored));
    if !Missing(s1.config.relay) && !Missing(s1.config.pubkey) then
      var s2 := s1.(config := DefaultDeviceId(s1.config));
      if !s2.isConnecting && s2.socket.None? then Connect(s2, env) else Transition(s2, [])
    else Transition(s1, [])
  }

  /** `onDestroy`: close the socket, remove both referenced runnables, clear the flags and the stored key. */
  function DestroyStep(s: Service): (r: Transition)
    ensures r.next.socket.None? && !r.next.isConnecting && !r.next.isReconnecting
    ensures TimerOk(s.reconnect, s.nextId) ==> r.next.reconnect.pending == {}
    ensures TimerOk(s.authRetry, s.nextId) ==> r.next.authRetry.pending == {}
    ensures r.effects == CloseCurrent(s, "Service stopping") + [ClearPrivateKey]
    ensures r.next.reconnect.runnable == s.reconnect.runnable && r.next.authRetry.runnable == s.authRetry.runnable
    ensures r.next == s.(socket := None, isConnecting := false, isReconnecting := false,
                         reconnect := r.next.reconnect, authRetry := r.next.authRetry)
    ensures Inv(s) ==> Inv(r.next)
  {
    var closing := CloseCurrent(s, "Service stopping");
    Transition(
      s.(socket := None, reconnect := Cancel(s.reconnect), authRetry := Cancel(s.authRetry),
         isConnecting := false, isReconnecting := false),
      closing + [ClearPrivateKey])
  }

  /** The listener's `onOpen`: the connection is up, subscribe. */
  function OnOpened(s: Service, env: Env): (r: Transition)
    ensures !r.next.isConnecting && !r.next.isReconnecting
    ensures r.next.authEventId == s.authEventId && r.next.pendingAuthChallenge == s.pendingAuthChallenge
    ensures s.config.pubkey.None? ==> r == Transition(s.(isConnecting := false, isReconnecting := false), [])
    ensures s.config.pubkey.Some? ==>
      && r.next == s.(isConnecting := false, isReconnecting := false, subscriptionId := r.next.subscriptionId,
                      regenerateSubscriptionId := false)
      && r.next.subscriptionId.Some?
      && r.effects == SendIfOpen(s, ReqFrame(r.next.subscriptionId.value, s.config.pubkey.value))
    ensures Inv(s) ==> Inv(r.next)
  {
    SendSubscriptionRequest(s.(isConnecting := false, isReconnecting := false), env)
  }

  /** The listener's `onFailure`. */
  function OnFailed(s: Service): (r: Transition)
    ensures !r.next.isConnecting && r.next.isReconnecting
    ensures r.next.reconnect.runnable.Some?
    ensures r.effects == [PostDelayed(r.next.reconnect.runnable.value, ReconnectDelayMs)]
    ensures r.next == s.(isConnecting := false, isReconnecting := true, reconnect := r.next.reconnect,
                         nextId := r.next.nextId)
    ensures Inv(s) ==> Inv(r.next) && r.next.reconnect.pending == {r.next.reconnect.runnable.value}
  {
    ScheduleReconnect(s.(isConnecting := false, isReconnecting := false))
  }

  /** The reconnect runnable runs: a runnable that was removed never runs. */
  function OnReconnectFires(s: Service, id: nat, env: Env): (r: Transition)
    ensures id !in s.reconnect.pending ==> r == Transition(s, [])
    ensures id in s.reconnect.pending ==> r == Connect(s.(reconnect := Fire(s.reconnect, id), isReconnecting := false), env)
    ensures Inv(s) ==> Inv(r.next)
  {
    if id !in s.reconnect.pending then Transition(s, [])
    else
      var s1 := s.(reconnect := Fire(s.reconnect, id), isReconnecting := false);
      assert Inv(s) ==> Inv(s1);
      Connect(s1, env)
  }

  /** The auth-retry runnable runs: it retries the recorded challenge, if any. */
  function OnAuthRetryFires(s: Service, id: nat, env: Env): (r: Transition)
    ensures id !in s.authRetry.pending ==> r == Transition(s, [])
    ensures id in s.authRetry.pending && s.pendingAuthChallenge.Some? ==>
      r == HandleAuthChallenge(s.(authRetry := Fire(s.authRetry, id)), s.pendingAuthChallenge.value, env)
    ensures id in s.authRetry.pending && s.pendingAuthChallenge.None? ==>
      r == Transition(s.(authRetry := Timer(s.authRetry.pending - {id}, s.authRetry.runnable)), [])
    ensures Inv(s) ==> Inv(r.next)
  {
    if id !in s.authRetry.pending then Transition(s, [])
    else
      var s1 := s.(authRetry := Fire(s.authRetry, id));
      assert Inv(s) ==> Inv(s1);
      if s1.pendingAuthChallenge.Some? then HandleAuthChallenge(s1, s1.pendingAuthChallenge.value, env)
      else Transition(s1, [])
  }

  /** The service's reaction to one event. */
  function Step(s: Service, e: Event, env: Env): (r: Transition)
    ensures Inv(s) ==> Inv(r.next)
  {
    match e
    case Create(stored, secpOk) => CreateStep(s, stored, secpOk, env)
    case StartCommand(intent, stored) => StartCommandStep(s, intent, stored, env)
    case Opened => OnOpened(s, env)
    case Message(frame) => HandleMessage(s, frame, env)
    case Closed => OnClosed(s)
    case Failed => OnFailed(s)
    case ReconnectFires(id) => OnReconnectFires(s, id, env)
    case AuthRetryFires(id) => OnAuthRetryFires(s, id, env)
    case Destroy => DestroyStep(s)
  }
}
