/** Exactly when each of the four publish routes hands a message over, which message it
    is, and which trace is left otherwise, after any history. */
module PublishExact {
  import opened Text
  import opened Wrappers
  import opened TopicPermissions
  import opened PublishTraces
  import opened Gateway
  import opened PublishSafety
  import IW = InstallWorkflow
  import R = RegistrationStore
  import T = Telemetry
  import P = PolicyCache
  import PP = PolicyPayloads

  // ----- Conditions -----------------------------------------------------------

  predicate Plain(topic: string) {
    '+' !in topic && '#' !in topic
  }

  /** A topic that an addon may publish on: below its own prefix, without wildcards, and
      without a lifecycle level further down than first. */
  predicate Fits(topic: string, id: string) {
    var prefix := "synthia/addons/" + id + "/";
    Plain(topic) && prefix <= topic &&
    var tail := topic[|prefix|..];
    tail in {"announce", "health"} || (!Contains(tail, "/announce") && !Contains(tail, "/health"))
  }

  const PLATFORM_PARTS := {"system", "core", "supervisor", "scheduler", "policy", "telemetry"}

  predicate PlatformOwned(topic: string) {
    exists part | part in PLATFORM_PARTS :: "synthia/" + part + "/" <= topic
  }

  /** What stands in for `Fits` when no addon owns the topic. */
  predicate FitsNobody(topic: string) {
    Plain(topic) && topic != "" && !PlatformOwned(topic)
  }

  /** A complete platform message. */
  predicate Full(payload: Payload, lower: string -> string) {
    && payload.Envelope?
    && lower(Trim(payload.messageType)) in
         {"announce", "health", "event", "state", "command", "telemetry", "policy"}
    && Trim(payload.source) != "" && Trim(payload.timestamp) != "" && payload.hasData
  }

  /** The install state can be read and the caller is entitled to publish. */
  ghost predicate Passes(site: Site, before: seq<Op>, r: Request, env: Env) {
    !env.stateRaises && Entitled(site, before, r.claims)
  }

  /** The registration of an addon after a history, if the stored ones can be read. */
  ghost function Known(site: Site, before: seq<Op>, id: string, env: Env): Option<R.Record> {
    var records := R.Fold(site.digest, Upserts(site, before)).records;
    if !env.misread && id in records then Some(records[id]) else None
  }

  // ----- Outcomes -------------------------------------------------------------

  function WithTrace(ts: seq<Trace>, t: Trace, env: Env): seq<Trace> {
    if env.traceSave.Saved? then ts + [t] else ts
  }

  /** The message goes to the broker client, its fate is traced unless the client raises,
      and its usage counted if the client took it and that could be traced. */
  ghost predicate HandsOver(w: World, t: World, r: Request, env: Env, operation: string, addon: string,
                            topic: string, payload: Payload)
  {
    var ok, traced := env.broker.Accepts?, !env.broker.Raises? && env.traceSave.Saved?;
    && t.sent == w.sent + [Sent(r, topic, payload, ok, traced)]
    && t.traces == (if env.broker.Raises? then w.traces else
         WithTrace(w.traces, Trace(operation, if ok then Success else Error, Some(addon), Some(r.claims.sub),
                                   Some(topic)), env))
    && t.usage == (if ok && traced then w.usage + [T.Event(r.claims.sub, operation)] else w.usage)
  }

  /** Nothing is handed over; one trace with this outcome is left. */
  ghost predicate Leaves(w: World, t: World, r: Request, env: Env, operation: string, addon: string,
                         outcome: Outcome)
  {
    && t.sent == w.sent && t.usage == w.usage
    && exists topic ::
         t.traces == WithTrace(w.traces, Trace(operation, outcome, Some(addon), Some(r.claims.sub), topic), env)
  }

  ghost predicate Silent(w: World, t: World) {
    t.sent == w.sent && t.usage == w.usage && t.traces == w.traces
  }

  // ----- Bridges --------------------------------------------------------------

  lemma ReservedIsPlatform(topic: string)
    ensures IsReserved(topic) <==> PlatformOwned(topic)
  {
    var parts := ["system", "core", "supervisor", "scheduler", "policy", "telemetry"];
    forall i | 0 <= i < 6 ensures RESERVED_NAMESPACE_PREFIXES[i] == "synthia/" + parts[i] + "/" {}
    if IsReserved(topic) {
      var prefix :| prefix in RESERVED_NAMESPACE_PREFIXES && StartsWith(topic, prefix);
      var i :| 0 <= i < 6 && RESERVED_NAMESPACE_PREFIXES[i] == prefix;
      assert parts[i] in PLATFORM_PARTS;
    }
    if PlatformOwned(topic) {
      var part :| part in PLATFORM_PARTS && "synthia/" + part + "/" <= topic;
      assert part in parts;
      var i :| 0 <= i < 6 && parts[i] == part;
      assert RESERVED_NAMESPACE_PREFIXES[i] in RESERVED_NAMESPACE_PREFIXES;
      assert StartsWith(topic, RESERVED_NAMESPACE_PREFIXES[i]);
    }
  }

  /** The topic check for an owner passes exactly on what fits. */
  lemma CheckIsFits(topic: string, addonId: Option<string>)
    ensures var t := Trim(topic);
      var ok := if Owner(addonId).Some? then Fits(t, Owner(addonId).value) else FitsNobody(t);
      ValidatePublishTopic(topic, addonId) == if ok then Some(t) else None
  {
    PublishTopicIff(topic, addonId);
    ReservedIsPlatform(Trim(topic));
  }

  lemma FullIsComplete(payload: Payload, lower: string -> string)
    ensures Complete(payload, lower) <==> Full(payload, lower)
  {
  }

  lemma PassesIff(site: Site, before: seq<Op>, r: Request, env: Env)
    ensures var w := Run(site, before);
      Passes(site, before, r, env) <==>
        !env.stateRaises && IW.GateOpen(w.install) && P.Allows(w.cache, site.serviceName, r.claims, PUBLISH)
  {
    RunParts(site, before);
    IW.GateIffApplied(First(site).install, SetupOps(before));
    PP.AllowsIffEntitled(HeardSince(before), site.serviceName, site.lower, r.claims, PUBLISH);
  }

  lemma Readable(site: Site, before: seq<Op>, r: Request, env: Env)
    requires Passes(site, before, r, env)
    ensures !env.stateRaises && IW.Readable(Run(site, before).install)
  {
    PassesIff(site, before, r, env);
  }

  /** A request that passes goes on to the checks of its route. */
  lemma Passed(site: Site, before: seq<Op>, r: Request, env: Env)
    requires Passes(site, before, r, env)
    ensures var d := Decide(site, Run(site, before), r, env);
      if r.Direct? then d == DecideDirect(site, r, env.broker)
      else
        var id := Trim(r.addonId);
        var known := Known(site, before, id, env);
        if known.None? then d == Refuse(Shown(r))
        else
          match r
          case ViaGateway(_, _, _, _, _) =>
            d == DecideGateway(site, id, known.value.permissions.publish, r, env.broker)
          case HaDiscovery(_, _, _) => d == DecideDiscovery(known.value.haMode, r, env.broker)
          case HaState(_, _, _, _) => d == DecideState(known.value.haMode, r, env.broker)
  {
    PassesIff(site, before, r, env);
    RunParts(site, before);
  }

  /** Until a request passes, it leaves a denied trace, or none when the state is unreadable. */
  lemma Unpassed(site: Site, before: seq<Op>, r: Request, env: Env)
    requires !Passes(site, before, r, env)
    ensures var w := Run(site, before);
      Decide(site, w, r, env) ==
        if env.stateRaises || !IW.Readable(w.install) then RefuseSilently else Refuse(Shown(r))
  {
    PassesIff(site, before, r, env);
  }

  lemma SettledRefusal(w: World, d: Decision, r: Request, env: Env)
    ensures d.Refuse? ==> Leaves(w, Settle(w, d, r, env), r, env, Operation(r), AddonOf(r), Denied)
    ensures d.Unavailable? ==> Leaves(w, Settle(w, d, r, env), r, env, Operation(r), AddonOf(r), Error)
    ensures d.RefuseSilently? ==> Silent(w, Settle(w, d, r, env))
    ensures d.Hand? ==> HandsOver(w, Settle(w, d, r, env), r, env, Operation(r), AddonOf(r), d.topic, d.payload)
  {
    if d.Refuse? {
      assert Settle(w, d, r, env).traces ==
        WithTrace(w.traces, Trace(Operation(r), Denied, Some(AddonOf(r)), Some(r.claims.sub), d.shown), env);
    }
    if d.Unavailable? {
      assert Settle(w, d, r, env).traces ==
        WithTrace(w.traces, Trace(Operation(r), Error, Some(AddonOf(r)), Some(r.claims.sub), Some(d.topic)), env);
    }
  }

  // ----- The direct route -----------------------------------------------------

  lemma DirectDecision(site: Site, r: Request, broker: Broker)
    requires r.Direct? && r.claims.sub != "" && Trimmed(r.claims.sub) && r.claims.sub != "anonymous"
    ensures var d, topic := DecideDirect(site, r, broker), Trim(r.topic);
      if !Fits(topic, r.claims.sub) then d.Refuse?
      else if broker.NoService? then d.Unavailable?
      else if !Full(r.payload, site.lower) then d.Refuse?
      else d == Hand(topic, r.payload)
  {
    var topic, sub := Trim(r.topic), r.claims.sub;
    assert Owner(Some(sub)) == Some(sub) && Trim(topic) == topic;
    CheckIsFits(topic, Some(sub));
    FullIsComplete(r.payload, site.lower);
    if Fits(topic, sub) {
      PrefixIsPlatform(topic, sub);
    }
  }

  lemma SenderNamed(site: Site, before: seq<Op>, r: Request, env: Env)
    requires Passes(site, before, r, env)
    ensures r.claims.sub != "" && Trimmed(r.claims.sub) && r.claims.sub != "anonymous"
  {
    PassesIff(site, before, r, env);
    CacheKeys(site, before);
  }

  /** The direct route hands over exactly the request's own trimmed topic and payload, and
      exactly when the caller passes, the topic fits the caller's id, the payload is a
      complete message and the client is there; otherwise it leaves an error trace if only
      the client, or besides it the payload, is at fault, and a denied one in every other
      case in which the state can be read. */
  lemma {:induction false} DirectExact(site: Site, before: seq<Op>, r: Request, env: Env)
    requires r.Direct?
    ensures var w := Run(site, before);
      var t := Step(site, w, Publish(r, env));
      var topic, sub := Trim(r.topic), r.claims.sub;
      var passes := Passes(site, before, r, env);
      if env.stateRaises || !IW.Readable(w.install) then Silent(w, t)
      else if passes && Fits(topic, sub) && Full(r.payload, site.lower) && !env.broker.NoService?
      then HandsOver(w, t, r, env, "mqtt.publish", sub, topic, r.payload)
      else Leaves(w, t, r, env, "mqtt.publish", sub,
                  if passes && Fits(topic, sub) && env.broker.NoService? then Error else Denied)
  {
    var w := Run(site, before);
    SettledRefusal(w, Decide(site, w, r, env), r, env);
    if Passes(site, before, r, env) {
      Readable(site, before, r, env);
      SenderNamed(site, before, r, env);
      Passed(site, before, r, env);
      DirectDecision(site, r, env.broker);
    } else {
      Unpassed(site, before, r, env);
    }
  }

  // ----- The gateway route ----------------------------------------------------

  /** The topic a gateway request asks for: its own if it is not blank, else the addon's
      topic for the message type. */
  function AskedTopic(r: Request, id: string, messageType: string): string
    requires r.ViaGateway?
  {
    if r.wanted.Some? && Trim(r.wanted.value) != "" then Trim(r.wanted.value)
    else "synthia/addons/" + id + "/" + messageType
  }

  /** Everything but the client speaks for the message. */
  ghost predicate Publishable(site: Site, record: R.Record, id: string, topic: string, envelope: Payload) {
    && (if id == "anonymous" then FitsNobody(topic) else Fits(topic, id))
    && (exists s | s in record.permissions.publish :: TopicMatches(s, topic))
    && Full(envelope, site.lower)
  }

  lemma ScopedIsPlatform(scopes: seq<string>, id: string, topic: string)
    requires Trimmed(topic) && forall s | s in scopes :: PublishScopeOk(s, id)
    ensures AllowedByScopes(topic, scopes) && (id == "anonymous" || Fits(topic, id)) ==> IsPlatformTopic(Trim(topic))
  {
    if AllowedByScopes(topic, scopes) && (id == "anonymous" || Fits(topic, id)) {
      if id == "anonymous" {
        AnonymousConfined(scopes, topic);
      }
      PrefixIsPlatform(topic, id);
    }
  }

  lemma KnownIsSound(site: Site, before: seq<Op>, id: string, env: Env)
    ensures var known := Known(site, before, id, env);
      known.Some? ==>
        id != "" && Trimmed(id) && forall s | s in known.value.permissions.publish :: PublishScopeOk(s, id)
  {
    R.FoldWellFormed(site.digest, Upserts(site, before));
  }

  /** The three checks of the route together ask for what is publishable. */
  lemma ChecksArePublishable(site: Site, id: string, record: R.Record, asked: string, envelope: Payload)
    requires id != "" && Trimmed(id)
    requires forall s | s in record.permissions.publish :: PublishScopeOk(s, id)
    ensures var topic, checked := Trim(asked), ValidatePublishTopic(asked, Some(id));
      && (checked.Some? ==> checked.value == topic)
      && (Publishable(site, record, id, topic, envelope) <==>
            checked.Some? && AllowedByScopes(topic, record.permissions.publish)
            && EnvelopeOk(topic, envelope, site.lower))
  {
    assert Owner(Some(id)) == if id == "anonymous" then None else Some(id);
    CheckIsFits(asked, Some(id));
    FullIsComplete(envelope, site.lower);
    ScopedIsPlatform(record.permissions.publish, id, Trim(asked));
  }

  lemma GatewayDecision(site: Site, r: Request, broker: Broker, id: string, record: R.Record)
    requires r.ViaGateway? && id != "" && Trimmed(id)
    requires forall s | s in record.permissions.publish :: PublishScopeOk(s, id)
    ensures var messageType := site.lower(Trim(r.messageType));
      var topic := Trim(AskedTopic(r, id, messageType));
      var envelope := Envelope(messageType, id, r.timestamp, true);
      var d := DecideGateway(site, id, record.permissions.publish, r, broker);
      if messageType == "" then d.RefuseSilently?
      else if !Publishable(site, record, id, topic, envelope) then d.Refuse?
      else if broker.NoService? then d.Unavailable? else d == Hand(topic, envelope)
  {
    var messageType := site.lower(Trim(r.messageType));
    assert Prefix(id) == "synthia/addons/" + id + "/";
    ChecksArePublishable(site, id, record, AskedTopic(r, id, messageType),
                         Envelope(messageType, id, r.timestamp, true));
  }

  /** The gateway hands over exactly the asked topic, trimmed, with an envelope of the folded
      type, the addon's id, the time and the data; and exactly when the caller passes, the
      addon is registered, the type is not blank, the topic fits the addon and matches one
      of its registered scopes, the envelope is complete and the client is there. */
  lemma {:induction false} GatewayExact(site: Site, before: seq<Op>, r: Request, env: Env)
    requires r.ViaGateway?
    ensures var w := Run(site, before);
      var t := Step(site, w, Publish(r, env));
      var id, messageType := Trim(r.addonId), site.lower(Trim(r.messageType));
      var topic := Trim(AskedTopic(r, id, messageType));
      var envelope := Envelope(messageType, id, r.timestamp, true);
      var passes, record := Passes(site, before, r, env), Known(site, before, id, env);
      if env.stateRaises || !IW.Readable(w.install) then Silent(w, t)
      else if passes && record.Some? && messageType == "" then Silent(w, t)
      else if passes && record.Some? && Publishable(site, record.value, id, topic, envelope) then
        if env.broker.NoService? then Leaves(w, t, r, env, "mqtt.gateway.publish", id, Error)
        else HandsOver(w, t, r, env, "mqtt.gateway.publish", id, topic, envelope)
      else Leaves(w, t, r, env, "mqtt.gateway.publish", id, Denied)
  {
    var w := Run(site, before);
    SettledRefusal(w, Decide(site, w, r, env), r, env);
    if Passes(site, before, r, env) {
      Readable(site, before, r, env);
      Passed(site, before, r, env);
      var id := Trim(r.addonId);
      var known := Known(site, before, id, env);
      KnownIsSound(site, before, id, env);
      if known.Some? {
        GatewayDecision(site, r, env.broker, id, known.value);
      }
    } else {
      Unpassed(site, before, r, env);
    }
  }

  // ----- The Home Assistant routes --------------------------------------------

  /** Discovery hands over the topic of the unique id exactly when the caller passes, the
      addon is registered for Home Assistant and the client is there. */
  lemma {:induction false} DiscoveryExact(site: Site, before: seq<Op>, r: Request, env: Env)
    requires r.HaDiscovery?
    ensures var w := Run(site, before);
      var t := Step(site, w, Publish(r, env));
      var record := Known(site, before, Trim(r.addonId), env);
      var ready := Passes(site, before, r, env) && record.Some? && record.value.haMode != R.NoHa;
      if env.stateRaises || !IW.Readable(w.install) then Silent(w, t)
      else if ready && !env.broker.NoService?
      then HandsOver(w, t, r, env, "mqtt.ha.discovery.publish", r.addonId,
                     "homeassistant/sensor/" + r.uniqueId + "/config", SENSOR)
      else Leaves(w, t, r, env, "mqtt.ha.discovery.publish", r.addonId, if ready then Error else Denied)
  {
    var w := Run(site, before);
    SettledRefusal(w, Decide(site, w, r, env), r, env);
    if Passes(site, before, r, env) {
      Readable(site, before, r, env);
      Passed(site, before, r, env);
    } else {
      Unpassed(site, before, r, env);
    }
  }

  lemma StateDecision(mode: R.HaMode, r: Request, broker: Broker)
    requires r.HaState? && Trim(r.addonId) != ""
    ensures var topic := Trim(r.topic);
      var fits := if r.addonId == "anonymous" then FitsNobody(topic) else Fits(topic, Trim(r.addonId));
      var d := DecideState(mode, r, broker);
      if mode.NoHa? then d.Refuse?
      else if broker.NoService? then d.Unavailable?
      else if fits then d == Hand(topic, r.payload) else d.Refuse?
  {
    assert Trim(Trim(r.topic)) == Trim(r.topic);
    CheckIsFits(Trim(r.topic), Some(r.addonId));
  }

  lemma StateDecided(site: Site, before: seq<Op>, r: Request, env: Env)
    requires r.HaState? && Passes(site, before, r, env)
    ensures var known, topic := Known(site, before, Trim(r.addonId), env), Trim(r.topic);
      var fits := if r.addonId == "anonymous" then FitsNobody(topic) else Fits(topic, Trim(r.addonId));
      var d := Decide(site, Run(site, before), r, env);
      if known.None? || known.value.haMode == R.NoHa then d.Refuse?
      else if env.broker.NoService? then d.Unavailable?
      else if fits then d == Hand(topic, r.payload) else d.Refuse?
  {
    var known := Known(site, before, Trim(r.addonId), env);
    Passed(site, before, r, env);
    KnownIsSound(site, before, Trim(r.addonId), env);
    if known.Some? {
      StateDecision(known.value.haMode, r, env.broker);
    }
  }

  /** State hands over the request's own trimmed topic and payload exactly when the caller
      passes, the addon is registered for Home Assistant, the client is there, and the topic
      fits the addon, or nobody's if the addon is named as exactly `anonymous`. */
  lemma {:induction false} StateExact(site: Site, before: seq<Op>, r: Request, env: Env)
    requires r.HaState?
    ensures var w := Run(site, before);
      var t := Step(site, w, Publish(r, env));
      var topic, record := Trim(r.topic), Known(site, before, Trim(r.addonId), env);
      var ready := Passes(site, before, r, env) && record.Some? && record.value.haMode != R.NoHa;
      var fits := if r.addonId == "anonymous" then FitsNobody(topic) else Fits(topic, Trim(r.addonId));
      if env.stateRaises || !IW.Readable(w.install) then Silent(w, t)
      else if ready && fits && !env.broker.NoService?
      then HandsOver(w, t, r, env, "mqtt.ha.state.publish", r.addonId, topic, r.payload)
      else Leaves(w, t, r, env, "mqtt.ha.state.publish", r.addonId,
                  if ready && env.broker.NoService? then Error else Denied)
  {
    var w := Run(site, before);
    SettledRefusal(w, Decide(site, w, r, env), r, env);
    if Passes(site, before, r, env) {
      Readable(site, before, r, env);
      StateDecided(site, before, r, env);
    } else {
      Unpassed(site, before, r, env);
    }
  }

  // ----- The registration route -----------------------------------------------

  /** What the registration route traces; nothing when the failure is not one it answers. */
  function RegistrationTrace(op: Op, denied: bool, u: R.Upsert): seq<Trace>
    requires op.Register?
  {
    var addon := Some(Trim(op.registration.addonId));
    if op.renv.traceSave != Saved then []
    else if denied || !R.Acceptable(u) || (u.save == Saved && u.note == R.NoteInvalid)
    then [Trace("mqtt.registration.upsert", Denied, addon, Some(op.sub), None)]
    else if u.save == Saved && u.note == R.NoteWritten
    then [Trace("mqtt.registration.upsert", Success, addon, Some(op.sub), None)]
    else []
  }

  /** What the registration route does, for every answer: direct access under somebody
      else's broker in gateway-only mode is denied and stores nothing; otherwise the upsert
      under the current broker mode; and one trace at most. */
  lemma {:induction false} RegisterExact(site: Site, before: seq<Op>, op: Op)
    requires op.Register?
    ensures var w := Run(site, before);
      var t := Step(site, w, op);
      && t.sent == w.sent && t.usage == w.usage && t.install == w.install && t.cache == w.cache
      && if op.renv.stateRaises || !IW.Readable(w.install) then t == w
         else
           var c := IW.Observe(w.install);
           var direct := op.registration.access in {R.DirectMqtt, R.Both};
           var denied := direct && c.mode == IW.External && c.access == IW.GatewayOnly;
           var u := R.Upsert(op.registration, c.mode == IW.Embedded, op.renv.misread, op.renv.freshSeed,
                             op.renv.save, op.renv.note);
           && t.registry == (if denied then w.registry else R.After(site.digest, w.registry, u))
           && t.traces == w.traces + RegistrationTrace(op, denied, u)
  {
    var w := Run(site, before);
    if !op.renv.stateRaises && IW.Readable(w.install) {
      var u := UpsertOf(w.install, op);
      var refused := RouteRefuses(w.install, u);
      RegistrationTraced(op, refused, u);
      assert w.traces + [] == w.traces;
    }
  }

  lemma RegistrationTraced(op: Op, refused: bool, u: R.Upsert)
    requires op.Register? && u.request == op.registration
    ensures var outcome := RegisterOutcome(refused, u);
      RegistrationTrace(op, refused, u) ==
        if outcome.Some? && op.renv.traceSave.Saved? then [UpsertTrace(op.sub, u, outcome.value)] else []
  {
  }
}
