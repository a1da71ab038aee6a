/** The four publish routes over the whole service: setup gate, policy, registration,
    topic and envelope checks in front of the broker. */
module Gateway {
  import opened Text
  import opened Wrappers
  import opened TopicPermissions
  import opened PublishTraces
  import IW = InstallWorkflow
  import P = PolicyCache
  import R = RegistrationStore
  import T = Telemetry
  import CS = ConfigStore

  // ----- Envelopes ----------------------------------------------------------

  /** A message payload: the texts of the envelope fields, blank when absent. */
  datatype Payload = NotAnObject | Envelope(messageType: string, source: string, timestamp: string, hasData: bool)

  const PLATFORM_MESSAGE_TYPES: set<string> :=
    {"announce", "health", "event", "state", "command", "telemetry", "policy"}

  predicate IsPlatformTopic(topic: string) {
    StartsWith(topic, ADDONS) || IsReserved(topic)
  }

  predicate Complete(payload: Payload, lower: string -> string) {
    && payload.Envelope?
    && lower(Trim(payload.messageType)) in PLATFORM_MESSAGE_TYPES
    && Trim(payload.source) != "" && Trim(payload.timestamp) != "" && payload.hasData
  }

  /** `validate_platform_envelope` does not raise. */
  predicate EnvelopeOk(topic: string, payload: Payload, lower: string -> string) {
    IsPlatformTopic(Trim(topic)) ==> Complete(payload, lower)
  }

  // ----- The service --------------------------------------------------------

  /** What is fixed for one deployment: service name, case folding, keyed digest, and the
      overrides found on disk when it is first started. */
  datatype Site = Site(serviceName: string, lower: string -> string, digest: R.Digest, overrides: IW.Overrides)

  /** A request to one of the four publish routes. */
  datatype Request =
    | Direct(claims: P.Claims, topic: string, payload: Payload)
    | ViaGateway(claims: P.Claims, addonId: string, messageType: string, wanted: Option<string>, timestamp: string)
    | HaDiscovery(claims: P.Claims, addonId: string, uniqueId: string)
    | HaState(claims: P.Claims, addonId: string, topic: string, payload: Payload)

  /** A message handed to the broker client, whether the broker took it, and whether its
      fate was traced. */
  datatype Sent = Sent(request: Request, topic: string, payload: Payload, accepted: bool, traced: bool)

  /** The state the publish routes read and write; `traces` and `usage` are everything
      ever saved and enqueued, `sent` everything the four routes handed over, in all
      lifetimes of the process. */
  datatype World = World(
    install: IW.Install, cache: P.Cache, registry: R.Registry,
    traces: seq<Trace>, usage: seq<T.Event>, sent: seq<Sent>)

  /** What the broker client makes of a message: there is none, it raises, it reports
      a failure, it reports success. */
  datatype Broker = NoService | Raises | Rejects | Accepts

  /** What one request meets: whether reading the install state raises, whether reading
      the registrations raises, the broker client, and the trace file. */
  datatype Env = Env(stateRaises: bool, misread: bool, broker: Broker, traceMisread: bool, traceSave: Save)

  /** The scope every publish route asks for, and the operation of the first. */
  const PUBLISH := "mqtt.publish"
  const GATEWAY_PUBLISH := "mqtt.gateway.publish"
  const HA_DISCOVERY_PUBLISH := "mqtt.ha.discovery.publish"
  const HA_STATE_PUBLISH := "mqtt.ha.state.publish"
  const UPSERT := "mqtt.registration.upsert"

  function Operation(r: Request): string {
    match r
    case Direct(_, _, _) => PUBLISH
    case ViaGateway(_, _, _, _, _) => GATEWAY_PUBLISH
    case HaDiscovery(_, _, _) => HA_DISCOVERY_PUBLISH
    case HaState(_, _, _, _) => HA_STATE_PUBLISH
  }

  /** The addon a request is traced under. */
  function AddonOf(r: Request): string {
    match r
    case Direct(claims, _, _) => claims.sub
    case ViaGateway(_, addonId, _, _, _) => Trim(addonId)
    case HaDiscovery(_, addonId, _) => addonId
    case HaState(_, addonId, _, _) => addonId
  }

  function DiscoveryTopic(uniqueId: string): string {
    "homeassistant/sensor/" + uniqueId + "/config"
  }

  /** A sensor description has none of the envelope fields. */
  const SENSOR := Envelope("", "", "", false)

  /** The topic that the trace of an early refusal shows. */
  function Shown(r: Request): Option<string> {
    match r
    case Direct(_, topic, _) => Some(Trim(topic))
    case ViaGateway(_, _, _, wanted, _) =>
      if wanted.Some? && wanted.value != "" then Some(Trim(wanted.value)) else None
    case HaDiscovery(_, _, uniqueId) => Some(DiscoveryTopic(uniqueId))
    case HaState(_, _, topic, _) => Some(Trim(topic))
  }

  /** How a request ends before or at the broker client. */
  datatype Decision =
    | Refuse(shown: Option<string>)   // denied, with the topic the trace shows
    | RefuseSilently                  // an error without any trace
    | Unavailable(topic: string)      // no MQTT service
    | Hand(topic: string, payload: Payload)

  function Decide(site: Site, w: World, r: Request, env: Env): Decision {
    if env.stateRaises || !IW.Readable(w.install) then RefuseSilently
    else if !IW.GateOpen(w.install) then Refuse(Shown(r))
    else if !P.Allows(w.cache, site.serviceName, r.claims, PUBLISH) then Refuse(Shown(r))
    else if r.Direct? then DecideDirect(site, r, env.broker)
    else
      var id := Trim(r.addonId);
      if env.misread || id !in w.registry.records then Refuse(Shown(r))
      else
        var record := w.registry.records[id];
        match r
        case ViaGateway(_, _, _, _, _) => DecideGateway(site, id, record.permissions.publish, r, env.broker)
        case HaDiscovery(_, _, _) => DecideDiscovery(record.haMode, r, env.broker)
        case HaState(_, _, _, _) => DecideState(record.haMode, r, env.broker)
  }

  function DecideDirect(site: Site, r: Request, broker: Broker): Decision
    requires r.Direct?
  {
    var sub := if r.claims.sub != "anonymous" then Some(r.claims.sub) else None;
    var checked := ValidatePublishTopic(Trim(r.topic), sub);
    if checked.None? then Refuse(Shown(r))
    else if broker.NoService? then Unavailable(checked.value)
    else if !EnvelopeOk(checked.value, r.payload, site.lower) then Refuse(checked)
    else Hand(checked.value, r.payload)
  }

  function DecideGateway(site: Site, id: string, scopes: seq<string>, r: Request, broker: Broker): Decision
    requires r.ViaGateway?
  {
    var messageType := site.lower(Trim(r.messageType));
    if messageType == "" then RefuseSilently
    else
      var given := if r.wanted.Some? then Trim(r.wanted.value) else "";
      var wanted := if given != "" then given else Prefix(id) + messageType;
      var checked := ValidatePublishTopic(wanted, Some(id));
      if checked.None? then Refuse(Some(wanted))
      else if !AllowedByScopes(checked.value, scopes) then Refuse(checked)
      else
        var envelope := Envelope(messageType, id, r.timestamp, true);
        if !EnvelopeOk(checked.value, envelope, site.lower) then Refuse(checked)
        else if broker.NoService? then Unavailable(checked.value)
        else Hand(checked.value, envelope)
  }

  function DecideDiscovery(mode: R.HaMode, r: Request, broker: Broker): Decision
    requires r.HaDiscovery?
  {
    if mode.NoHa? then Refuse(Shown(r))
    else if broker.NoService? then Unavailable(DiscoveryTopic(r.uniqueId))
    else Hand(DiscoveryTopic(r.uniqueId), SENSOR)
  }

  function DecideState(mode: R.HaMode, r: Request, broker: Broker): Decision
    requires r.HaState?
  {
    if mode.NoHa? then Refuse(Shown(r))
    else if broker.NoService? then Unavailable(Trim(r.topic))
    else
      var checked := ValidatePublishTopic(Trim(r.topic), Some(r.addonId));
      if checked.None? then Refuse(Shown(r)) else Hand(checked.value, r.payload)
  }

  function Traced(r: Request, outcome: Outcome, topic: Option<string>): Trace {
    Trace(Operation(r), outcome, Some(AddonOf(r)), Some(r.claims.sub), topic)
  }

  /** A trace is part of the world once its save has gone through. */
  function Recorded(w: World, t: Trace, save: Save): World {
    if save.Saved? then w.(traces := w.traces + [t]) else w
  }

  /** The effects of a decision: one trace, and for a message handed over the message
      itself and, if the broker took it and that is traced, one usage event; a client that
      raises leaves no trace. */
  function Settle(w: World, d: Decision, r: Request, env: Env): World {
    match d
    case Refuse(shown) => Recorded(w, Traced(r, Denied, shown), env.traceSave)
    case RefuseSilently => w
    case Unavailable(topic) => Recorded(w, Traced(r, Error, Some(topic)), env.traceSave)
    case Hand(topic, payload) =>
      var ok, traced := env.broker.Accepts?, !env.broker.Raises? && env.traceSave.Saved?;
      w.(sent := w.sent + [Sent(r, topic, payload, ok, traced)],
         traces := if traced then w.traces + [Traced(r, if ok then Success else Error, Some(topic))] else w.traces,
         usage := if ok && traced then w.usage + [T.Event(r.claims.sub, Operation(r))] else w.usage)
  }

  /** What one registration meets. */
  datatype RegisterEnv = RegisterEnv(stateRaises: bool, misread: bool, freshSeed: string, save: Save, note: R.Note,
                                     traceMisread: bool, traceSave: Save)

  /** `Restart` ends the process and starts it again over the same files. */
  datatype Op =
    | Setup(op: IW.Op)
    | Policy(topic: string, message: Option<P.Payload>)
    | Register(sub: string, registration: R.Request, renv: RegisterEnv)
    | Publish(request: Request, env: Env)
    | Restart

  /** The upsert that a registration becomes under the current broker mode. */
  function UpsertOf(install: IW.Install, op: Op): R.Upsert
    requires IW.Readable(install) && op.Register?
  {
    R.Upsert(op.registration, IW.Observe(install).mode.Embedded?, op.renv.misread, op.renv.freshSeed,
             op.renv.save, op.renv.note)
  }

  /** The route refuses direct access while an external broker is gateway-only. */
  predicate RouteRefuses(install: IW.Install, u: R.Upsert)
    requires IW.Readable(install)
  {
    !u.embedded && IW.Observe(install).access.GatewayOnly? && R.WantsDirect(u)
  }

  /** The outcome the registration route traces; none when the failure is no `ValueError`. */
  function RegisterOutcome(refused: bool, u: R.Upsert): Option<Outcome> {
    if refused || !R.Acceptable(u) then Some(Denied)
    else if !u.save.Saved? then None
    else
      match u.note
      case NoteWritten => Some(Success)
      case NoteInvalid => Some(Denied)
      case NoteFailed => None
  }

  function UpsertTrace(sub: string, u: R.Upsert, outcome: Outcome): Trace {
    Trace(UPSERT, outcome, Some(R.Id(u)), Some(sub), None)
  }

  function StepRegister(site: Site, w: World, op: Op): World
    requires op.Register?
  {
    if op.renv.stateRaises || !IW.Readable(w.install) then w
    else
      var u := UpsertOf(w.install, op);
      var refused := RouteRefuses(w.install, u);
      var outcome := RegisterOutcome(refused, u);
      var done := w.(registry := if refused then w.registry else R.After(site.digest, w.registry, u));
      if outcome.None? then done else Recorded(done, UpsertTrace(op.sub, u, outcome.value), op.renv.traceSave)
  }

  function Step(site: Site, w: World, op: Op): World {
    match op
    case Setup(o) => w.(install := IW.Handle(w.install, o).0)
    case Policy(topic, message) =>
      w.(cache := P.Step(w.cache, P.Read(topic, message, site.serviceName, site.lower)))
    case Register(_, _, _) => StepRegister(site, w, op)
    case Publish(r, env) => Settle(w, Decide(site, w, r, env), r, env)
    case Restart => w.(cache := P.EMPTY)
  }

  /** The first start: some overrides may be there, but neither session nor registrations. */
  function First(site: Site): World {
    World(IW.Install(site.overrides, IW.Session(IW.DEFAULT_CORE)), P.EMPTY, R.NO_REGISTRATIONS, [], [], [])
  }

  function Run(site: Site, ops: seq<Op>): World {
    if ops == [] then First(site) else Step(site, Run(site, ops[..|ops| - 1]), ops[|ops| - 1])
  }

  // ----- The handlers -------------------------------------------------------

  class MqttGateway {
    const site: Site
    const config: CS.ConfigStore
    var policy: P.PolicyCacheService
    const registrations: R.Store
    const traces: TraceStore
    const telemetry: T.TelemetryReporter
    var handed: seq<Sent>  // the calls of the broker client, in order

    constructor (site: Site, config: CS.ConfigStore, policy: P.PolicyCacheService, registrations: R.Store,
                 traces: TraceStore, telemetry: T.TelemetryReporter)
      requires policy.serviceName == site.serviceName && policy.lower == site.lower
      requires registrations.digest == site.digest && traces.Valid() && telemetry.Valid()
      ensures this.site == site && this.config == config && this.policy == policy && this.telemetry == telemetry
      ensures this.registrations == registrations && this.traces == traces && handed == []
      ensures Valid()
    {
      this.site, this.config, this.policy := site, config, policy;
      this.registrations, this.traces, this.telemetry := registrations, traces, telemetry;
      handed := [];
    }

    ghost predicate Valid()
      reads this, traces, telemetry
    {
      && policy.serviceName == site.serviceName && policy.lower == site.lower
      && registrations.digest == site.digest
      && traces.Valid() && telemetry.Valid()
    }

    ghost function View(): World
      reads this, config, policy, registrations, traces, telemetry
    {
      World(config.Install(), policy.State(), registrations.State(), traces.log, telemetry.state.all, handed)
    }

    method RecordTrace(t: Trace, misread: bool, save: Save) returns (ok: bool)
      requires traces.Valid()
      modifies traces
      ensures traces.Valid() && ok == save.Saved?
      ensures traces.log == if ok then old(traces.log) + [t] else old(traces.log)
    {
      ok := traces.Append(t, misread, save);
    }

    /** A new process over the same files: what was heard about policy is gone. */
    method Restart()
      requires Valid()
      modifies this`policy
      ensures Valid() && View() == Step(site, old(View()), Op.Restart)
    {
      policy := new P.PolicyCacheService(site.serviceName, site.lower);
    }

    /** A message on a policy topic. */
    method IngestPolicy(topic: string, message: Option<P.Payload>)
      requires Valid()
      modifies policy
      ensures Valid() && View() == Step(site, old(View()), Policy(topic, message))
    {
      policy.Ingest(topic, message);
    }

    /** The registration route: the direct-access rule, the upsert, at most one trace. */
    method UpsertRegistration(sub: string, request: R.Request, env: RegisterEnv)
      requires Valid()
      modifies registrations, traces
      ensures Valid() && View() == Step(site, old(View()), Register(sub, request, env))
    {
      if env.stateRaises || config.overrides.Unreadable? || config.session.Damaged? {
        return;
      }
      var u := UpsertOf(config.Install(), Register(sub, request, env));
      if !u.embedded && IW.Observe(config.Install()).access.GatewayOnly? && R.WantsDirect(u) {
        TraceUpsert(sub, u, Some(Denied), env);
        return;
      }
      var answer := registrations.UpsertRegistration(u);
      TraceUpsert(sub, u, OutcomeOf(answer), env);
    }

    /** A success is traced, and so is every refusal the route knows how to answer. */
    static function OutcomeOf(answer: R.Answer): Option<Outcome> {
      match answer
      case Stored(_) => Some(Success)
      case Rejected => Some(Denied)
      case Unsaved => None
      case StoredThenRaised(note) => if note.NoteInvalid? then Some(Denied) else None
    }

    method TraceUpsert(sub: string, u: R.Upsert, outcome: Option<Outcome>, env: RegisterEnv)
      requires traces.Valid()
      modifies traces
      ensures traces.Valid() && traces.log ==
        if outcome.Some? && env.traceSave.Saved? then old(traces.log) + [UpsertTrace(sub, u, outcome.value)]
        else old(traces.log)
    {
      if outcome.Some? {
        var _ := RecordTrace(UpsertTrace(sub, u, outcome.value), env.traceMisread, env.traceSave);
      }
    }

    /** Carries out a decision other than to hand over a message. */
    method CarryOutRefusal(d: Decision, r: Request, env: Env)
      requires Valid() && !d.Hand?
      modifies traces
      ensures Valid() && View() == Settle(old(View()), d, r, env)
    {
      match d {
        case Refuse(shown) => var _ := RecordTrace(Traced(r, Denied, shown), env.traceMisread, env.traceSave);
        case RefuseSilently =>
        case Unavailable(topic) =>
          var _ := RecordTrace(Traced(r, Error, Some(topic)), env.traceMisread, env.traceSave);
      }
    }

    /** Hands a message over, traces its fate, and counts its usage if the broker took it. */
    method HandOver(topic: string, payload: Payload, r: Request, env: Env)
      requires Valid()
      modifies this`handed, traces, telemetry
      ensures Valid() && View() == Settle(old(View()), Hand(topic, payload), r, env)
    {
      var ok := env.broker.Accepts?;
      if env.broker.Raises? {
        handed := handed + [Sent(r, topic, payload, ok, false)];
        return;
      }
      var traced :=
        RecordTrace(Traced(r, if ok then Success else Error, Some(topic)), env.traceMisread, env.traceSave);
      handed := handed + [Sent(r, topic, payload, ok, traced)];
      if ok && traced {
        telemetry.EnqueueUsage(r.claims.sub, Operation(r));
      }
    }

    method CarryOut(d: Decision, r: Request, env: Env)
      requires Valid()
      modifies this`handed, traces, telemetry
      ensures Valid() && View() == Settle(old(View()), d, r, env)
    {
      if d.Hand? {
        HandOver(d.topic, d.payload, r, env);
      } else {
        CarryOutRefusal(d, r, env);
      }
    }

    /** The setup and policy checks that all four routes begin with; `None` lets the
        request pass. */
    method Admit(r: Request, env: Env) returns (d: Option<Decision>)
      requires policy.serviceName == site.serviceName
      ensures d.Some? ==> Decide(site, View(), r, env) == d.value
      ensures d.None? ==>
        && !env.stateRaises && IW.GateOpen(config.Install())
        && P.Allows(policy.State(), site.serviceName, r.claims, PUBLISH)
    {
      if env.stateRaises || config.overrides.Unreadable? || config.session.Damaged? {
        return Some(RefuseSilently);
      }
      var installState := IW.Observe(config.Install());
      if installState.setup !in {IW.Ready, IW.Degraded} {
        return Some(Refuse(Shown(r)));
      }
      var allowed := policy.Authorize(r.claims, PUBLISH);
      return if allowed then None else Some(Refuse(Shown(r)));
    }

    /** The checks of `publish_message`, in order. */
    method CheckDirect(r: Request, env: Env) returns (d: Decision)
      requires policy.serviceName == site.serviceName && r.Direct?
      ensures d == Decide(site, View(), r, env)
    {
      var refused := Admit(r, env);
      if refused.Some? {
        return refused.value;
      }
      var topic := Trim(r.topic);
      var checked := ValidatePublishTopic(topic, if r.claims.sub != "anonymous" then Some(r.claims.sub) else None);
      if checked.None? {
        return Refuse(Some(topic));
      }
      if env.broker.NoService? {
        return Unavailable(checked.value);
      }
      if !EnvelopeOk(checked.value, r.payload, site.lower) {
        return Refuse(checked);
      }
      return Hand(checked.value, r.payload);
    }

    /** The checks of `gateway_publish`, in order. */
    method CheckGateway(r: Request, env: Env) returns (d: Decision)
      requires policy.serviceName == site.serviceName && r.ViaGateway?
      ensures d == Decide(site, View(), r, env)
    {
      var refused := Admit(r, env);
      if refused.Some? {
        return refused.value;
      }
      var registration := registrations.GetRegistration(r.addonId, env.misread);
      if registration.None? {
        return Refuse(Shown(r));
      }
      d := CheckRegistered(Trim(r.addonId), registration.value.permissions.publish, r, env.broker);
    }

    method CheckRegistered(id: string, scopes: seq<string>, r: Request, broker: Broker) returns (d: Decision)
      requires r.ViaGateway?
      ensures d == DecideGateway(site, id, scopes, r, broker)
    {
      var messageType := site.lower(Trim(r.messageType));
      if messageType == "" {
        return RefuseSilently;
      }
      var given := if r.wanted.Some? then Trim(r.wanted.value) else "";
      var topic := if given != "" then given else Prefix(id) + messageType;
      var checked := ValidatePublishTopic(topic, Some(id));
      if checked.None? {
        return Refuse(Some(topic));
      }
      var inScope := TopicAllowedByScopes(checked.value, scopes);
      if !inScope {
        return Refuse(checked);
      }
      var envelope := Envelope(messageType, id, r.timestamp, true);
      if !EnvelopeOk(checked.value, envelope, site.lower) {
        return Refuse(checked);
      }
      if broker.NoService? {
        return Unavailable(checked.value);
      }
      return Hand(checked.value, envelope);
    }

    /** The checks of `publish_sensor_discovery`, in order; the topic is not checked. */
    method CheckDiscovery(r: Request, env: Env) returns (d: Decision)
      requires policy.serviceName == site.serviceName && r.HaDiscovery?
      ensures d == Decide(site, View(), r, env)
    {
      var refused := Admit(r, env);
      if refused.Some? {
        return refused.value;
      }
      var registration := registrations.GetRegistration(r.addonId, env.misread);
      if registration.None? {
        return Refuse(Shown(r));
      }
      if registration.value.haMode.NoHa? {
        return Refuse(Shown(r));
      }
      var topic := DiscoveryTopic(r.uniqueId);
      return if env.broker.NoService? then Unavailable(topic) else Hand(topic, SENSOR);
    }

    /** The checks of `publish_gateway_state`, in order; scopes and envelope are not checked. */
    method CheckState(r: Request, env: Env) returns (d: Decision)
      requires policy.serviceName == site.serviceName && r.HaState?
      ensures d == Decide(site, View(), r, env)
    {
      var refused := Admit(r, env);
      if refused.Some? {
        return refused.value;
      }
      var registration := registrations.GetRegistration(r.addonId, env.misread);
      if registration.None? {
        return Refuse(Shown(r));
      }
      if registration.value.haMode.NoHa? {
        return Refuse(Shown(r));
      }
      var topic := Trim(r.topic);
      if env.broker.NoService? {
        return Unavailable(topic);
      }
      var checked := ValidatePublishTopic(topic, Some(r.addonId));
      return if checked.None? then Refuse(Some(topic)) else Hand(checked.value, r.payload);
    }

    method PublishMessage(r: Request, env: Env)
      requires Valid() && r.Direct?
      modifies this`handed, traces, telemetry
      ensures Valid() && View() == Step(site, old(View()), Publish(r, env))
    {
      var d := CheckDirect(r, env);
      CarryOut(d, r, env);
    }

    method GatewayPublishMessage(r: Request, env: Env)
      requires Valid() && r.ViaGateway?
      modifies this`handed, traces, telemetry
      ensures Valid() && View() == Step(site, old(View()), Publish(r, env))
    {
      var d := CheckGateway(r, env);
      CarryOut(d, r, env);
    }

    method PublishSensorDiscovery(r: Request, env: Env)
      requires Valid() && r.HaDiscovery?
      modifies this`handed, traces, telemetry
      ensures Valid() && View() == Step(site, old(View()), Publish(r, env))
    {
      var d := CheckDiscovery(r, env);
      CarryOut(d, r, env);
    }

    method PublishGatewayState(r: Request, env: Env)
      requires Valid() && r.HaState?
      modifies this`handed, traces, telemetry
      ensures Valid() && View() == Step(site, old(View()), Publish(r, env))
    {
      var d := CheckState(r, env);
      CarryOut(d, r, env);
    }
  }
}
