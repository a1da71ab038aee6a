/** What holds of every message that any run of the service hands to the broker. */
module PublishSafety {
  import opened Text
  import opened Wrappers
  import opened TopicPermissions
  import opened PublishTraces
  import opened Gateway
  import IW = InstallWorkflow
  import P = PolicyCache
  import PP = PolicyPayloads
  import R = RegistrationStore

  // ----- The parts of a history ---------------------------------------------

  function SetupOps(ops: seq<Op>): seq<IW.Op> {
    if ops == [] then []
    else SetupOps(ops[..|ops| - 1]) + if ops[|ops| - 1].Setup? then [ops[|ops| - 1].op] else []
  }

  /** The policy payloads heard since the process was last started. */
  function HeardSince(ops: seq<Op>): seq<PP.Heard> {
    if ops == [] || ops[|ops| - 1].Restart? then []
    else
      var op := ops[|ops| - 1];
      HeardSince(ops[..|ops| - 1]) + if op.Policy? then [PP.Heard(op.topic, op.message)] else []
  }

  /** The cache after these payloads. */
  function CacheOf(site: Site, hs: seq<PP.Heard>): P.Cache {
    P.Fold(P.EMPTY, PP.Readings(hs, site.serviceName, site.lower))
  }

  lemma CacheSnoc(site: Site, hs: seq<PP.Heard>, e: PP.Heard)
    ensures CacheOf(site, hs + [e]) ==
      P.Step(CacheOf(site, hs), P.Read(e.topic, e.payload, site.serviceName, site.lower))
  {
    var h := PP.Readings(hs + [e], site.serviceName, site.lower);
    assert h[..|h| - 1] == PP.Readings(hs, site.serviceName, site.lower);
  }

  /** The registrations the route let through, with the broker mode of their moment. */
  function Upserts(site: Site, ops: seq<Op>): seq<R.Upsert> {
    if ops == [] then []
    else
      var before, op := ops[..|ops| - 1], ops[|ops| - 1];
      var install := Run(site, before).install;
      Upserts(site, before) + if Registers(install, op) then [UpsertOf(install, op)] else []
  }

  predicate Registers(install: IW.Install, op: Op) {
    op.Register? && !op.renv.stateRaises && IW.Readable(install) && !RouteRefuses(install, UpsertOf(install, op))
  }

  /** Publishing changes none of the parts that decide who may publish. */
  lemma PublishKeeps(w: World, d: Decision, r: Request, env: Env)
    ensures var t := Settle(w, d, r, env);
      t.install == w.install && t.cache == w.cache && t.registry == w.registry
  {
  }

  lemma StepInstall(site: Site, w: World, op: Op)
    ensures Step(site, w, op).install == if op.Setup? then IW.Handle(w.install, op.op).0 else w.install
  {
    if op.Publish? {
      PublishKeeps(w, Decide(site, w, op.request, op.env), op.request, op.env);
    }
  }

  lemma StepCache(site: Site, w: World, op: Op)
    ensures Step(site, w, op).cache ==
      if op.Restart? then P.EMPTY
      else if op.Policy? then P.Step(w.cache, P.Read(op.topic, op.message, site.serviceName, site.lower))
      else w.cache
  {
    if op.Publish? {
      PublishKeeps(w, Decide(site, w, op.request, op.env), op.request, op.env);
    }
  }

  lemma StepRegistry(site: Site, w: World, op: Op)
    ensures Step(site, w, op).registry ==
      if Registers(w.install, op) then R.After(site.digest, w.registry, UpsertOf(w.install, op)) else w.registry
  {
    if op.Publish? {
      PublishKeeps(w, Decide(site, w, op.request, op.env), op.request, op.env);
    }
  }

  lemma {:induction false} RunInstall(site: Site, ops: seq<Op>)
    ensures Run(site, ops).install == IW.Run(First(site).install, SetupOps(ops))
  {
    if ops != [] {
      var before, op := ops[..|ops| - 1], ops[|ops| - 1];
      RunInstall(site, before);
      StepInstall(site, Run(site, before), op);
      var s := SetupOps(before);
      assert op.Setup? ==> SetupOps(ops) == s + [op.op] && (s + [op.op])[..|s|] == s;
      assert !op.Setup? ==> SetupOps(ops) == s;
    }
  }

  lemma {:induction false} RunCache(site: Site, ops: seq<Op>)
    ensures Run(site, ops).cache == CacheOf(site, HeardSince(ops))
  {
    if ops != [] {
      var before, op := ops[..|ops| - 1], ops[|ops| - 1];
      RunCache(site, before);
      StepCache(site, Run(site, before), op);
      var hs := HeardSince(before);
      if op.Policy? {
        CacheSnoc(site, hs, PP.Heard(op.topic, op.message));
      } else if !op.Restart? {
        assert HeardSince(ops) == hs;
      }
    }
  }

  lemma {:induction false} RunRegistry(site: Site, ops: seq<Op>)
    ensures Run(site, ops).registry == R.Fold(site.digest, Upserts(site, ops))
  {
    if ops != [] {
      var before, op := ops[..|ops| - 1], ops[|ops| - 1];
      RunRegistry(site, before);
      StepRegistry(site, Run(site, before), op);
      var us, install := Upserts(site, before), Run(site, before).install;
      if Registers(install, op) {
        var u := UpsertOf(install, op);
        assert Upserts(site, ops) == us + [u] && (us + [u])[..|us|] == us;
      } else {
        assert Upserts(site, ops) == us;
      }
    }
  }

  /** The service is the product of its parts: each part has seen its own history. */
  lemma {:induction false} RunParts(site: Site, ops: seq<Op>)
    ensures Run(site, ops).install == IW.Run(First(site).install, SetupOps(ops))
    ensures Run(site, ops).cache == CacheOf(site, HeardSince(ops))
    ensures Run(site, ops).registry == R.Fold(site.digest, Upserts(site, ops))
  {
    RunInstall(site, ops);
    RunCache(site, ops);
    RunRegistry(site, ops);
  }

  /** Consumers in the cache are never blank and carry no outer spaces. */
  lemma {:induction false} CacheKeys(site: Site, ops: seq<Op>)
    ensures forall c | c in Run(site, ops).cache.grants :: c != "" && Trimmed(c)
  {
    if ops != [] {
      CacheKeys(site, ops[..|ops| - 1]);
      StepCache(site, Run(site, ops[..|ops| - 1]), ops[|ops| - 1]);
    }
  }

  // ----- One message --------------------------------------------------------

  /** After the history `before` setup is applied, and by the last word in the policy
      payloads heard since the last start `claims` has a live grant to publish. */
  ghost predicate Entitled(site: Site, before: seq<Op>, claims: P.Claims) {
    && IW.LastSetupApplied(First(site).install, SetupOps(before))
    && PP.Entitles(HeardSince(before), site.serviceName, site.lower, claims, PUBLISH)
  }

  predicate InNamespace(topic: string, addon: string) {
    StartsWith(topic, Prefix(addon)) || (addon == "anonymous" && topic == ADDONS + addon)
  }

  /** A topic in the namespace of `id` that, but for `anonymous`, its topic check accepts. */
  predicate OwnedBy(topic: string, id: string) {
    id != "" && Trimmed(id) && InNamespace(topic, id) && (id != "anonymous" ==> Accepted(topic, id))
  }

  /** A publishable topic in an addon's namespace, with a complete envelope. */
  predicate Confined(site: Site, m: Sent) {
    && InNamespace(m.topic, AddonOf(m.request)) && !HasWildcard(m.topic) && !IsReserved(m.topic)
    && Complete(m.payload, site.lower)
  }

  /** `m` is what `op` hands to the broker after the history `before`. */
  ghost predicate SentAt(site: Site, before: seq<Op>, op: Op, m: Sent) {
    op.Publish? && m.request == op.request &&
    Step(site, Run(site, before), op).sent == Run(site, before).sent + [m]
  }

  /** Only a decision to hand over changes what was sent, and by that message. */
  lemma OnlyHandSends(w: World, d: Decision, r: Request, env: Env, m: Sent)
    requires Settle(w, d, r, env).sent == w.sent + [m]
    ensures d.Hand? && m.request == r && m.topic == d.topic && m.payload == d.payload
  {
    if d.Hand? {
      assert (w.sent + [m])[|w.sent|] == m;
    }
  }

  /** What every route has checked by the time it hands a message over. */
  lemma Admitted(site: Site, w: World, r: Request, env: Env)
    requires Decide(site, w, r, env).Hand?
    ensures IW.GateOpen(w.install) && P.Allows(w.cache, site.serviceName, r.claims, PUBLISH)
    ensures r.Direct? ==> Decide(site, w, r, env) == DecideDirect(site, r, env.broker)
    ensures !r.Direct? ==> Trim(r.addonId) in w.registry.records
    ensures !r.Direct? ==>
      var id := Trim(r.addonId);
      var record := w.registry.records[id];
      && (r.ViaGateway? ==>
            Decide(site, w, r, env) == DecideGateway(site, id, record.permissions.publish, r, env.broker))
      && (r.HaDiscovery? ==> Decide(site, w, r, env) == DecideDiscovery(record.haMode, r, env.broker))
      && (r.HaState? ==> Decide(site, w, r, env) == DecideState(record.haMode, r, env.broker))
  {
  }

  /** On every route, whoever gets a message through is entitled to publish; and on
      every route but the direct one it is sent for an addon registered at that time. */
  lemma {:induction false} SenderEntitled(site: Site, before: seq<Op>, op: Op, m: Sent)
    requires SentAt(site, before, op, m)
    ensures Entitled(site, before, m.request.claims)
    ensures !m.request.Direct? ==> Trim(m.request.addonId) in R.Fold(site.digest, Upserts(site, before)).records
    ensures var d := Decide(site, Run(site, before), op.request, op.env);
      d.Hand? && m.request == op.request && m.topic == d.topic && m.payload == d.payload
  {
    var w := Run(site, before);
    OnlyHandSends(w, Decide(site, w, op.request, op.env), op.request, op.env, m);
    Admitted(site, w, op.request, op.env);
    RunParts(site, before);
    IW.GateIffApplied(First(site).install, SetupOps(before));
    PP.AllowsIffEntitled(HeardSince(before), site.serviceName, site.lower, op.request.claims, PUBLISH);
  }

  lemma PrefixIsPlatform(topic: string, id: string)
    requires InNamespace(topic, id) && Trimmed(topic)
    ensures IsPlatformTopic(Trim(topic))
  {
    assert ADDONS <= Prefix(id) && ADDONS <= ADDONS + id;
  }

  lemma OneLevel(id: string)
    requires '/' !in id && id != "+"
    ensures "+" !in Split(id, '/')
  {
    SplitSingle(id, '/');
  }

  lemma AnonymousConfined(scopes: seq<string>, topic: string)
    requires AllowedByScopes(topic, scopes)
    requires forall s | s in scopes :: PublishScopeOk(s, "anonymous")
    ensures InNamespace(topic, "anonymous")
  {
    var s :| s in scopes && TopicMatches(s, topic);
    OneLevel("anonymous");
    ScopeConfines("anonymous", s, topic);
  }

  lemma GatewayChecked(site: Site, id: string, scopes: seq<string>, r: Request, broker: Broker)
    requires r.ViaGateway? && id != "" && Trimmed(id)
    requires DecideGateway(site, id, scopes, r, broker).Hand?
    ensures var d := DecideGateway(site, id, scopes, r, broker);
      && AllowedByScopes(d.topic, scopes)
      && Trimmed(d.topic) && !HasWildcard(d.topic) && !IsReserved(d.topic)
      && (id != "anonymous" ==> StartsWith(d.topic, Prefix(id)) && Accepted(d.topic, id))
      && EnvelopeOk(d.topic, d.payload, site.lower)
      && d.payload.Envelope? && d.payload.source == id
  {
  }

  /** Every message the gateway route hands to the broker, after any history: its
      topic lies in the namespace of a registered addon and matches one of its
      registered scopes, and the envelope is complete and names that addon. */
  lemma {:induction false} GatewayConfinement(site: Site, before: seq<Op>, op: Op, m: Sent)
    requires SentAt(site, before, op, m) && m.request.ViaGateway?
    ensures Entitled(site, before, m.request.claims)
    ensures Confined(site, m) && m.payload.source == AddonOf(m.request) && OwnedBy(m.topic, AddonOf(m.request))
    ensures var registry, id := R.Fold(site.digest, Upserts(site, before)), AddonOf(m.request);
      id in registry.records && AllowedByScopes(m.topic, registry.records[id].permissions.publish)
  {
    var w, id := Run(site, before), AddonOf(m.request);
    SenderEntitled(site, before, op, m);
    Admitted(site, w, op.request, op.env);
    RunParts(site, before);
    R.FoldWellFormed(site.digest, Upserts(site, before));
    var scopes := w.registry.records[id].permissions.publish;
    GatewayChecked(site, id, scopes, op.request, op.env.broker);
    if id == "anonymous" {
      AnonymousConfined(scopes, m.topic);
    }
    PrefixIsPlatform(m.topic, id);
  }

  lemma DirectChecked(site: Site, r: Request, broker: Broker)
    requires r.Direct? && DecideDirect(site, r, broker).Hand?
    requires r.claims.sub != "" && Trimmed(r.claims.sub) && r.claims.sub != "anonymous"
    ensures var d := DecideDirect(site, r, broker);
      && Trimmed(d.topic) && !HasWildcard(d.topic) && !IsReserved(d.topic)
      && StartsWith(d.topic, Prefix(r.claims.sub)) && Accepted(d.topic, r.claims.sub)
      && EnvelopeOk(d.topic, d.payload, site.lower)
  {
  }

  /** The direct route confines every caller to the namespace of its own id. */
  lemma {:induction false} DirectConfinement(site: Site, before: seq<Op>, op: Op, m: Sent)
    requires SentAt(site, before, op, m) && m.request.Direct?
    ensures Entitled(site, before, m.request.claims)
    ensures Confined(site, m) && AddonOf(m.request) == m.request.claims.sub != "anonymous"
    ensures OwnedBy(m.topic, AddonOf(m.request))
  {
    SenderEntitled(site, before, op, m);
    Admitted(site, Run(site, before), op.request, op.env);
    CacheKeys(site, before);
    DirectChecked(site, op.request, op.env.broker);
    PrefixIsPlatform(m.topic, AddonOf(m.request));
  }

  /** Home Assistant state messages: the addon is registered for Home Assistant, the
      topic is never reserved and has no wildcards, and it lies in the addon's namespace
      unless the request names the addon as exactly `anonymous`. */
  lemma {:induction false} StateConfinement(site: Site, before: seq<Op>, op: Op, m: Sent)
    requires SentAt(site, before, op, m) && m.request.HaState?
    ensures Entitled(site, before, m.request.claims)
    ensures var registry, id := R.Fold(site.digest, Upserts(site, before)), Trim(m.request.addonId);
      && id in registry.records && !registry.records[id].haMode.NoHa?
      && m.topic == Trim(m.request.topic) != "" && !HasWildcard(m.topic) && !IsReserved(m.topic)
      && (m.request.addonId != "anonymous" ==> OwnedBy(m.topic, id) && StartsWith(m.topic, Prefix(id)))
  {
    SenderEntitled(site, before, op, m);
    Admitted(site, Run(site, before), op.request, op.env);
    RunParts(site, before);
    R.FoldWellFormed(site.digest, Upserts(site, before));
    StateChecked(Run(site, before).registry.records[Trim(m.request.addonId)].haMode, op.request, op.env.broker);
  }

  lemma StateChecked(mode: R.HaMode, r: Request, broker: Broker)
    requires r.HaState? && DecideState(mode, r, broker).Hand? && Trim(r.addonId) != ""
    ensures var topic, id := DecideState(mode, r, broker).topic, Trim(r.addonId);
      && !mode.NoHa? && topic == Trim(r.topic) != "" && !HasWildcard(topic) && !IsReserved(topic)
      && (r.addonId != "anonymous" ==> OwnedBy(topic, id) && StartsWith(topic, Prefix(id)))
  {
    assert Trim(Trim(r.topic)) == Trim(r.topic);
    PublishTopicIff(Trim(r.topic), Some(r.addonId));
  }

  /** Discovery messages: the addon is registered for Home Assistant, and the topic is
      the one of the request's unique id, outside every namespace of the platform. */
  lemma {:induction false} DiscoveryConfinement(site: Site, before: seq<Op>, op: Op, m: Sent)
    requires SentAt(site, before, op, m) && m.request.HaDiscovery?
    ensures Entitled(site, before, m.request.claims)
    ensures var registry, id := R.Fold(site.digest, Upserts(site, before)), Trim(m.request.addonId);
      && id in registry.records && !registry.records[id].haMode.NoHa?
      && m.topic == DiscoveryTopic(m.request.uniqueId) && !IsPlatformTopic(m.topic)
  {
    SenderEntitled(site, before, op, m);
    Admitted(site, Run(site, before), op.request, op.env);
    RunParts(site, before);
    DiscoveryOutside(m.request.uniqueId);
  }

  lemma DiscoveryOutside(uniqueId: string)
    ensures !IsPlatformTopic(DiscoveryTopic(uniqueId))
  {
    var t := DiscoveryTopic(uniqueId);
    assert t[0] == 'h' && ADDONS[0] == 's';
    forall p | p in RESERVED_NAMESPACE_PREFIXES ensures !StartsWith(t, p) {
      assert p[0] == 's';
    }
  }

  lemma DiscoveryTopicInjective(a: string, b: string)
    ensures DiscoveryTopic(a) == DiscoveryTopic(b) <==> a == b
  {
    var front, back := "homeassistant/sensor/", "/config";
    assert DiscoveryTopic(a)[|front|..|DiscoveryTopic(a)| - |back|] == a;
    assert DiscoveryTopic(b)[|front|..|DiscoveryTopic(b)| - |back|] == b;
  }

  // ----- Whole runs ---------------------------------------------------------

  lemma {:induction false} StepSends(site: Site, w: World, op: Op)
    ensures var t := Step(site, w, op);
      t.sent == w.sent ||
      (|t.sent| == |w.sent| + 1 && t.sent == w.sent + [t.sent[|w.sent|]] &&
       op.Publish? && t.sent[|w.sent|].request == op.request)
  {
  }

  /** Every message handed over was handed over by one operation of the run. */
  lemma {:induction false} SentOrigin(site: Site, ops: seq<Op>, i: nat) returns (k: nat)
    requires i < |Run(site, ops).sent|
    ensures k < |ops| && SentAt(site, ops[..k], ops[k], Run(site, ops).sent[i])
  {
    var n := |ops| - 1;
    var before := ops[..n];
    StepSends(site, Run(site, before), ops[n]);
    if i < |Run(site, before).sent| {
      k := SentOrigin(site, before, i);
      assert before[..k] == ops[..k];
    } else {
      k := n;
    }
  }

  /** The addon in whose namespace a message must lie: none for discovery messages and
      for Home Assistant state sent for exactly `anonymous`. */
  function OwnerOf(m: Sent): Option<string> {
    if m.request.HaDiscovery? then None
    else if m.request.HaState? then Owner(Some(m.request.addonId))
    else Some(AddonOf(m.request))
  }

  /** Every message the four routes hand to the broker, in every run: its sender is
      entitled at that moment and its topic not reserved; with an owner it lies in the
      owner's namespace, and with a gateway or direct request it carries a complete
      envelope; without an owner it is for Home Assistant. */
  lemma {:induction false} EverySentConfined(site: Site, ops: seq<Op>, i: nat) returns (k: nat)
    requires i < |Run(site, ops).sent|
    ensures var m := Run(site, ops).sent[i];
      && k < |ops| && SentAt(site, ops[..k], ops[k], m) && Entitled(site, ops[..k], m.request.claims)
      && !IsReserved(m.topic)
      && (m.request.Direct? || m.request.ViaGateway? ==> Confined(site, m))
      && match OwnerOf(m)
         case Some(owner) => OwnedBy(m.topic, owner) && !HasWildcard(m.topic)
         case None => m.request.HaDiscovery? || (m.request.HaState? && m.request.addonId == "anonymous")
  {
    k := SentOrigin(site, ops, i);
    var m := Run(site, ops).sent[i];
    match m.request
    case Direct(_, _, _) => DirectConfinement(site, ops[..k], ops[k], m);
    case ViaGateway(_, _, _, _, _) => GatewayConfinement(site, ops[..k], ops[k], m);
    case HaDiscovery(_, _, _) => DiscoveryConfinement(site, ops[..k], ops[k], m);
    case HaState(_, _, _, _) =>
      StateConfinement(site, ops[..k], ops[k], m);
      R.FoldWellFormed(site.digest, Upserts(site, ops[..k]));
  }

  lemma RunSnoc(site: Site, ops: seq<Op>, op: Op)
    ensures Run(site, ops + [op]) == Step(site, Run(site, ops), op)
  {
    assert (ops + [op])[..|ops|] == ops;
  }

  const APPLY := Setup(IW.Apply(IW.ApplyEmbedded(None, None, IW.GatewayOnly),
                                IW.ALL_WELL))

  /** A grant message for `consumer` without id, service or scopes. */
  function GrantFor(consumer: string): Op {
    Policy("/policy/grants/", Some(P.Payload(Some(consumer), None, None, None, None, None, None, None, {})))
  }

  /** A registration without any scopes, enabled for Home Assistant. */
  function HaRegistration(sub: string, id: string): Op {
    Register(sub, R.Request(id, R.GatewayOnly, [], [], "", false, R.GatewayManaged),
             RegisterEnv(false, false, "", Saved, R.NoteWritten, false, Saved))
  }

  lemma GrantRead(site: Site, consumer: string)
    requires consumer != "" && Trimmed(consumer) && site.lower("active") == "active"
    ensures var op := GrantFor(consumer);
      P.Read(op.topic, op.message, site.serviceName, site.lower) == P.Give(P.Grant("", consumer, "", "active", {}))
  {
    assert OccursAt("/policy/grants/", "/policy/grants/", 0);
    assert Trimmed("active") && Trimmed("");
  }

  lemma HaRegistered(site: Site, w: World, sub: string, id: string)
    requires IW.Readable(w.install) && id != "" && Trimmed(id)
    ensures var t := Step(site, w, HaRegistration(sub, id));
      && id in t.registry.records && !t.registry.records[id].haMode.NoHa?
      && t.install == w.install && t.cache == w.cache && t.sent == w.sent
  {
  }

  lemma Applied(site: Site)
    requires IW.Readable(First(site).install)
    ensures var t := Step(site, First(site), APPLY);
      IW.GateOpen(t.install) && t.cache == P.EMPTY && t.sent == []
  {
  }

  /** From a world like the first, the shortest way to one in which `consumer` may publish
      for the registered `id`. */
  lemma ReadyFor(site: Site, before: seq<Op>, consumer: string, id: string) returns (ops: seq<Op>, w: World)
    requires IW.Readable(First(site).install) && Run(site, before) == First(site)
    requires consumer != "" && Trimmed(consumer) && site.lower("active") == "active"
    requires id != "" && Trimmed(id)
    ensures before <= ops && w == Run(site, ops) && IW.GateOpen(w.install) && w.sent == []
    ensures w.cache == P.Step(P.EMPTY, P.Give(P.Grant("", consumer, "", "active", {})))
    ensures id in w.registry.records && !w.registry.records[id].haMode.NoHa?
  {
    var w1 := Step(site, First(site), APPLY);
    var w2 := Step(site, w1, GrantFor(consumer));
    Applied(site);
    GrantRead(site, consumer);
    HaRegistered(site, w2, consumer, id);
    w := Step(site, w2, HaRegistration(consumer, id));
    RunSnoc(site, before, APPLY);
    RunSnoc(site, before + [APPLY], GrantFor(consumer));
    RunSnoc(site, before + [APPLY] + [GrantFor(consumer)], HaRegistration(consumer, id));
    ops := before + [APPLY] + [GrantFor(consumer)] + [HaRegistration(consumer, id)];
  }

  /** Nothing is in the way of a request. */
  const FINE := Env(false, false, Accepts, false, Saved)

  lemma HandsState(site: Site, w: World, r: Request, topic: string)
    requires r == HaState(r.claims, "anonymous", topic, NotAnObject)
    requires IW.GateOpen(w.install) && P.Allows(w.cache, site.serviceName, r.claims, PUBLISH)
    requires "anonymous" in w.registry.records && !w.registry.records["anonymous"].haMode.NoHa?
    requires topic != "" && Trimmed(topic) && !HasWildcard(topic) && !IsReserved(topic)
    ensures Decide(site, w, r, FINE) == Hand(topic, NotAnObject)
  {
    assert Trim("anonymous") == "anonymous";
    PublishTopicIff(topic, Some("anonymous"));
  }

  /** The exception for `anonymous` is real: once setup is applied, `consumer` has a
      grant and `anonymous` is registered without any scopes, a state message for
      `anonymous` goes out on any topic that is not reserved, another addon's included. */
  lemma AnonymousGoesAnywhere(site: Site, consumer: string, jti: string, topic: string) returns (ops: seq<Op>)
    requires site.overrides.Overrides? && site.lower("active") == "active"
    requires consumer != "" && Trimmed(consumer) && consumer != "anonymous"
    requires topic != "" && Trimmed(topic) && !HasWildcard(topic) && !IsReserved(topic)
    ensures |Run(site, ops).sent| == 1
    ensures var m := Run(site, ops).sent[0];
      m.accepted && m.topic == topic && m.request.HaState? && m.request.claims.sub == consumer
  {
    var r := HaState(P.Claims(consumer, jti, {PUBLISH}), "anonymous", topic, NotAnObject);
    var w;
    ops, w := ReadyFor(site, [], consumer, "anonymous");
    assert P.Allows(w.cache, site.serviceName, r.claims, PUBLISH);
    HandsState(site, w, r, topic);
    RunSnoc(site, ops, Publish(r, FINE));
    ops := ops + [Publish(r, FINE)];
  }

  /** A revocation message for one token. */
  function RevokeToken(jti: string): Op {
    Policy("/policy/revocations/", Some(P.Payload(None, None, None, None, None, None, Some(jti), None, {})))
  }

  lemma RevocationRead(site: Site, jti: string)
    requires jti != "" && Trimmed(jti)
    ensures var op := RevokeToken(jti);
      P.Read(op.topic, op.message, site.serviceName, site.lower) == P.Revoke(jti, "", "")
  {
    var topic := "/policy/revocations/";
    assert OccursAt(topic, "/policy/revocations/", 0);
    forall i | 0 <= i <= |topic| ensures !OccursAt(topic, "/policy/grants/", i) {
      if i + 15 <= |topic| {
        assert topic[i..i + 15][8] == topic[i + 8] != 'g';
      }
    }
    assert Trimmed("");
  }

  /** A restart forgets: a token revoked before it is accepted after it, unless the
      revocation is delivered again. */
  lemma RevocationForgotten(site: Site, consumer: string, jti: string) returns (ops: seq<Op>)
    requires site.overrides.Overrides? && site.lower("active") == "active"
    requires consumer != "" && Trimmed(consumer) && consumer != "anonymous" && jti != "" && Trimmed(jti)
    ensures |ops| > 1 && jti in Run(site, ops[..1]).cache.revokedJti && ops[1] == Restart
    ensures |Run(site, ops).sent| == 1
    ensures var m := Run(site, ops).sent[0];
      m.accepted && m.request.claims.sub == consumer && m.request.claims.jti == jti
  {
    var r := HaDiscovery(P.Claims(consumer, jti, {PUBLISH}), consumer, "s");
    RevocationRead(site, jti);
    RunSnoc(site, [], RevokeToken(jti));
    RunSnoc(site, [] + [RevokeToken(jti)], Restart);
    var before := [] + [RevokeToken(jti)] + [Restart];
    assert before[..1] == [] + [RevokeToken(jti)];
    var w;
    ops, w := ReadyFor(site, before, consumer, consumer);
    assert ops[..1] == before[..1] && ops[1] == before[1];
    assert Decide(site, w, r, FINE) == Hand(DiscoveryTopic("s"), SENSOR);
    RunSnoc(site, ops, Publish(r, FINE));
    assert (ops + [Publish(r, FINE)])[..1] == ops[..1];
    ops := ops + [Publish(r, FINE)];
  }

  /** One id leads below the other. */
  predicate Below(outer: string, inner: string) {
    outer + "/" <= inner
  }

  /** Two owners can only have messages on the same topic when one id leads below the
      other, and, but for `anonymous`, when one is nested in the other; never when neither
      contains `/`. */
  lemma {:induction false} SharedTopicsNested(site: Site, ops: seq<Op>, i: nat, j: nat)
    requires i < |Run(site, ops).sent| && j < |Run(site, ops).sent|
    requires var x, y := OwnerOf(Run(site, ops).sent[i]), OwnerOf(Run(site, ops).sent[j]);
      x.Some? && y.Some? && x != y
    ensures var m, n := Run(site, ops).sent[i], Run(site, ops).sent[j];
      var x, y := OwnerOf(m).value, OwnerOf(n).value;
      && (m.topic == n.topic ==> Below(x, y) || Below(y, x))
      && (m.topic == n.topic && x != "anonymous" && y != "anonymous" ==> Nested(x, y) || Nested(y, x))
      && ('/' !in x && '/' !in y ==> m.topic != n.topic)
  {
    var _ := EverySentConfined(site, ops, i);
    var _ := EverySentConfined(site, ops, j);
    var m, n := Run(site, ops).sent[i], Run(site, ops).sent[j];
    var x, y := OwnerOf(m).value, OwnerOf(n).value;
    if m.topic == n.topic {
      TwoOwners(x, y, m.topic);
    }
  }

  lemma TwoOwners(x: string, y: string, topic: string)
    requires x != y && OwnedBy(topic, x) && OwnedBy(topic, y)
    ensures Below(x, y) || Below(y, x)
    ensures x != "anonymous" && y != "anonymous" ==> Nested(x, y) || Nested(y, x)
    ensures '/' in x || '/' in y
  {
    OneBelow(x, y, topic);
    assert Below(x, y) ==> y[|x|] == '/';
    assert Below(y, x) ==> x[|y|] == '/';
    if x != "anonymous" && y != "anonymous" {
      if |x| <= |y| { SharedIsNested(x, y, topic); } else { SharedIsNested(y, x, topic); }
    }
  }

  lemma OneBelow(x: string, y: string, topic: string)
    requires x != y && InNamespace(topic, x) && InNamespace(topic, y)
    ensures Below(x, y) || Below(y, x)
  {
    if StartsWith(topic, Prefix(x)) && StartsWith(topic, Prefix(y)) {
      if |x| <= |y| { CommonPrefix(ADDONS, x, y, topic); } else { CommonPrefix(ADDONS, y, x, topic); }
    } else if StartsWith(topic, Prefix(x)) {
      assert y == topic[|ADDONS|..] && x + "/" == topic[|ADDONS|..|Prefix(x)|];
    } else {
      assert x == topic[|ADDONS|..] && y + "/" == topic[|ADDONS|..|Prefix(y)|];
    }
  }

  lemma DiscoveryTopicOf(site: Site, ops: seq<Op>, i: nat)
    requires i < |Run(site, ops).sent| && Run(site, ops).sent[i].request.HaDiscovery?
    ensures var m := Run(site, ops).sent[i];
      m.topic == DiscoveryTopic(m.request.uniqueId) && !IsPlatformTopic(m.topic)
  {
    var k := SentOrigin(site, ops, i);
    DiscoveryConfinement(site, ops[..k], ops[k], Run(site, ops).sent[i]);
  }

  /** A discovery message shares its topic with no owned message, and with another
      discovery message exactly when both have the same unique id, whoever sent them. */
  lemma {:induction false} DiscoveryTopics(site: Site, ops: seq<Op>, i: nat, j: nat)
    requires i < |Run(site, ops).sent| && j < |Run(site, ops).sent|
    requires Run(site, ops).sent[i].request.HaDiscovery?
    ensures var m, n := Run(site, ops).sent[i], Run(site, ops).sent[j];
      && (OwnerOf(n).Some? ==> m.topic != n.topic)
      && (n.request.HaDiscovery? ==> (m.topic == n.topic <==> m.request.uniqueId == n.request.uniqueId))
  {
    var m, n := Run(site, ops).sent[i], Run(site, ops).sent[j];
    DiscoveryTopicOf(site, ops, i);
    if n.request.HaDiscovery? {
      DiscoveryTopicOf(site, ops, j);
      DiscoveryTopicInjective(m.request.uniqueId, n.request.uniqueId);
    } else if OwnerOf(n).Some? {
      var _ := EverySentConfined(site, ops, j);
      assert ADDONS <= Prefix(OwnerOf(n).value) && ADDONS <= ADDONS + OwnerOf(n).value;
      assert StartsWith(n.topic, ADDONS);
    }
  }

  // ----- Accounting ---------------------------------------------------------

  function AcceptedCount(sent: seq<Sent>): nat {
    if sent == [] then 0 else AcceptedCount(sent[..|sent| - 1]) + if sent[|sent| - 1].accepted then 1 else 0
  }

  /** Accepted messages whose fate could be traced. */
  function TracedCount(sent: seq<Sent>): nat {
    if sent == [] then 0
    else
      var m := sent[|sent| - 1];
      TracedCount(sent[..|sent| - 1]) + if m.accepted && m.traced then 1 else 0
  }

  function Successes(ts: seq<Trace>): nat {
    CountOutcome(OnlyPublishes(ts), Success)
  }

  lemma SuccessStep(ts: seq<Trace>, t: Trace)
    ensures Successes(ts + [t]) == Successes(ts) + if IsPublish(t) && t.outcome.Success? then 1 else 0
  {
    assert (ts + [t])[..|ts|] == ts;
    var kept := OnlyPublishes(ts);
    assert (kept + [t])[..|kept|] == kept;
    assert OnlyPublishes(ts + [t]) == if IsPublish(t) then kept + [t] else kept;
  }

  lemma AcceptedStep(sent: seq<Sent>, m: Sent)
    ensures AcceptedCount(sent + [m]) == AcceptedCount(sent) + if m.accepted then 1 else 0
    ensures TracedCount(sent + [m]) == TracedCount(sent) + if m.accepted && m.traced then 1 else 0
  {
    assert (sent + [m])[..|sent|] == sent;
  }

  lemma UpsertIsNoPublish()
    ensures !Contains(UPSERT, "publish")
  {
    forall i | 0 <= i <= |UPSERT| ensures !OccursAt(UPSERT, "publish", i) {
      if i + 7 <= |UPSERT| {
        assert UPSERT[i..i + 7][0] == UPSERT[i];
        assert UPSERT[i] != 'p';
      }
    }
  }

  lemma OperationIsPublish(r: Request)
    ensures Contains(Operation(r), "publish")
  {
    match r
    case Direct(_, _, _) => assert OccursAt(PUBLISH, "publish", 5);
    case ViaGateway(_, _, _, _, _) => assert OccursAt(GATEWAY_PUBLISH, "publish", 13);
    case HaDiscovery(_, _, _) => assert OccursAt(HA_DISCOVERY_PUBLISH, "publish", 18);
    case HaState(_, _, _, _) => assert OccursAt(HA_STATE_PUBLISH, "publish", 14);
  }

  ghost predicate Accounted(w: World) {
    Successes(w.traces) == TracedCount(w.sent) == |w.usage|
  }

  lemma SettleAccounts(w: World, d: Decision, r: Request, env: Env)
    requires Accounted(w)
    ensures Accounted(Settle(w, d, r, env))
  {
    OperationIsPublish(r);
    var t := Settle(w, d, r, env);
    if t.traces != w.traces {
      var trace := t.traces[|w.traces|];
      assert t.traces == w.traces + [trace] && IsPublish(trace);
      SuccessStep(w.traces, trace);
    }
    if d.Hand? {
      AcceptedStep(w.sent, t.sent[|w.sent|]);
    }
  }

  lemma StepAccounts(site: Site, w: World, op: Op)
    requires Accounted(w)
    ensures Accounted(Step(site, w, op))
  {
    match op
    case Setup(_) =>
    case Policy(_, _) =>
    case Restart =>
    case Register(_, _, _) =>
      UpsertIsNoPublish();
      var t := Step(site, w, op);
      if t.traces != w.traces {
        var trace := t.traces[|w.traces|];
        assert t.traces == w.traces + [trace] && !IsPublish(trace);
        SuccessStep(w.traces, trace);
      }
    case Publish(r, env) =>
      SettleAccounts(w, Decide(site, w, r, env), r, env);
  }

  lemma {:induction false} RunAccounts(site: Site, ops: seq<Op>)
    ensures Accounted(Run(site, ops))
  {
    if ops != [] {
      RunAccounts(site, ops[..|ops| - 1]);
      StepAccounts(site, Run(site, ops[..|ops| - 1]), ops[|ops| - 1]);
    }
  }

  lemma {:induction false} TracedAtMost(sent: seq<Sent>)
    ensures TracedCount(sent) <= AcceptedCount(sent)
    ensures TracedCount(sent) == AcceptedCount(sent) <==> forall m | m in sent && m.accepted :: m.traced
  {
    if sent != [] {
      var init, m := sent[..|sent| - 1], sent[|sent| - 1];
      assert sent == init + [m];
      TracedAtMost(init);
    }
  }

  /** Over any run, success traces of publish operations and usage events are equally
      many, and no more than the messages the broker took; exactly as many if and only if
      the fate of every message it took could be traced. */
  lemma PublishesAccounted(site: Site, ops: seq<Op>)
    ensures var w := Run(site, ops);
      && Successes(w.traces) == |w.usage| <= AcceptedCount(w.sent)
      && (|w.usage| == AcceptedCount(w.sent) <==> forall m | m in w.sent && m.accepted :: m.traced)
  {
    RunAccounts(site, ops);
    TracedAtMost(Run(site, ops).sent);
  }
}
