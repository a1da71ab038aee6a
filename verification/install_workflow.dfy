/** The install workflow as a state machine: mode selection, external test, apply
    and reset over the stored session, whose `ready` state opens publishing. */
module InstallWorkflow {
  import opened Text
  import opened Wrappers

  datatype Mode = External | Embedded
  datatype Access = GatewayOnly | ManualDirect
  datatype SetupState = Unconfigured | Configuring | Ready | Error | Degraded

  /** What the request models allow as a port. */
  type Port = p: nat | 1 <= p <= 65535 witness 1883

  /** A broker connection: what is tested and applied, and what `config.json` keeps
      under `mqtt_host` and its companions. */
  datatype Connection = Connection(
    host: string, port: Port, tls: bool, username: Option<string>, password: Option<string>)

  /** The parts of `config.json` the workflow reads and writes. The file is opened
      for writing in place, so a save that breaks off leaves it `Unreadable`, and
      from then on loading it raises. */
  datatype Overrides =
    | Overrides(mode: Option<Mode>, access: Option<Access>, connection: Option<Connection>, coreUrl: Option<string>)
    | Unreadable

  /** `install_state.json` without the optional-group lists. */
  datatype Core = Core(
    mode: Mode, setup: SetupState, configured: bool, verified: bool, registered: bool,
    lastError: Option<string>, testOk: bool, testSignature: Option<string>, access: Access)

  const DEFAULT_CORE := Core(External, Unconfigured, false, false, false, None, false, None, GatewayOnly)

  /** The session file, written in place like `config.json`. */
  datatype Session = Session(core: Core) | Damaged

  datatype Install = Install(overrides: Overrides, session: Session)

  /** Both files can be loaded. */
  predicate Readable(i: Install) {
    i.overrides.Overrides? && i.session.Session?
  }

  /** `get_install_session_state`: the stored session under the mode of the overrides;
      it raises when one of the files cannot be loaded. */
  function Observe(i: Install): Core
    requires Readable(i)
  {
    i.session.core.(mode := if i.overrides.mode.Some? then i.overrides.mode.value else External)
  }

  /** `_save_install_session_state`. */
  function StoreSession(i: Install, core: Core, save: Save): (t: Install)
    ensures t.overrides == i.overrides
  {
    match save
    case Saved => i.(session := Session(core))
    case Refused => i
    case Torn => i.(session := Damaged)
  }

  // ----- The test signature -------------------------------------------------

  function Blank(s: Option<string>): string {
    if s.Some? then s.value else ""
  }

  /** `_external_signature`. */
  function Signature(c: Connection): string {
    Trim(c.host) + "|" + (Digits(c.port) + "|" + ((if c.tls then "1" else "0") + "|" + Credentials(c)))
  }

  function Credentials(c: Connection): string {
    Blank(c.username) + "|" + Blank(c.password)
  }

  /** Equal up to spaces around the host and missing versus empty credentials. */
  predicate Same(c: Connection, d: Connection) {
    && Trim(c.host) == Trim(d.host) && c.port == d.port && c.tls == d.tls
    && Blank(c.username) == Blank(d.username) && Blank(c.password) == Blank(d.password)
  }

  // ----- Operations ---------------------------------------------------------

  datatype ApplyRequest =
    | ApplyExternal(config: Connection, allowUnvalidated: bool, access: Access)
    | ApplyEmbedded(adminUser: Option<string>, adminPass: Option<string>, access: Access)

  /** What became of `apply_install_config`: done, the save of the overrides given up or
      broken off, or the session save after it. */
  datatype PersistAnswer = Persisted | OverridesRefused | OverridesTorn | SessionRefused | SessionTorn
  datatype RuntimeAnswer = Applied | NotApplied | BadValue(message: string) | Broken
  /** Adding the `broker` group: done or not needed, refused by the state mount, any
      other exception, or one that broke off the save of the session. */
  datatype GroupsAnswer = GroupsDone | GroupsBlocked(message: string) | GroupsRaised | GroupsTorn

  /** What the surroundings answer during one apply: its first session save, the check of
      the test, the configuration, the reload, the runtime, the groups, its last save. */
  datatype ApplyEnv = ApplyEnv(begin: Save, checkRaises: bool, persist: PersistAnswer, reloadRaises: bool,
                               runtime: RuntimeAnswer, groups: GroupsAnswer, finish: Save)

  /** Every operation that writes the session file or `config.json`, with what became of
      its saves; `Refused` also stands for a load before the save that raised. */
  datatype Op =
    | SetMode(mode: Mode, access: Access, overridesSave: Save, save: Save)
    | TestExternal(config: Connection, passed: bool, reason: Option<string>, save: Save)
    | Apply(request: ApplyRequest, env: ApplyEnv)
    | Reset(save: Save)
    | RegisterCore(accepted: bool, failure: string, save: Save)
    | RestartBroker(restarted: bool, failure: string, save: Save)
    | SaveGroups(save: Save)
    | SetCoreUrl(url: string, overridesSave: Save)
    | UpdateConfig(connection: Connection, overridesSave: Save)

  const EMBEDDED_HOST := "synthia-addon-mqtt-mosquitto"

  function RequestMode(r: ApplyRequest): Mode {
    if r.ApplyExternal? then External else Embedded
  }

  function RequestConnection(r: ApplyRequest): Connection {
    match r
    case ApplyExternal(c, _, _) => c
    case ApplyEmbedded(user, pass, _) => Connection(EMBEDDED_HOST, 1883, false, user, pass)
  }

  /** `config.json` after a save of `wanted`. */
  function AfterSave(before: Overrides, wanted: Overrides, save: Save): Overrides {
    match save
    case Saved => wanted
    case Refused => before
    case Torn => Unreadable
  }

  // What the operations make of the observed session.

  function Chosen(c: Core, mode: Mode, access: Access): Core {
    c.(mode := mode, access := access, setup := Configuring, configured := false, verified := false, lastError := None)
  }

  function Tested(c: Core, config: Connection, passed: bool, reason: Option<string>): Core {
    c.(mode := External, setup := Configuring, verified := passed, lastError := if passed then None else reason,
       testOk := passed, testSignature := if passed then Some(Signature(config)) else None)
  }

  /** The first step of every apply: the session leaves `ready`. */
  function Begun(c: Core, r: ApplyRequest): Core {
    c.(mode := RequestMode(r), setup := Configuring, configured := false, verified := false,
       access := r.access, lastError := None)
  }

  function Configured(c: Core, r: ApplyRequest): Core {
    c.(mode := RequestMode(r), configured := true, lastError := None)
  }

  function MadeReady(c: Core, r: ApplyRequest): Core {
    c.(mode := RequestMode(r), setup := Ready, configured := true, verified := true,
       access := r.access, lastError := None)
  }

  function Failed(c: Core, mode: Mode, message: string): Core {
    c.(mode := mode, setup := Error, configured := false, verified := false, lastError := Some(message))
  }

  function Registered(c: Core, accepted: bool, failure: string): Core {
    c.(registered := accepted, lastError := if accepted then None else Some(failure))
  }

  /** `restart_broker`: the setup state stays as it was. */
  function Restarted(c: Core, restarted: bool, failure: string): Core {
    c.(mode := Embedded, verified := restarted, lastError := if restarted then None else Some(failure))
  }

  predicate TestedFor(core: Core, c: Connection) {
    core.testOk && core.testSignature == Some(Signature(c))
  }

  /** The overrides that `apply_install_config` saves. */
  function Overridden(o: Overrides, r: ApplyRequest): (w: Overrides)
    requires o.Overrides?
    ensures w.Overrides?
  {
    o.(mode := Some(RequestMode(r)), access := Some(r.access), connection := Some(RequestConnection(r)))
  }

  const PERSIST_FAILED := "Failed to persist install config"
  const RUNTIME_FAILED := "Failed to apply embedded broker runtime"

  /** `apply_install_config`: what each answer of the file system leaves behind. */
  function Persist(i: Install, r: ApplyRequest, persist: PersistAnswer): (t: Install)
    requires Readable(i)
    ensures persist.Persisted? || persist.SessionRefused? || persist.OverridesRefused? <==> Readable(t)
  {
    if persist.OverridesRefused? then i
    else if persist.OverridesTorn? then i.(overrides := Unreadable)
    else
      var saved := i.(overrides := Overridden(i.overrides, r));
      if persist.SessionRefused? then saved
      else if persist.SessionTorn? then saved.(session := Damaged)
      else saved.(session := Session(Configured(Observe(saved), r)))
  }

  /** The update with which an apply reports a failure; it raises itself, and changes
      nothing, when a file cannot be loaded. */
  function Fail(i: Install, mode: Mode, message: string, save: Save): Install {
    if Readable(i) then StoreSession(i, Failed(Observe(i), mode, message), save) else i
  }

  /** The end of every apply that reaches its reload. */
  function Finish(i: Install, r: ApplyRequest, env: ApplyEnv): (Install, bool)
    requires Readable(i)
  {
    if env.reloadRaises then (i, false)
    else (StoreSession(i, MadeReady(Observe(i), r), env.finish), env.finish.Saved?)
  }

  /** The embedded part of an apply, after the configuration is saved. */
  function FinishEmbedded(i: Install, r: ApplyRequest, env: ApplyEnv): (Install, bool)
    requires Readable(i)
  {
    match env.runtime
    case BadValue(message) => (Fail(i, Embedded, message, env.finish), false)
    case Broken => (Fail(i, Embedded, RUNTIME_FAILED, env.finish), false)
    case NotApplied => (i, false)
    case Applied =>
      match env.groups
      case GroupsBlocked(message) => (Fail(i, Embedded, message, env.finish), false)
      case GroupsRaised => (i, false)
      case GroupsTorn => (i.(session := Damaged), false)
      case GroupsDone => Finish(i, r, env)
  }

  /** `apply_install`: the state left behind, and whether it answered `ok`. */
  function HandleApply(i: Install, r: ApplyRequest, env: ApplyEnv): (Install, bool)
    requires Readable(i)
  {
    var begun := StoreSession(i, Begun(Observe(i), r), env.begin);
    if !env.begin.Saved? then (begun, false)
    else if r.ApplyExternal? && !r.allowUnvalidated && (env.checkRaises || !TestedFor(Observe(begun), r.config))
    then (begun, false)
    else
      var kept := Persist(begun, r, env.persist);
      if !env.persist.Persisted? then (Fail(kept, RequestMode(r), PERSIST_FAILED, env.finish), false)
      else if r.ApplyExternal? then Finish(kept, r, env)
      else FinishEmbedded(kept, r, env)
  }

  function HandleSetMode(i: Install, mode: Mode, access: Access, overridesSave: Save, save: Save): (Install, bool)
    requires i.overrides.Overrides?
  {
    var wanted := i.overrides.(mode := Some(mode), access := Some(access));
    var saved := i.(overrides := AfterSave(i.overrides, wanted, overridesSave));
    if !overridesSave.Saved? || saved.session.Damaged? then (saved, false)
    else (StoreSession(saved, Chosen(Observe(saved), mode, access), save), save.Saved?)
  }

  /** An operation that does nothing but update the observed session. */
  function HandleUpdate(i: Install, op: Op): (Install, bool)
    requires Readable(i) && (op.TestExternal? || op.RegisterCore? || op.RestartBroker? || op.SaveGroups?)
  {
    match op
    case TestExternal(config, passed, reason, save) =>
      (StoreSession(i, Tested(Observe(i), config, passed, reason), save), save.Saved? && passed)
    case RegisterCore(accepted, failure, save) =>
      (StoreSession(i, Registered(Observe(i), accepted, failure), save), save.Saved? && accepted)
    case RestartBroker(restarted, failure, save) =>
      (StoreSession(i, Restarted(Observe(i), restarted, failure), save), save.Saved? && restarted)
    case SaveGroups(save) => (StoreSession(i, Observe(i), save), save.Saved?)
  }

  /** One operation: the state left behind, and whether it succeeded. Only a reset gets
      past a session file that cannot be loaded, and repairs it. */
  function Handle(i: Install, op: Op): (Install, bool) {
    match op
    case Reset(save) => (StoreSession(i, DEFAULT_CORE, save), save.Saved?)
    case SetMode(mode, access, overridesSave, save) =>
      if i.overrides.Unreadable? then (i, false) else HandleSetMode(i, mode, access, overridesSave, save)
    case SetCoreUrl(url, save) =>
      if i.overrides.Unreadable? then (i, false)
      else (i.(overrides := AfterSave(i.overrides, i.overrides.(coreUrl := Some(url)), save)), save.Saved?)
    case UpdateConfig(connection, save) =>
      if i.overrides.Unreadable? then (i, false)
      else (i.(overrides := AfterSave(i.overrides, i.overrides.(connection := Some(connection)), save)), save.Saved?)
    case Apply(request, env) => if Readable(i) then HandleApply(i, request, env) else (i, false)
    case _ => if Readable(i) then HandleUpdate(i, op) else (i, false)
  }

  function Run(i: Install, h: seq<Op>): Install {
    if h == [] then i else Handle(Run(i, h[..|h| - 1]), h[|h| - 1]).0
  }

  /** The setup check in front of every publish route; it raises, and so lets nothing
      through, when a file cannot be loaded. */
  predicate GateOpen(i: Install) {
    Readable(i) && Observe(i).setup in {Ready, Degraded}
  }

  // ----- The setup gate over whole runs -------------------------------------

  /** The operations after which the gate is shut, unless they are an apply that
      succeeds: a mode choice, test, apply or reset that gets to its session save, and
      any save that breaks off. */
  predicate Shuts(op: Op) {
    match op
    case SetMode(_, _, overridesSave, save) => overridesSave.Torn? || (overridesSave.Saved? && !save.Refused?)
    case TestExternal(_, _, _, save) => !save.Refused?
    case Apply(_, env) => !env.begin.Refused?
    case Reset(save) => !save.Refused?
    case SetCoreUrl(_, save) => save.Torn?
    case UpdateConfig(_, save) => save.Torn?
    case RegisterCore(_, _, save) => save.Torn?
    case RestartBroker(_, _, save) => save.Torn?
    case SaveGroups(save) => save.Torn?
  }

  /** Operation `k` of the history is an apply that answered `ok`. */
  predicate AppliedAt(i: Install, h: seq<Op>, k: nat)
    requires k < |h|
  {
    h[k].Apply? && Handle(Run(i, h[..k]), h[k]).1
  }

  /** Some apply succeeded and nothing after it shuts the gate. */
  ghost predicate LastSetupApplied(i: Install, h: seq<Op>) {
    exists k | 0 <= k < |h| :: AppliedAt(i, h, k) && forall j | k < j < |h| :: !Shuts(h[j])
  }

  /** An operation that says whether the broker is verified: a restart that is recorded,
      or an apply that gets to its first save. */
  predicate SetsVerified(op: Op) {
    (op.RestartBroker? && op.save.Saved?) || (op.Apply? && !op.env.begin.Refused?)
  }

  predicate FailedRestart(op: Op) {
    op.RestartBroker? && op.save.Saved? && !op.restarted
  }

  /** The last such operation is a restart that failed. */
  ghost predicate LastRestartFailed(h: seq<Op>) {
    exists k | 0 <= k < |h| :: FailedRestart(h[k]) && forall j | k < j < |h| :: !SetsVerified(h[j])
  }

  predicate NeverDegraded(i: Install) {
    i.session.Session? ==> !i.session.core.setup.Degraded?
  }

  predicate ReadyIsConfigured(i: Install) {
    i.session.Session? && i.session.core.setup == Ready ==> i.session.core.configured
  }

  lemma FinishGate(i: Install, r: ApplyRequest, env: ApplyEnv)
    requires Readable(i) && i.session.core.setup == Configuring
    ensures ShutOrReady(Finish(i, r, env)) && ShutOrReady(FinishEmbedded(i, r, env))
  {
  }

  /** What every apply that begins leaves: a ready and verified session, or none ready. */
  predicate ShutOrReady(t: (Install, bool)) {
    && NeverDegraded(t.0)
    && (t.1 ==> Readable(t.0))
    && (t.0.session.Session? ==>
          var c := t.0.session.core;
          (c.setup == Ready <==> t.1) && (t.1 ==> c.configured && c.verified))
  }

  lemma ApplyGate(i: Install, r: ApplyRequest, env: ApplyEnv)
    requires Readable(i) && !env.begin.Refused?
    ensures ShutOrReady(HandleApply(i, r, env))
  {
    if env.begin.Saved? {
      var begun := StoreSession(i, Begun(Observe(i), r), env.begin);
      if env.persist.Persisted? {
        FinishGate(Persist(begun, r, Persisted), r, env);
      }
    }
  }

  /** What one operation does to the gate and to the flags of a ready session. */
  lemma StepGate(i: Install, op: Op)
    requires NeverDegraded(i) && ReadyIsConfigured(i)
    ensures var t := Handle(i, op);
      && NeverDegraded(t.0) && ReadyIsConfigured(t.0)
      && (GateOpen(t.0) <==> if Shuts(op) then op.Apply? && t.1 else GateOpen(i))
      && (GateOpen(t.0) ==>
            t.0.session.core.verified ==
              if !SetsVerified(op) then i.session.Session? && i.session.core.verified
              else op.Apply? || op.restarted)
  {
    if op.Apply? && Readable(i) && !op.env.begin.Refused? {
      ApplyGate(i, op.request, op.env);
    }
  }

  lemma AppliedInPrefix(i: Install, h: seq<Op>, n: nat, k: nat)
    requires k < n <= |h|
    ensures AppliedAt(i, h[..n], k) <==> AppliedAt(i, h, k)
  {
    assert h[..n][..k] == h[..k];
  }

  lemma LastSetupStays(i: Install, h: seq<Op>, n: nat)
    requires n + 1 == |h| && !Shuts(h[n]) && LastSetupApplied(i, h[..n])
    ensures LastSetupApplied(i, h)
  {
    var init := h[..n];
    var k :| 0 <= k < n && AppliedAt(i, init, k) && forall j | k < j < n :: !Shuts(init[j]);
    AppliedInPrefix(i, h, n, k);
    assert AppliedAt(i, h, k) && forall j | k < j < |h| :: !Shuts(h[j]);
  }

  lemma LastSetupBefore(i: Install, h: seq<Op>, n: nat)
    requires n + 1 == |h| && LastSetupApplied(i, h)
    ensures AppliedAt(i, h, n) || (!Shuts(h[n]) && LastSetupApplied(i, h[..n]))
  {
    var init := h[..n];
    var k :| 0 <= k < |h| && AppliedAt(i, h, k) && forall j | k < j < |h| :: !Shuts(h[j]);
    if k < n {
      AppliedInPrefix(i, h, n, k);
      assert AppliedAt(i, init, k) && forall j | k < j < n :: !Shuts(init[j]);
    }
  }

  lemma AppliedShuts(i: Install, h: seq<Op>, k: nat)
    requires k < |h| && AppliedAt(i, h, k)
    ensures Shuts(h[k])
  {
  }

  lemma LastSetupStep(i: Install, h: seq<Op>, n: nat)
    requires n + 1 == |h|
    ensures LastSetupApplied(i, h) <==> if Shuts(h[n]) then AppliedAt(i, h, n) else LastSetupApplied(i, h[..n])
  {
    if LastSetupApplied(i, h) {
      LastSetupBefore(i, h, n);
      if AppliedAt(i, h, n) {
        AppliedShuts(i, h, n);
      }
    }
    if !Shuts(h[n]) && LastSetupApplied(i, h[..n]) {
      LastSetupStays(i, h, n);
    }
  }

  lemma RestartStep(init: seq<Op>, op: Op)
    ensures LastRestartFailed(init + [op]) <==> if SetsVerified(op) then FailedRestart(op) else LastRestartFailed(init)
  {
    var h, n := init + [op], |init|;
    if FailedRestart(op) {
      assert FailedRestart(h[n]);
    }
    if LastRestartFailed(init) && !SetsVerified(op) {
      var k :| 0 <= k < n && FailedRestart(init[k]) && forall j | k < j < n :: !SetsVerified(init[j]);
      assert FailedRestart(h[k]) && forall j | k < j < |h| :: !SetsVerified(h[j]);
    }
    if LastRestartFailed(h) {
      var k :| 0 <= k < |h| && FailedRestart(h[k]) && forall j | k < j < |h| :: !SetsVerified(h[j]);
      if k < n {
        assert !SetsVerified(h[n]) && FailedRestart(init[k]);
        forall j | k < j < n ensures !SetsVerified(init[j]) {
          assert init[j] == h[j];
        }
      }
    }
  }

  /** Publishing is open exactly when some apply succeeded and no mode choice, test,
      apply or reset that got to its session save, and no save that broke off, came after
      it. A session behind an open gate is ready and configured, and it is verified
      exactly unless the last broker restart since that apply failed. */
  lemma {:induction false} GateIffApplied(i: Install, h: seq<Op>)
    requires i.session == Session(DEFAULT_CORE)
    ensures GateOpen(Run(i, h)) <==> LastSetupApplied(i, h)
    ensures ReadyIsConfigured(Run(i, h)) && NeverDegraded(Run(i, h))
    ensures GateOpen(Run(i, h)) ==> (Run(i, h).session.core.verified <==> !LastRestartFailed(h))
  {
    if h != [] {
      var init, op := h[..|h| - 1], h[|h| - 1];
      GateIffApplied(i, init);
      StepGate(Run(i, init), op);
      LastSetupStep(i, h, |h| - 1);
      RestartStep(init, op);
      assert h == init + [op];
    }
  }

  /** Answers of the surroundings under which nothing fails. */
  const ALL_WELL := ApplyEnv(Saved, false, Persisted, false, Applied, GroupsDone, Saved)

  /** The shortest run to a ready session that is not verified. */
  lemma ReadyUnverified(i: Install, r: ApplyRequest, failure: string) returns (h: seq<Op>)
    requires i.session == Session(DEFAULT_CORE) && Readable(i) && r.ApplyEmbedded?
    ensures var t := Run(i, h);
      GateOpen(t) && t.session.core.setup == Ready && t.session.core.configured && !t.session.core.verified
  {
    var apply, restart := Apply(r, ALL_WELL), RestartBroker(false, failure, Saved);
    h := [apply, restart];
    assert h[..1] == [apply] && [apply][..0] == [];
    assert Run(i, [apply]) == Handle(i, apply).0;
  }

  // ----- The tested-configuration gate --------------------------------------

  /** A test or a reset whose result is saved. */
  predicate SetsTest(op: Op) {
    (op.TestExternal? || op.Reset?) && op.save.Saved?
  }

  /** What such an operation signs off. */
  function SignedOff(op: Op): Option<string> {
    if op.TestExternal? && op.passed then Some(Signature(op.config)) else None
  }

  /** The configuration signed off by the latest saved test since the last saved reset. */
  function LatestTest(h: seq<Op>): Option<string> {
    if h == [] then None
    else if SetsTest(h[|h| - 1]) then SignedOff(h[|h| - 1])
    else LatestTest(h[..|h| - 1])
  }

  /** If the session can be loaded at all, its test result is `test`. */
  predicate Remembers(i: Install, test: Option<string>) {
    i.session.Session? ==>
      i.session.core.testSignature == test && (i.session.core.testOk <==> test.Some?)
  }

  lemma FinishKeepsTest(i: Install, r: ApplyRequest, env: ApplyEnv, test: Option<string>)
    requires Readable(i) && Remembers(i, test)
    ensures Remembers(Finish(i, r, env).0, test) && Remembers(FinishEmbedded(i, r, env).0, test)
  {
  }

  lemma ApplyKeepsTest(i: Install, r: ApplyRequest, env: ApplyEnv, test: Option<string>)
    requires Readable(i) && Remembers(i, test)
    ensures Remembers(HandleApply(i, r, env).0, test)
  {
    var begun := StoreSession(i, Begun(Observe(i), r), env.begin);
    if env.begin.Saved? {
      var kept := Persist(begun, r, env.persist);
      assert Remembers(begun, test) && Remembers(kept, test);
      if Readable(kept) {
        FinishKeepsTest(kept, r, env, test);
      }
    }
  }

  lemma StepTest(i: Install, op: Op, test: Option<string>)
    requires Readable(i) && Remembers(i, test)
    ensures Remembers(Handle(i, op).0, if SetsTest(op) then SignedOff(op) else test)
  {
    if op.Apply? {
      ApplyKeepsTest(i, op.request, op.env, test);
    }
  }

  /** What cannot be loaded stays so until a reset. */
  lemma StepUnreadable(i: Install, op: Op)
    requires !Readable(i) && Readable(Handle(i, op).0)
    ensures op.Reset? && op.save.Saved? && Remembers(Handle(i, op).0, None)
  {
  }

  /** While both files can be loaded, the stored test result is that of the latest saved
      test since the last saved reset. */
  lemma {:induction false} SessionRemembersTest(i: Install, h: seq<Op>)
    requires i.session == Session(DEFAULT_CORE)
    ensures Readable(Run(i, h)) ==> Remembers(Run(i, h), LatestTest(h))
  {
    if h != [] {
      var init, op := h[..|h| - 1], h[|h| - 1];
      SessionRemembersTest(i, init);
      if Readable(Run(i, init)) {
        StepTest(Run(i, init), op, LatestTest(init));
      } else if Readable(Run(i, h)) {
        StepUnreadable(Run(i, init), op);
      }
    }
  }

  /** No step of an external apply fails. */
  predicate GoesThrough(env: ApplyEnv) {
    env.begin.Saved? && !env.checkRaises && env.persist.Persisted? && !env.reloadRaises && env.finish.Saved?
  }

  /** An external apply that does not waive the test succeeds exactly when the latest
      saved test since the last saved reset passed with the same signature, and loading,
      saving and reloading went through; it then stores the very connection it was given.
      One that fails shuts the gate, unless it fails at its very first save. */
  lemma {:induction false} ApplyNeedsTest(i: Install, h: seq<Op>, c: Connection, access: Access, env: ApplyEnv)
    requires i.session == Session(DEFAULT_CORE)
    ensures var before := Run(i, h);
      var r := Handle(before, Apply(ApplyExternal(c, false, access), env));
      && (r.1 <==> Readable(before) && LatestTest(h) == Some(Signature(c)) && GoesThrough(env))
      && (GateOpen(r.0) <==> if env.begin.Refused? then GateOpen(before) else r.1)
      && (r.1 ==> r.0.overrides.Overrides? && r.0.overrides.connection == Some(c))
  {
    var before, r := Run(i, h), ApplyExternal(c, false, access);
    SessionRemembersTest(i, h);
    GateIffApplied(i, h);
    StepGate(before, Apply(r, env));
  }

  lemma {:induction false} LatestTestIsATest(h: seq<Op>, s: string) returns (k: nat)
    requires LatestTest(h) == Some(s)
    ensures k < |h| && SetsTest(h[k]) && h[k].TestExternal? && h[k].passed && Signature(h[k].config) == s
    ensures forall j | k < j < |h| :: !SetsTest(h[j])
  {
    var n := |h| - 1;
    if SetsTest(h[n]) {
      k := n;
    } else {
      k := LatestTestIsATest(h[..n], s);
    }
  }

  // ----- What an apply and a choice leave --------------------------------------

  /** The test lets the request through: it is embedded, waives the test, or is for the
      connection whose test passed. */
  predicate LetThrough(core: Core, r: ApplyRequest) {
    r.ApplyExternal? && !r.allowUnvalidated ==> core.testOk && core.testSignature == Some(Signature(r.config))
  }

  predicate ReadsTest(r: ApplyRequest) {
    r.ApplyExternal? && !r.allowUnvalidated
  }

  /** The apply gets as far as saving the overrides. */
  predicate Configures(i: Install, r: ApplyRequest, env: ApplyEnv) {
    && Readable(i) && env.begin.Saved?
    && LetThrough(i.session.core, r) && (ReadsTest(r) ==> !env.checkRaises)
    && !env.persist.OverridesRefused? && !env.persist.OverridesTorn?
  }

  /** The connection that goes live with a request. */
  predicate GoesLive(o: Overrides, r: ApplyRequest) {
    && o.Overrides? && o.access == Some(r.access) && o.connection.Some?
    && match r
       case ApplyExternal(config, _, _) => o.mode == Some(External) && o.connection == Some(config)
       case ApplyEmbedded(user, pass, _) =>
         && o.mode == Some(Embedded)
         && o.connection == Some(Connection("synthia-addon-mqtt-mosquitto", 1883, false, user, pass))
  }

  /** Exactly when an apply succeeds, from any state; and that it then leaves the mode,
      access mode and connection of its request in both files, a ready session without an
      error, and everything else as it was. */
  lemma {:induction false} ApplyExact(i: Install, r: ApplyRequest, env: ApplyEnv)
    ensures var t := Handle(i, Apply(r, env));
      && (t.1 <==>
            && Configures(i, r, env) && env.persist.Persisted?
            && (r.ApplyEmbedded? ==> env.runtime.Applied? && env.groups.GroupsDone?)
            && !env.reloadRaises && env.finish.Saved?)
      && (t.1 ==>
            && GoesLive(t.0.overrides, r) && t.0.overrides.coreUrl == i.overrides.coreUrl
            && t.0.session.Session?
            && var c := t.0.session.core;
               && (c.mode == Embedded <==> r.ApplyEmbedded?) && Observe(t.0) == c
               && c.setup == Ready && c.configured && c.verified && c.access == r.access && c.lastError == None
               && c.registered == i.session.core.registered
               && c.testOk == i.session.core.testOk && c.testSignature == i.session.core.testSignature)
  {
  }

  /** The failures that an apply reports: the session says `error` with the message, and is
      neither configured nor verified. */
  lemma {:induction false} ApplyReports(i: Install, r: ApplyRequest, env: ApplyEnv, message: string)
    requires Configures(i, r, env) && env.finish.Saved?
    requires
      || (env.persist.SessionRefused? && message == "Failed to persist install config")
      || (env.persist.Persisted? && r.ApplyEmbedded? &&
            (env.runtime == BadValue(message) || (env.runtime.Applied? && env.groups == GroupsBlocked(message))))
      || (env.persist.Persisted? && r.ApplyEmbedded? && env.runtime.Broken? &&
            message == "Failed to apply embedded broker runtime")
    ensures var t := Handle(i, Apply(r, env)).0;
      && GoesLive(t.overrides, r) && t.session.Session?
      && var c := t.session.core;
         && c.setup == Error && !c.configured && !c.verified && c.lastError == Some(message)
         && (c.mode == Embedded <==> r.ApplyEmbedded?) && c.access == r.access
  {
  }

  /** What each other operation leaves of a session it can load and save, field by field. */
  lemma UpdatesExact(i: Install, op: Op)
    requires Readable(i) && !op.Apply? && !op.Reset? && !op.SetCoreUrl? && !op.UpdateConfig?
    requires op.save.Saved? && (op.SetMode? ==> op.overridesSave.Saved?)
    ensures var t, c := Handle(i, op), Observe(i);
      && t.0.session.Session?
      && var d := t.0.session.core;
         match op
         case SetMode(mode, access, _, _) =>
           t.1 && d == Core(mode, Configuring, false, false, c.registered, None, c.testOk, c.testSignature, access)
         case TestExternal(config, passed, reason, _) =>
           && t.1 == passed
           && d == Core(External, Configuring, c.configured, passed, c.registered, if passed then None else reason,
                        passed, if passed then Some(Signature(config)) else None, c.access)
         case RegisterCore(accepted, failure, _) =>
           && t.1 == accepted
           && d == Core(c.mode, c.setup, c.configured, c.verified, accepted,
                        if accepted then None else Some(failure), c.testOk, c.testSignature, c.access)
         case RestartBroker(restarted, failure, _) =>
           && t.1 == restarted
           && d == Core(Embedded, c.setup, c.configured, restarted, c.registered,
                        if restarted then None else Some(failure), c.testOk, c.testSignature, c.access)
         case SaveGroups(_) => t.1 && d == c
  {
  }

  /** What the operations on `config.json` alone leave of it, and that they touch nothing
      else; a save that is refused changes nothing. */
  lemma OverridesExact(i: Install, op: Op)
    requires i.overrides.Overrides? && (op.SetCoreUrl? || op.UpdateConfig?)
    ensures var t := Handle(i, op);
      && t.0.session == i.session && (t.1 <==> op.overridesSave.Saved?)
      && match op.overridesSave
         case Saved =>
           if op.SetCoreUrl?
           then t.0.overrides == Overrides(i.overrides.mode, i.overrides.access, i.overrides.connection, Some(op.url))
           else t.0.overrides == Overrides(i.overrides.mode, i.overrides.access, Some(op.connection),
                                           i.overrides.coreUrl)
         case Refused => t.0 == i
         case Torn => t.0.overrides == Unreadable
  {
  }

  datatype Choice = Choice(mode: Mode, access: Access)

  /** The operation, met in state `i`, saves a choice of mode in the overrides. */
  predicate Chooses(i: Install, op: Op) {
    (op.SetMode? && i.overrides.Overrides? && op.overridesSave.Saved?) ||
    (op.Apply? && Configures(i, op.request, op.env))
  }

  function ChoiceOf(op: Op): Choice
    requires op.SetMode? || op.Apply?
  {
    if op.SetMode? then Choice(op.mode, op.access)
    else Choice(if op.request.ApplyEmbedded? then Embedded else External, op.request.access)
  }

  /** The last choice saved in a history. */
  function LastChoice(i: Install, h: seq<Op>): Option<Choice> {
    if h == [] then None
    else
      var init, op := h[..|h| - 1], h[|h| - 1];
      if Chooses(Run(i, init), op) then Some(ChoiceOf(op)) else LastChoice(i, init)
  }

  /** The overrides hold this choice, or the mode and access mode they started with. */
  predicate HoldsChoice(o: Overrides, choice: Option<Choice>, start: Overrides) {
    o.Overrides? ==>
      if choice.Some? then o.mode == Some(choice.value.mode) && o.access == Some(choice.value.access)
      else start.Overrides? && o.mode == start.mode && o.access == start.access
  }

  lemma {:induction false} StepChoice(i: Install, op: Op, choice: Option<Choice>, start: Overrides)
    requires HoldsChoice(i.overrides, choice, start)
    ensures HoldsChoice(Handle(i, op).0.overrides, if Chooses(i, op) then Some(ChoiceOf(op)) else choice, start)
  {
  }

  /** Over every history, the mode that everyone observes is that of the last mode choice or
      apply that got its overrides saved; without one, that of the overrides found at the
      start, and external if they name none. */
  lemma {:induction false} ModeIsLastChoice(i: Install, h: seq<Op>)
    ensures HoldsChoice(Run(i, h).overrides, LastChoice(i, h), i.overrides)
    ensures Readable(Run(i, h)) ==>
      Observe(Run(i, h)).mode ==
        if LastChoice(i, h).Some? then LastChoice(i, h).value.mode
        else if i.overrides.mode.Some? then i.overrides.mode.value else External
  {
    if h != [] {
      var init, op := h[..|h| - 1], h[|h| - 1];
      ModeIsLastChoice(i, init);
      StepChoice(Run(i, init), op, LastChoice(i, init), i.overrides);
    }
  }

  /** The access mode and the registration flag that a loadable session holds. */
  datatype Standing = Standing(access: Access, registered: bool)

  function AfterOp(i: Install, op: Op, s: Standing): Standing {
    match op
    case Reset(save) => if save.Saved? then Standing(GatewayOnly, false) else s
    case SetMode(_, access, overridesSave, save) =>
      if Readable(i) && overridesSave.Saved? && save.Saved? then s.(access := access) else s
    case Apply(request, env) => if Readable(i) && env.begin.Saved? then s.(access := request.access) else s
    case RegisterCore(accepted, _, save) => if save.Saved? then s.(registered := accepted) else s
    case _ => s
  }

  function StandingAfter(i: Install, h: seq<Op>): Standing {
    if h == [] then Standing(GatewayOnly, false)
    else AfterOp(Run(i, h[..|h| - 1]), h[|h| - 1], StandingAfter(i, h[..|h| - 1]))
  }

  predicate HasStanding(i: Install, s: Standing) {
    i.session.Session? ==> i.session.core.access == s.access && i.session.core.registered == s.registered
  }

  lemma {:induction false} StepStanding(i: Install, op: Op, s: Standing)
    requires Readable(i) && HasStanding(i, s)
    ensures HasStanding(Handle(i, op).0, AfterOp(i, op, s))
  {
  }

  /** While both files can be loaded, the session's access mode is that of the last mode
      choice or apply that reached its first save, and its registration flag the answer of
      the last registration saved, both since the last reset saved. */
  lemma {:induction false} SessionStanding(i: Install, h: seq<Op>)
    requires i.session == Session(DEFAULT_CORE)
    ensures Readable(Run(i, h)) ==> HasStanding(Run(i, h), StandingAfter(i, h))
  {
    if h != [] {
      var init, op := h[..|h| - 1], h[|h| - 1];
      SessionStanding(i, init);
      if Readable(Run(i, init)) {
        StepStanding(Run(i, init), op, StandingAfter(i, init));
      } else if Readable(Run(i, h)) {
        StepUnreadable(Run(i, init), op);
      }
    }
  }

  // ----- What a signature tells ---------------------------------------------

  /** The fields of a signature between its bars. */
  function Fields(c: Connection): seq<string> {
    Split(Trim(c.host), '|') + [Digits(c.port), if c.tls then "1" else "0"]
    + Split(Blank(c.username), '|') + Split(Blank(c.password), '|')
  }

  lemma DigitsPlain(n: nat)
    ensures '|' !in Digits(n) && Split(Digits(n), '|') == [Digits(n)]
  {
    SplitSingle(Digits(n), '|');
  }

  lemma SplitBar(a: string, b: string)
    ensures Split(a + "|" + b, '|') == Split(a, '|') + Split(b, '|')
  {
    SplitAppend(a, '|', b);
    assert a + "|" + b == a + ['|'] + b;
  }

  lemma Regrouped(h: seq<string>, p: string, t: string, u: seq<string>, w: seq<string>)
    ensures h + ([p] + ([t] + (u + w))) == h + [p, t] + u + w
  {
  }

  lemma SignatureSplit(c: Connection)
    ensures Split(Signature(c), '|') == Fields(c)
  {
    var t := if c.tls then "1" else "0";
    DigitsPlain(c.port);
    SplitSingle(t, '|');
    SplitBar(Blank(c.username), Blank(c.password));
    SplitBar(t, Credentials(c));
    SplitBar(Digits(c.port), t + "|" + Credentials(c));
    SplitBar(Trim(c.host), Digits(c.port) + "|" + (t + "|" + Credentials(c)));
    Regrouped(Split(Trim(c.host), '|'), Digits(c.port), t,
              Split(Blank(c.username), '|'), Split(Blank(c.password), '|'));
  }

  lemma SplitInjective(s: string, t: string)
    requires Split(s, '|') == Split(t, '|')
    ensures s == t
  {
    JoinSplit(s, '|');
    JoinSplit(t, '|');
  }

  predicate PlainCredentials(c: Connection) {
    '|' !in Blank(c.username) && '|' !in Blank(c.password)
  }

  predicate IsFlag(s: string) {
    s == "0" || s == "1"
  }

  ghost predicate IsPort(s: string) {
    exists p: Port :: Digits(p) == s
  }

  /** The first `k` fields of the host are a host themselves, and the next two fields
      of the signature a port and a TLS flag; the flag may be the real port. */
  ghost predicate ReadsAt(c: Connection, k: nat) {
    var hs := Split(Trim(c.host), '|');
    && 1 <= k < |hs|
    && Trimmed(Join(hs[..k], '|'))
    && IsPort(hs[k])
    && IsFlag(if k + 1 < |hs| then hs[k + 1] else Digits(c.port))
  }

  /** The host can also be read as a shorter host, a port and a TLS flag. */
  ghost predicate HostReadsOtherwise(c: Connection) {
    exists k: nat :: ReadsAt(c, k)
  }

  ghost predicate Unambiguous(c: Connection) {
    PlainCredentials(c) && !HostReadsOtherwise(c)
  }

  lemma PlainFields(c: Connection)
    requires PlainCredentials(c)
    ensures Fields(c) == Split(Trim(c.host), '|') +
      [Digits(c.port), if c.tls then "1" else "0", Blank(c.username), Blank(c.password)]
  {
    SplitSingle(Blank(c.username), '|');
    SplitSingle(Blank(c.password), '|');
  }

  /** The fields begin with those of the host, a port and a flag. */
  lemma FrontOfFields(c: Connection)
    ensures var f, hs := Fields(c), Split(Trim(c.host), '|');
      && |f| >= |hs| + 4 && f[..|hs|] == hs && (forall i | 0 <= i < |hs| :: f[i] == hs[i])
      && f[|hs|] == Digits(c.port) && f[|hs| + 1] == if c.tls then "1" else "0"
  {
  }

  /** Another connection with the same signature and a shorter host shows up in the
      host's own fields. */
  lemma ShorterHostShows(c: Connection, d: Connection)
    requires Fields(c) == Fields(d)
    requires |Split(Trim(d.host), '|')| < |Split(Trim(c.host), '|')|
    ensures HostReadsOtherwise(c)
  {
    var hs, ds := Split(Trim(c.host), '|'), Split(Trim(d.host), '|');
    var k := |ds|;
    FrontOfFields(c);
    FrontOfFields(d);
    assert hs[..k] == Fields(c)[..k] == Fields(d)[..k] == ds;
    JoinSplit(Trim(d.host), '|');
    assert hs[k] == Fields(c)[k] == Fields(d)[k] == Digits(d.port);
    assert IsFlag(Fields(d)[k + 1]);
    assert k + 1 < |hs| ==> hs[k + 1] == Fields(c)[k + 1];
    assert k + 1 == |hs| ==> Digits(c.port) == Fields(c)[k + 1];
    assert ReadsAt(c, k);
  }

  lemma SameFieldsSame(c: Connection, d: Connection)
    requires Fields(c) == Fields(d) && PlainCredentials(c)
    requires |Split(Trim(d.host), '|')| == |Split(Trim(c.host), '|')|
    ensures Same(c, d)
  {
    PlainFields(c);
    var hs, ds := Split(Trim(c.host), '|'), Split(Trim(d.host), '|');
    var n := |hs|;
    assert hs == Fields(c)[..n] == Fields(d)[..n] == ds;
    SplitInjective(Trim(c.host), Trim(d.host));
    assert Digits(c.port) == Fields(c)[n] == Fields(d)[n] == Digits(d.port);
    DigitsInjective(c.port, d.port);
    assert Fields(c)[n + 1] == Fields(d)[n + 1];
    assert "1"[0] == '1' && "0"[0] == '0';
    var us, ws := Split(Blank(d.username), '|'), Split(Blank(d.password), '|');
    assert |us| + |ws| == 2;
    assert us == [Fields(d)[n + 2]] && ws == [Fields(d)[n + 3]];
    JoinSplit(Blank(d.username), '|');
    JoinSplit(Blank(d.password), '|');
  }

  lemma UnambiguousIsUnique(c: Connection, d: Connection)
    requires Unambiguous(c) && Signature(c) == Signature(d)
    ensures Same(c, d)
  {
    SignatureSplit(c);
    SignatureSplit(d);
    PlainFields(c);
    var n, k := |Split(Trim(c.host), '|')|, |Split(Trim(d.host), '|')|;
    assert |Fields(c)| == n + 4 && |Fields(d)| >= k + 4;
    if k < n {
      ShorterHostShows(c, d);
    } else {
      SameFieldsSame(c, d);
    }
  }

  lemma CutAtBar(s: string) returns (a: string, b: string)
    requires '|' in s
    ensures s == a + "|" + b && |a| < |s| && |b| < |s|
  {
    var k :| 0 <= k < |s| && s[k] == '|';
    a, b := s[..k], s[k + 1..];
  }

  function WithCredentials(c: Connection, user: string, pass: string): Connection {
    c.(username := Some(user), password := Some(pass))
  }

  lemma BarInCredentials(c: Connection) returns (d: Connection)
    requires !PlainCredentials(c)
    ensures Signature(d) == Signature(c) && !Same(c, d)
  {
    var user, pass := Blank(c.username), Blank(c.password);
    if '|' in user {
      var a, b := CutAtBar(user);
      d := WithCredentials(c, a, b + "|" + pass);
      assert a + "|" + (b + "|" + pass) == (a + "|" + b) + "|" + pass;
    } else {
      var a, b := CutAtBar(pass);
      d := WithCredentials(c, user + "|" + a, b);
      assert (user + "|" + a) + "|" + b == user + "|" + (a + "|" + b);
    }
    assert Credentials(d) == Credentials(c);
  }

  lemma FieldsPlain(c: Connection)
    ensures forall x | x in Fields(c) :: '|' !in x
  {
    SignatureSplit(c);
  }

  /** The connection read off the first `k` fields of a host and what follows them. */
  function ReadOff(c: Connection, k: nat, p: Port): Connection
    requires 1 <= k && k + 3 < |Fields(c)|
  {
    var f := Fields(c);
    Connection(Join(f[..k], '|'), p, f[k + 1] == "1", Some(f[k + 2]), Some(Join(f[k + 3..], '|')))
  }

  lemma JoinedFront(parts: seq<string>, k: nat)
    requires 0 < k <= |parts| && forall x | x in parts :: '|' !in x
    ensures Split(Join(parts[..k], '|'), '|') == parts[..k]
  {
    forall x | x in parts[..k] ensures '|' !in x {
      assert x in parts;
    }
    SplitJoin(parts[..k], '|');
  }

  lemma JoinedBack(parts: seq<string>, k: nat)
    requires k < |parts| && forall x | x in parts :: '|' !in x
    ensures Split(Join(parts[k..], '|'), '|') == parts[k..]
  {
    forall x | x in parts[k..] ensures '|' !in x {
      assert x in parts;
    }
    SplitJoin(parts[k..], '|');
  }

  lemma Reassembled(f: seq<string>, k: nat)
    requires k + 3 < |f|
    ensures f == f[..k] + [f[k], f[k + 1]] + [f[k + 2]] + f[k + 3..]
  {
  }

  lemma PlainPart(parts: seq<string>, k: nat)
    requires k < |parts| && forall x | x in parts :: '|' !in x
    ensures Split(parts[k], '|') == [parts[k]]
  {
    assert parts[k] in parts;
    SplitSingle(parts[k], '|');
  }

  lemma ReadOffUser(c: Connection, k: nat, p: Port)
    requires 1 <= k && k + 3 < |Fields(c)|
    ensures Split(Blank(ReadOff(c, k, p).username), '|') == [Fields(c)[k + 2]]
  {
    FieldsPlain(c);
    PlainPart(Fields(c), k + 2);
  }

  lemma ReadOffPassword(c: Connection, k: nat, p: Port)
    requires 1 <= k && k + 3 < |Fields(c)|
    ensures Split(Blank(ReadOff(c, k, p).password), '|') == Fields(c)[k + 3..]
  {
    FieldsPlain(c);
    JoinedBack(Fields(c), k + 3);
  }

  lemma ReadOffHost(c: Connection, k: nat, p: Port)
    requires 1 <= k && k + 3 < |Fields(c)| && Trimmed(Join(Fields(c)[..k], '|'))
    ensures Split(Trim(ReadOff(c, k, p).host), '|') == Fields(c)[..k]
  {
    FieldsPlain(c);
    JoinedFront(Fields(c), k);
  }

  lemma ReadOffFields(c: Connection, k: nat, p: Port)
    requires 1 <= k && k + 3 < |Fields(c)|
    requires Trimmed(Join(Fields(c)[..k], '|')) && Digits(p) == Fields(c)[k] && IsFlag(Fields(c)[k + 1])
    ensures Fields(ReadOff(c, k, p)) == Fields(c)
  {
    ReadOffHost(c, k, p);
    ReadOffUser(c, k, p);
    ReadOffPassword(c, k, p);
    Reassembled(Fields(c), k);
  }

  /** The other reading of an ambiguous host is a connection with the same signature. */
  lemma BarInHost(c: Connection) returns (d: Connection)
    requires HostReadsOtherwise(c)
    ensures Signature(d) == Signature(c) && !Same(c, d)
  {
    var hs, f := Split(Trim(c.host), '|'), Fields(c);
    var k: nat :| ReadsAt(c, k);
    var p: Port :| Digits(p) == hs[k];
    assert f[..k] == hs[..k] && f[k] == hs[k];
    assert f[k + 1] == if k + 1 < |hs| then hs[k + 1] else Digits(c.port);
    d := ReadOff(c, k, p);
    ReadOffHost(c, k, p);
    ReadOffFields(c, k, p);
    SignatureSplit(c);
    SignatureSplit(d);
    SplitInjective(Signature(c), Signature(d));
  }

  /** A signature stands for one connection exactly when username and password contain
      no bar and the host cannot be read as a shorter host, a port and a flag. */
  lemma SignatureUniqueIff(c: Connection)
    ensures (forall d: Connection | Signature(d) == Signature(c) :: Same(c, d)) <==> Unambiguous(c)
  {
    if Unambiguous(c) {
      forall d: Connection | Signature(d) == Signature(c) ensures Same(c, d) {
        UnambiguousIsUnique(c, d);
      }
    } else if PlainCredentials(c) {
      var d := BarInHost(c);
    } else {
      var d := BarInCredentials(c);
    }
  }

  /** Two connections with bar-free hosts and usernames have equal signatures exactly
      when they are the same. */
  lemma SignatureInjective(c: Connection, d: Connection)
    requires '|' !in Trim(c.host) && '|' !in Trim(d.host)
    requires '|' !in Blank(c.username) && '|' !in Blank(d.username)
    ensures Signature(c) == Signature(d) <==> Same(c, d)
  {
    if Signature(c) == Signature(d) {
      SignatureSplit(c);
      SignatureSplit(d);
      SplitSingle(Trim(c.host), '|');
      SplitSingle(Trim(d.host), '|');
      SplitSingle(Blank(c.username), '|');
      SplitSingle(Blank(d.username), '|');
      var f := Fields(c);
      assert Trim(c.host) == f[0] == Fields(d)[0] == Trim(d.host);
      assert Digits(c.port) == f[1] == Fields(d)[1] == Digits(d.port);
      DigitsInjective(c.port, d.port);
      assert f[2] == Fields(d)[2] && "1"[0] == '1' && "0"[0] == '0';
      assert Blank(c.username) == f[3] == Fields(d)[3] == Blank(d.username);
      assert Split(Blank(c.password), '|') == f[4..] == Fields(d)[4..] == Split(Blank(d.password), '|');
      SplitInjective(Blank(c.password), Blank(d.password));
    }
  }

  /** What was tested is what went live: behind every successful external apply that
      did not waive the test stands a passed test of a connection with the same
      signature, with no saved test or reset in between, and it is the same connection
      whenever the applied one is unambiguous. */
  lemma {:induction false} LiveConfigWasTested(i: Install, h: seq<Op>, c: Connection, access: Access,
                                               env: ApplyEnv) returns (k: nat)
    requires i.session == Session(DEFAULT_CORE)
    requires Handle(Run(i, h), Apply(ApplyExternal(c, false, access), env)).1
    ensures k < |h| && h[k].TestExternal? && h[k].passed && Signature(h[k].config) == Signature(c)
    ensures Unambiguous(c) ==> Same(c, h[k].config)
    ensures forall j | k < j < |h| :: !SetsTest(h[j])
  {
    ApplyNeedsTest(i, h, c, access, env);
    k := LatestTestIsATest(h, Signature(c));
    if Unambiguous(c) {
      UnambiguousIsUnique(c, h[k].config);
    }
  }
}
