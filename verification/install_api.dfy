/** The install route handlers, step by step over the configuration store. */
module InstallApi {
  import opened StringLists
  import opened GroupResolver
  import opened InstallWorkflow
  import opened Wrappers
  import CS = ConfigStore
  import DP = DesiredProtocol
  import M = MountedStateStore

  const BROKER := "broker"

  class InstallApi {
    const store: CS.ConfigStore
    const supported: Groups

    constructor (store: CS.ConfigStore, supported: Groups)
      ensures this.store == store && this.supported == supported
    {
      this.store, this.supported := store, supported;
    }

    /** The session update, as far as the workflow looks at it; whether the desired-state
        document can be read at that moment is left open. */
    method Update(change: Core -> Core, save: Save) returns (ok: bool)
      modifies store
      ensures ok <==> Readable(old(store.Install())) && save.Saved?
      ensures store.Install() == if Readable(old(store.Install()))
                                 then StoreSession(old(store.Install()), change(Observe(old(store.Install()))), save)
                                 else old(store.Install())
    {
      var readRaises: bool := *;
      ok := store.UpdateSession(change, save, readRaises);
    }

    method SetMode(mode: Mode, access: Access, overridesSave: Save, save: Save) returns (ok: bool)
      modifies store
      ensures (store.Install(), ok) == Handle(old(store.Install()), Op.SetMode(mode, access, overridesSave, save))
    {
      var readRaises: bool := *;
      ok := store.SetSelectedMode(mode, access, overridesSave, save, readRaises);
    }

    method TestExternal(config: Connection, passed: bool, reason: Option<string>, save: Save) returns (ok: bool)
      modifies store
      ensures (store.Install(), ok) == Handle(old(store.Install()), Op.TestExternal(config, passed, reason, save))
    {
      ok := Update((c: Core) => Tested(c, config, passed, reason), save);
      ok := ok && passed;
    }

    method ResetInstallState(save: Save) returns (ok: bool)
      modifies store
      ensures (store.Install(), ok) == Handle(old(store.Install()), Reset(save))
    {
      ok := store.ResetInstallSessionState(save);
    }

    method RegisterCore(accepted: bool, failure: string, save: Save) returns (ok: bool)
      modifies store
      ensures (store.Install(), ok) == Handle(old(store.Install()), Op.RegisterCore(accepted, failure, save))
    {
      ok := Update((c: Core) => Registered(c, accepted, failure), save);
      ok := ok && accepted;
    }

    /** `restart_broker`: a failed restart withdraws `verified` but leaves the setup state. */
    method RestartBroker(restarted: bool, failure: string, save: Save) returns (ok: bool)
      modifies store
      ensures (store.Install(), ok) == Handle(old(store.Install()), Op.RestartBroker(restarted, failure, save))
    {
      ok := Update((c: Core) => Restarted(c, restarted, failure), save);
      ok := ok && restarted;
    }

    method ReportFailure(mode: Mode, message: string, save: Save)
      modifies store
      ensures store.Install() == Fail(old(store.Install()), mode, message, save)
    {
      var _ := Update((c: Core) => Failed(c, mode, message), save);
    }

    /** Reload and last update of an apply. */
    method FinishApply(r: ApplyRequest, env: ApplyEnv) returns (ok: bool)
      requires Readable(store.Install())
      modifies store
      ensures (store.Install(), ok) == Finish(old(store.Install()), r, env)
    {
      if env.reloadRaises {
        return false;
      }
      ok := Update((c: Core) => MadeReady(c, r), env.finish);
    }

    /** Up to and including `apply_install_config`; `go` says the apply continues. */
    method BeginApply(r: ApplyRequest, env: ApplyEnv) returns (go: bool)
      modifies store
      ensures go <==>
        && Readable(old(store.Install())) && env.begin.Saved?
        && (r.ApplyExternal? && !r.allowUnvalidated ==>
              !env.checkRaises && TestedFor(old(store.session.core), r.config))
        && env.persist.Persisted?
      ensures go ==>
        var begun := StoreSession(old(store.Install()), Begun(Observe(old(store.Install())), r), Saved);
        store.Install() == Persist(begun, r, Persisted)
      ensures !go ==> forall groups ::
        Handle(old(store.Install()), Apply(r, env.(groups := groups))) == (store.Install(), false)
    {
      var begun := Update((c: Core) => Begun(c, r), env.begin);
      if !begun {
        return false;
      }
      if r.ApplyExternal? && !r.allowUnvalidated {
        if env.checkRaises {
          return false;
        }
        var seen := Observe(store.Install());
        if !seen.testOk || seen.testSignature != Some(Signature(r.config)) {
          return false;
        }
      }
      var readRaises: bool := *;
      go := store.ApplyInstallConfig(r, env.persist, readRaises);
      if !go {
        ReportFailure(RequestMode(r), PERSIST_FAILED, env.finish);
      }
    }

    static lemma SelectedKeeps(wanted: seq<string>, supported: Groups)
      ensures forall g | g in wanted && g in supported && g != "" && Text.Trimmed(g) ::
        g in CS.Selected(supported, wanted)
    {
      ResolveIsLeastClosure(supported, Normalized(wanted), supported.Keys);
      forall g | g in wanted && g in supported && g != "" && Text.Trimmed(g)
        ensures g in CS.Selected(supported, wanted)
      {
        assert Text.Trim(g) == g;
        NormalizedItems(wanted, g);
      }
    }

    /** Appending a new group to a clean list asks the resolver for just that; a list that
        is a resolver result without cycles stays the front of what is desired. */
    static lemma AppendedKeepsOrder(requested: seq<string>, extra: string, supported: Groups)
      requires Clean(requested + [extra])
      ensures forall ids | requested == Resolve(supported, ids) && AcyclicFrom(supported, ids) ::
        requested <= CS.Selected(supported, requested + [extra])
    {
      NormalizedClean(requested + [extra]);
      forall ids | requested == Resolve(supported, ids) && AcyclicFrom(supported, ids)
        ensures requested <= CS.Selected(supported, requested + [extra])
      {
        AppendedGroup(supported, ids, extra);
      }
    }

    static lemma BrokerIsPlain()
      ensures BROKER != "" && Text.Trimmed(BROKER)
    {
    }

    /** The desired list `before` has lost no supported group in `after`, and kept its
        order if it came from the resolver without cycles. */
    ghost predicate Extended(before: seq<string>, after: seq<string>) {
      && (forall g | g in before && g in supported :: g in after)
      && (forall ids | before == Resolve(supported, ids) && AcyclicFrom(supported, ids) :: before <= after)
    }

    /** Adds the `broker` group to the desired list unless it is there. A read of the list
        that raises counts as an empty list, and then every other group is dropped. */
    method EnsureBroker(revision: string, env: M.Env, save: Save, faults: CS.AssetFaults, readRaises: bool)
      returns (answer: GroupsAnswer)
      requires Readable(store.Install())
      requires env.temp != store.state.path && env.temp !in store.state.fs.files
      modifies store, store.assets, store.state.fs
      ensures store.overrides == old(store.overrides)
      ensures answer.GroupsTorn? ==> store.session.Damaged?
      ensures !answer.GroupsTorn? ==>
        store.session == old(store.session) || store.session == Session(old(Observe(store.Install())))
      ensures answer.GroupsDone? && BROKER in supported ==> BROKER in store.DesiredOptionalGroups(false)
      ensures answer.GroupsDone? ==>
        Extended(old(store.DesiredOptionalGroups(readRaises)), store.DesiredOptionalGroups(false))
      ensures answer.GroupsDone? && readRaises ==>
        store.DesiredOptionalGroups(false) == CS.Selected(supported, [BROKER])
    {
      var requested := store.DesiredOptionalGroups(readRaises);
      assert Clean(requested);
      if readRaises {
        NoGroupsInNothing();
      }
      if BROKER in requested {
        return GroupsDone;
      }
      var wanted := requested + [BROKER];
      BrokerIsPlain();
      assert Clean(wanted);
      var saved := store.SetRequestedOptionalGroups(wanted, supported, revision, env, save, faults);
      match saved {
        case Done(list) =>
          SelectedKeeps(wanted, supported);
          AppendedKeepsOrder(requested, BROKER, supported);
          return GroupsDone;
        case Blocked =>
          return GroupsBlocked("state mount refused");
        case Raised =>
          return if store.session.Damaged? then GroupsTorn else GroupsRaised;
      }
    }

    lemma NoGroupsInNothing()
      ensures store.DesiredOptionalGroups(true) == []
    {
      DP.NoGroupsAtEmpty();
    }

    /** `apply_install`; `answer` is what adding the broker group came to. */
    method ApplyInstall(r: ApplyRequest, env: ApplyEnv, revision: string, writeEnv: M.Env, save: Save,
                        faults: CS.AssetFaults, readRaises: bool) returns (ok: bool, answer: GroupsAnswer)
      requires writeEnv.temp != store.state.path && writeEnv.temp !in store.state.fs.files
      modifies store, store.assets, store.state.fs
      ensures (store.Install(), ok) == Handle(old(store.Install()), Apply(r, env.(groups := answer)))
      ensures ok && r.ApplyEmbedded? && BROKER in supported ==> BROKER in store.DesiredOptionalGroups(false)
      ensures ok && (r.ApplyExternal? || !readRaises) ==>
        Extended(old(store.DesiredOptionalGroups(false)), store.DesiredOptionalGroups(false))
    {
      answer := GroupsDone;
      ok := false;
      var go := BeginApply(r, env);
      if !go {
        return;
      }
      if r.ApplyExternal? {
        ok := FinishApply(r, env);
        return;
      }
      match env.runtime {
        case BadValue(message) => ReportFailure(Embedded, message, env.finish);
        case Broken => ReportFailure(Embedded, RUNTIME_FAILED, env.finish);
        case NotApplied =>
        case Applied =>
          answer := EnsureBroker(revision, writeEnv, save, faults, readRaises);
          match answer {
            case GroupsBlocked(message) => ReportFailure(Embedded, message, env.finish);
            case GroupsRaised =>
            case GroupsTorn =>
            case GroupsDone => ok := FinishApply(r, env.(groups := GroupsDone));
          }
      }
    }
  }
}
