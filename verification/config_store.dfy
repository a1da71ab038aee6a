/** The configuration store: session file, overrides, asset directories and the
    desired-state document, and the operation that selects optional groups. */
module ConfigStore {
  import opened StringLists
  import opened GroupResolver
  import opened DesiredState
  import opened InstallWorkflow
  import opened Wrappers
  import M = MountedStateStore

  // ----- Asset directories --------------------------------------------------

  datatype Content =
    | GroupJson(id: string, name: string, composeFile: string, setupRequired: bool)
    | Note(text: string)

  /** A directory under `runtime/optional_groups`: its files, and the names of any
      directories inside it. */
  datatype AssetDir = AssetDir(files: map<string, Content>, subdirs: set<string>)

  type Dirs = map<string, AssetDir>

  function DirOf(dirs: Dirs, id: string): AssetDir {
    if id in dirs then dirs[id] else AssetDir(map[], {})
  }

  function GroupFile(id: string, supported: Groups): Content {
    if id in supported
    then GroupJson(id, supported[id].name, supported[id].composeFile, supported[id].setupRequired)
    else GroupJson(id, id, "", false)
  }

  const README := Note("Prepared by addon before supervisor reconcile.\n")

  /** A requested group's directory once prepared; other files in it stay. */
  function Prepared(dirs: Dirs, id: string, supported: Groups): AssetDir {
    var dir := DirOf(dirs, id);
    dir.(files := dir.files["group.json" := GroupFile(id, supported)]
                           ["README.txt" := README])
  }

  /** A prepared directory: its two files as the manifest gives them, the rest as before. */
  predicate HasFiles(before: AssetDir, after: AssetDir, id: string, supported: Groups) {
    && after.subdirs == before.subdirs
    && after.files.Keys == before.files.Keys + {"group.json", "README.txt"}
    && (forall f | f in before.files && f !in {"group.json", "README.txt"} :: after.files[f] == before.files[f])
    && after.files["README.txt"] == Note("Prepared by addon before supervisor reconcile.\n")
    && after.files["group.json"] ==
       if id in supported
       then GroupJson(id, supported[id].name, supported[id].composeFile, supported[id].setupRequired)
       else GroupJson(id, id, "", false)
  }

  lemma PreparedHasFiles(dirs: Dirs, id: string, supported: Groups)
    ensures HasFiles(DirOf(dirs, id), Prepared(dirs, id, supported), id, supported)
  {
  }

  /** What the file system refuses while directories are prepared: making or writing that
      of a group, and emptying or removing one. */
  datatype AssetFaults = AssetFaults(unwritable: set<string>, undeletable: set<string>)

  /** Both files of the group can be written; a directory under one of their names is in
      the way. */
  predicate CanPrepare(dirs: Dirs, id: string, faults: AssetFaults) {
    id !in faults.unwritable && {"group.json", "README.txt"} !! DirOf(dirs, id).subdirs
  }

  predicate CanRemove(dirs: Dirs, id: string, faults: AssetFaults)
    requires id in dirs
  {
    id !in faults.undeletable && dirs[id].subdirs == {}
  }

  ghost predicate AllPreparable(dirs: Dirs, requested: seq<string>, faults: AssetFaults) {
    forall d | d in requested :: CanPrepare(dirs, d, faults)
  }

  /** Every directory that has to go can be removed. */
  ghost predicate OthersRemovable(dirs: Dirs, requested: seq<string>, faults: AssetFaults) {
    forall d | d in dirs && d !in requested :: CanRemove(dirs, d, faults)
  }

  /** The directories once every requested group's is prepared. */
  function AllPrepared(dirs: Dirs, requested: seq<string>, supported: Groups): Dirs {
    map d | d in dirs.Keys + Elements(requested) ::
      if d in requested then Prepared(dirs, d, supported) else dirs[d]
  }

  lemma {:induction false} AllPreparedStep(dirs: Dirs, requested: seq<string>, i: nat, supported: Groups)
    requires i < |requested| && NoDuplicates(requested)
    ensures var before, id := AllPrepared(dirs, requested[..i], supported), requested[i];
      AllPrepared(dirs, requested[..i + 1], supported) == before[id := Prepared(before, id, supported)]
  {
    var before, id := AllPrepared(dirs, requested[..i], supported), requested[i];
    assert id !in requested[..i];
    assert DirOf(before, id) == DirOf(dirs, id);
    assert requested[..i + 1] == requested[..i] + [id];
    assert Elements(requested[..i + 1]) == Elements(requested[..i]) + {id};
  }

  class AssetRoot {
    var dirs: Dirs

    /** What a failure leaves in the group's own directory is not described. */
    method PrepareOne(id: string, supported: Groups, faults: AssetFaults) returns (ok: bool)
      modifies this
      ensures ok <==> CanPrepare(old(dirs), id, faults)
      ensures ok ==> dirs == old(dirs)[id := Prepared(old(dirs), id, supported)]
      ensures dirs - {id} == old(dirs) - {id}
    {
      if id in faults.unwritable {
        return false;
      }
      var dir := DirOf(dirs, id);
      if "group.json" in dir.subdirs {
        return false;
      }
      dir := dir.(files := dir.files["group.json" := GroupFile(id, supported)]);
      dirs := dirs[id := dir];
      if "README.txt" in dir.subdirs {
        return false;
      }
      dirs := dirs[id := dir.(files := dir.files["README.txt" := README])];
      return true;
    }

    /** Prepares the groups in order, up to the first that cannot be. */
    method PrepareRequested(requested: seq<string>, supported: Groups, faults: AssetFaults) returns (ok: bool)
      requires NoDuplicates(requested)
      modifies this
      ensures ok <==> AllPreparable(old(dirs), requested, faults)
      ensures ok ==> dirs == AllPrepared(old(dirs), requested, supported)
      ensures !ok ==> exists i | 0 <= i < |requested| ::
        dirs - {requested[i]} == AllPrepared(old(dirs), requested[..i], supported) - {requested[i]}
    {
      for i := 0 to |requested|
        invariant dirs == AllPrepared(old(dirs), requested[..i], supported)
        invariant forall d | d in requested[..i] :: CanPrepare(old(dirs), d, faults)
      {
        AllPreparedStep(old(dirs), requested, i, supported);
        assert requested[i] !in requested[..i];
        assert DirOf(dirs, requested[i]) == DirOf(old(dirs), requested[i]);
        var done := PrepareOne(requested[i], supported, faults);
        if !done {
          assert requested[i] in requested;
          return false;
        }
        assert requested[..i + 1] == requested[..i] + [requested[i]];
      }
      assert requested[..|requested|] == requested;
      return true;
    }

    /** Removes every directory not requested; stops, having emptied it of files or not,
        at one that cannot be removed. */
    method RemoveOthers(requested: seq<string>, faults: AssetFaults) returns (ok: bool)
      modifies this
      ensures ok <==> OthersRemovable(old(dirs), requested, faults)
      ensures ok ==> dirs.Keys == old(dirs).Keys * Elements(requested)
      ensures forall d | d in old(dirs) && d in requested :: d in dirs && dirs[d] == old(dirs)[d]
      ensures dirs.Keys <= old(dirs).Keys
    {
      var todo := dirs.Keys;
      while todo != {}
        invariant todo <= dirs.Keys <= old(dirs).Keys
        invariant forall d | d in old(dirs) && (d in requested || d in todo) :: d in dirs && dirs[d] == old(dirs)[d]
        invariant forall d | d in dirs :: d in requested || d in todo
        invariant forall d | d in old(dirs) && d !in requested && d !in todo :: CanRemove(old(dirs), d, faults)
        decreases todo
      {
        var name :| name in todo;
        if name !in requested {
          if name in faults.undeletable {
            return false;
          }
          if dirs[name].subdirs != {} {
            dirs := dirs[name := AssetDir(map[], dirs[name].subdirs)];
            return false;
          }
          dirs := dirs - {name};
        }
        todo := todo - {name};
      }
      return true;
    }

    /** `_prepare_optional_group_assets`. */
    method PrepareOptionalGroupAssets(requested: seq<string>, supported: Groups, faults: AssetFaults)
      returns (ok: bool)
      requires NoDuplicates(requested)
      modifies this
      ensures ok <==> AllPreparable(old(dirs), requested, faults) && OthersRemovable(old(dirs), requested, faults)
      ensures ok ==> dirs.Keys == Elements(requested)
      ensures AllPreparable(old(dirs), requested, faults) ==>
        forall d | d in requested :: d in dirs && HasFiles(DirOf(old(dirs), d), dirs[d], d, supported)
    {
      forall d ensures HasFiles(DirOf(old(dirs), d), Prepared(old(dirs), d, supported), d, supported) {
        PreparedHasFiles(old(dirs), d, supported);
      }
      ok := PrepareRequested(requested, supported, faults);
      if !ok {
        return;
      }
      OthersStay(old(dirs), requested, supported, faults);
      ok := RemoveOthers(requested, faults);
    }
  }

  /** Preparing the requested directories does not touch the others. */
  lemma OthersStay(dirs: Dirs, requested: seq<string>, supported: Groups, faults: AssetFaults)
    ensures OthersRemovable(AllPrepared(dirs, requested, supported), requested, faults)
      <==> OthersRemovable(dirs, requested, faults)
  {
    var after := AllPrepared(dirs, requested, supported);
    if OthersRemovable(after, requested, faults) {
      forall d | d in dirs && d !in requested ensures CanRemove(dirs, d, faults) {
        assert CanRemove(after, d, faults);
      }
    }
    if OthersRemovable(dirs, requested, faults) {
      forall d | d in after && d !in requested ensures CanRemove(after, d, faults) {
        assert CanRemove(dirs, d, faults);
      }
    }
  }

  // ----- The store ----------------------------------------------------------

  /** The optional-group lists of `install_state.json`. */
  datatype GroupLists = GroupLists(requested: seq<string>, active: seq<string>, failed: seq<string>)

  function Keep(xs: seq<string>, allowed: set<string>): (r: seq<string>)
    ensures forall x :: x in r <==> x in xs && x in allowed
  {
    if xs == [] then []
    else Keep(xs[..|xs| - 1], allowed) + if xs[|xs| - 1] in allowed then [xs[|xs| - 1]] else []
  }

  method Filter(xs: seq<string>, allowed: set<string>) returns (r: seq<string>)
    ensures r == Keep(xs, allowed)
  {
    r := [];
    for i := 0 to |xs|
      invariant r == Keep(xs[..i], allowed)
    {
      assert xs[..i + 1][..i] == xs[..i];
      if xs[i] in allowed {
        r := r + [xs[i]];
      }
    }
    assert xs[..|xs|] == xs;
  }

  lemma {:induction false} KeepAll(xs: seq<string>, allowed: set<string>)
    requires forall x | x in xs :: x in allowed
    ensures Keep(xs, allowed) == xs
  {
    if xs != [] {
      var init, last := xs[..|xs| - 1], xs[|xs| - 1];
      assert xs == init + [last] && last in xs;
      assert forall x | x in init :: x in xs;
      KeepAll(init, allowed);
    }
  }

  /** What a resolver run over a cleaned request lists is itself clean. */
  lemma ResolvedClean(g: Groups, ids: seq<string>)
    requires Clean(ids)
    ensures Clean(Resolve(g, ids)) && forall x | x in Resolve(g, ids) :: x in g
  {
    var c := set x | x in g && x != "" && Text.Trimmed(x);
    ResolveIsReachability(g, ids);
    ResolveIsLeastClosure(g, ids, c);
    forall x | x in Resolve(g, ids) ensures x in c {
      assert x in Elements(Resolve(g, ids));
    }
  }

  /** The groups a selection request asks for. */
  function Selected(g: Groups, requestedIds: seq<string>): seq<string> {
    Resolve(g, Normalized(requestedIds))
  }

  /** A selection is everything that some item asked for reaches. */
  lemma SelectedIff(g: Groups, requestedIds: seq<string>, x: string)
    ensures x in Selected(g, requestedIds) <==>
      exists item | item in requestedIds :: Text.Trim(item) != "" && Reaches(g, Text.Trim(item), x)
  {
    var ids := Normalized(requestedIds);
    ResolveIsReachability(g, ids);
    if Requested(g, ids, x) {
      var y :| y in ids && Reaches(g, y, x);
      NormalizedItems(requestedIds, y);
      var item :| item in requestedIds && Text.Trim(item) == y;
    }
    if item :| item in requestedIds && Text.Trim(item) != "" && Reaches(g, Text.Trim(item), x) {
      NormalizedItems(requestedIds, Text.Trim(item));
    }
  }

  method Select(requestedIds: seq<string>, supported: Groups) returns (requested: seq<string>)
    ensures requested == Selected(supported, requestedIds) && Clean(requested)
  {
    var normalized := NormalizeStringList(requestedIds);
    var resolved := ResolveRequestedOptionalGroups(supported, normalized);
    ResolvedClean(supported, normalized);
    requested := Filter(resolved, supported.Keys);
    KeepAll(resolved, supported.Keys);
  }

  /** The lists once only the requested groups are spoken of. */
  function Restricted(l: GroupLists, requested: seq<string>): GroupLists {
    GroupLists(requested, Keep(Normalized(l.active), Elements(requested)),
               Keep(Normalized(l.failed), Elements(requested)))
  }

  /** `get_install_session_state` on the lists, over what the document gives. */
  function Observed(l: GroupLists, desired: seq<string>): GroupLists {
    var requested := Normalized(l.requested);
    GroupLists(if requested == [] && desired != [] then desired else requested, Normalized(l.active),
               Normalized(l.failed))
  }

  /** `x` is the trimmed text of an item. */
  ghost predicate Lists(xs: seq<string>, x: string) {
    x != "" && exists item | item in xs :: Text.Trim(item) == x
  }

  /** What the session reports and what a selection keeps of it: the requested groups are
      those of the session, or the desired ones if it names none; a selection restricts
      active and failed groups, each list by itself, to what is requested now. */
  lemma ListsExact(l: GroupLists, desired: seq<string>, requested: seq<string>, x: string)
    ensures var o, r := Observed(l, desired), Restricted(l, requested);
      && (x in o.requested <==> if exists y :: Lists(l.requested, y) then Lists(l.requested, x) else x in desired)
      && (x in o.active <==> Lists(l.active, x)) && (x in o.failed <==> Lists(l.failed, x))
      && r.requested == requested
      && (x in r.active <==> Lists(l.active, x) && x in requested)
      && (x in r.failed <==> Lists(l.failed, x) && x in requested)
  {
    NormalizedItems(l.requested, x);
    NormalizedItems(l.active, x);
    NormalizedItems(l.failed, x);
    if Normalized(l.requested) != [] {
      var y := Normalized(l.requested)[0];
      assert y in Normalized(l.requested);
      NormalizedItems(l.requested, y);
      assert Lists(l.requested, y);
    }
    if y :| Lists(l.requested, y) {
      NormalizedItems(l.requested, y);
    }
  }

  datatype Selection = Done(requested: seq<string>) | Blocked | Raised

  /** What became of setting the core URL: stored, refused as blank, refused by the
      state mount, or any other exception. */
  datatype UrlAnswer = UrlStored | UrlBlank | UrlBlocked | UrlRaised

  /** `str(x or "").strip()`; `str` gives the text of lists and objects. */
  function TextOf(j: Json, str: Json -> string): string {
    if !Truthy(j) then "" else Text.Trim(if j.Atom? then j.text else str(j))
  }

  class ConfigStore {
    const state: M.StateStore
    const assets: AssetRoot
    var overrides: Overrides
    var session: Session
    var lists: GroupLists

    constructor (state: M.StateStore, assets: AssetRoot, overrides: Overrides)
      ensures this.state == state && this.assets == assets
      ensures Install() == InstallWorkflow.Install.Install(overrides, Session(DEFAULT_CORE))
      ensures lists == GroupLists([], [], [])
    {
      this.state, this.assets, this.overrides := state, assets, overrides;
      session, lists := Session(DEFAULT_CORE), GroupLists([], [], []);
    }

    function Install(): Install
      reads this
    {
      InstallWorkflow.Install.Install(overrides, session)
    }

    /** `get_desired_optional_groups`; a read that raises finds none. */
    function DesiredOptionalGroups(readRaises: bool): seq<string>
      reads state.fs
    {
      DesiredGroups(state.ReadDesired(readRaises))
    }

    /** The group lists `get_install_session_state` reports. */
    function ObservedLists(readRaises: bool): GroupLists
      reads this, state.fs
    {
      Observed(lists, DesiredOptionalGroups(readRaises))
    }

    /** `get_core_base_url`: the overrides win over the document, and both over the
        environment; it raises when the overrides cannot be loaded. */
    function CoreBaseUrl(environment: string, readRaises: bool, str: Json -> string): (r: Option<string>)
      reads this, state.fs
      ensures r.None? <==> overrides.Unreadable?
      ensures r.Some? && overrides.coreUrl.Some? && Text.Trim(overrides.coreUrl.value) != "" ==>
        r.value == Text.Trim(overrides.coreUrl.value)
      ensures r.Some? && overrides.coreUrl.None? ==>
        var j := CoreUrl(state.ReadDesired(readRaises));
        r.value == if j.Atom? && j.truthy && Text.Trim(j.text) != "" then Text.Trim(j.text)
                   else if j.Null? || j.Atom? || Text.Trim(str(j)) == "" || !Truthy(j) then environment
                   else Text.Trim(str(j))
    {
      if overrides.Unreadable? then None
      else
        var stored := if overrides.coreUrl.Some? then Text.Trim(overrides.coreUrl.value) else "";
        var desired := TextOf(CoreUrl(state.ReadDesired(readRaises)), str);
        Some(if stored != "" then stored else if desired != "" then desired else environment)
    }

    /** `_save_install_session_state`. */
    method SaveSession(core: Core, wanted: GroupLists, save: Save) returns (ok: bool)
      modifies this`session, this`lists
      ensures ok == save.Saved?
      ensures Install() == StoreSession(old(Install()), core, save)
      ensures lists == if ok then wanted else old(lists)
    {
      match save {
        case Refused => return false;
        case Torn =>
          session := Damaged;
          return false;
        case Saved =>
          session, lists := Session(core), wanted;
          return true;
      }
    }

    /** `update_install_session_state` on the keys in `change`; it raises when a file
        cannot be loaded or the session cannot be saved. */
    method UpdateSession(change: Core -> Core, save: Save, readRaises: bool) returns (ok: bool)
      modifies this`session, this`lists
      ensures ok <==> Readable(old(Install())) && save.Saved?
      ensures Install() == if Readable(old(Install()))
                           then StoreSession(old(Install()), change(Observe(old(Install()))), save)
                           else old(Install())
      ensures lists == if ok then old(ObservedLists(readRaises)) else old(lists)
    {
      if overrides.Unreadable? || session.Damaged? {
        return false;
      }
      ok := SaveSession(change(Observe(Install())), ObservedLists(readRaises), save);
    }

    /** `_save_overrides`; opening the file for writing empties it. */
    method SaveOverrides(wanted: Overrides, save: Save) returns (ok: bool)
      modifies this`overrides
      ensures overrides == AfterSave(old(overrides), wanted, save) && (ok <==> save.Saved?)
    {
      match save {
        case Refused => return false;
        case Torn =>
          overrides := Unreadable;
          return false;
        case Saved =>
          overrides := wanted;
          return true;
      }
    }

    method SetSelectedMode(mode: Mode, access: Access, overridesSave: Save, save: Save, readRaises: bool)
      returns (ok: bool)
      modifies this
      ensures (Install(), ok) == Handle(old(Install()), SetMode(mode, access, overridesSave, save))
      ensures lists == if ok then old(ObservedLists(readRaises)) else old(lists)
    {
      if overrides.Unreadable? {
        return false;
      }
      ok := SaveOverrides(overrides.(mode := Some(mode), access := Some(access)), overridesSave);
      if ok {
        ok := UpdateSession((c: Core) => Chosen(c, mode, access), save, readRaises);
      }
    }

    method ResetInstallSessionState(save: Save) returns (ok: bool)
      modifies this
      ensures (Install(), ok) == Handle(old(Install()), Reset(save))
      ensures lists == if ok then GroupLists([], [], []) else old(lists)
    {
      ok := SaveSession(DEFAULT_CORE, GroupLists([], [], []), save);
    }

    /** `apply_install_config`: how far it gets for each answer of the file system. */
    method ApplyInstallConfig(r: ApplyRequest, persist: PersistAnswer, readRaises: bool) returns (ok: bool)
      requires Readable(Install())
      modifies this
      ensures ok == persist.Persisted?
      ensures Install() == Persist(old(Install()), r, persist)
      ensures lists == if ok then old(ObservedLists(readRaises)) else old(lists)
    {
      var overridesSave := match persist
        case OverridesRefused => Refused
        case OverridesTorn => Torn
        case _ => Saved;
      ok := SaveOverrides(Overridden(overrides, r), overridesSave);
      if !ok {
        return;
      }
      var save := match persist
        case SessionRefused => Refused
        case SessionTorn => Torn
        case _ => Saved;
      ok := UpdateSession((c: Core) => Configured(c, r), save, readRaises);
    }

    /** `_write_desired_optional_groups`. */
    method WriteGroups(requested: seq<string>, revision: string, env: M.Env) returns (r: M.Outcome)
      requires Clean(requested)
      requires env.temp != state.path && env.temp !in state.fs.files
      modifies state.fs
      ensures (r.Updated? <==> M.Succeeds(env)) && (r.Blocked? <==> env.blocked)
      ensures r.Updated? ==> DesiredOptionalGroups(false) == requested
      ensures !M.Starts(env) ==> state.fs.files == old(state.fs.files)
      ensures state.fs.files - {state.path, env.temp} == old(state.fs.files) - {state.path, env.temp}
    {
      r := state.UpdateDesired(Mutator.SetGroups(requested, revision), env);
      GroupsRoundTrip(old(state.ReadDesired(env.readRaises)), requested, revision);
      NormalizedClean(requested);
    }

    /** The document part of `set_core_base_url`. */
    method WriteCoreUrl(url: string, revision: string, env: M.Env) returns (r: M.Outcome)
      requires env.temp != state.path && env.temp !in state.fs.files
      modifies state.fs
      ensures (r.Updated? <==> M.Succeeds(env)) && (r.Blocked? <==> env.blocked)
      ensures r.Updated? ==> CoreUrl(state.ReadDesired(false)) == Atom(url, true)
      ensures r.Updated? ==> DesiredOptionalGroups(false) == old(DesiredOptionalGroups(env.readRaises))
      ensures !M.Starts(env) ==> state.fs.files == old(state.fs.files)
      ensures state.fs.files - {state.path, env.temp} == old(state.fs.files) - {state.path, env.temp}
    {
      r := state.UpdateDesired(Mutator.SetCoreUrl(url, revision), env);
      CoreUrlRoundTrip(old(state.ReadDesired(env.readRaises)), url, revision);
    }

    /** What `set_requested_optional_groups` does once the directories are prepared:
        document, then session. The document keeps the selection even when the session
        cannot be saved after it. */
    method SaveSelection(requested: seq<string>, revision: string, env: M.Env, save: Save) returns (r: Selection)
      requires Clean(requested)
      requires env.temp != state.path && env.temp !in state.fs.files
      modifies this, state.fs
      ensures var written := Readable(old(Install())) && M.Succeeds(env);
        && (r.Done? <==> written && save.Saved?)
        && (r.Blocked? <==> Readable(old(Install())) && env.blocked)
        && (written ==> DesiredOptionalGroups(false) == requested)
        && Install() == if written then StoreSession(old(Install()), Observe(old(Install())), save) else old(Install())
      ensures r.Done? ==> r.requested == requested && lists == Restricted(old(lists), requested)
      ensures !r.Done? ==> lists == old(lists)
      ensures !Readable(old(Install())) || !M.Starts(env) ==> state.fs.files == old(state.fs.files)
      ensures state.fs.files - {state.path, env.temp} == old(state.fs.files) - {state.path, env.temp}
    {
      if overrides.Unreadable? || session.Damaged? {
        return Raised;
      }
      var active := Filter(Normalized(lists.active), Elements(requested));
      var failed := Filter(Normalized(lists.failed), Elements(requested));
      var written := WriteGroups(requested, revision, env);
      if !written.Updated? {
        return if written.Blocked? then Blocked else Raised;
      }
      var ok := SaveSession(Observe(Install()), GroupLists(requested, active, failed), save);
      return if ok then Done(requested) else Raised;
    }

    /** `set_requested_optional_groups`. On success the three mirrors read back as the
        resolved list, the asset directories are exactly its groups, and the session
        speaks of no other group. When the state mount refuses, the document and the
        session are untouched, but the directories already follow the request. */
    method SetRequestedOptionalGroups(requestedIds: seq<string>, supported: Groups, revision: string, env: M.Env,
                                      save: Save, faults: AssetFaults) returns (r: Selection)
      requires env.temp != state.path && env.temp !in state.fs.files
      modifies this, assets, state.fs
      ensures var wanted := Selected(supported, requestedIds);
        var dirs := old(assets.dirs);
        var prepared := AllPreparable(dirs, wanted, faults) && OthersRemovable(dirs, wanted, faults);
        var written := prepared && Readable(old(Install())) && M.Succeeds(env);
        && (r.Done? <==> written && save.Saved?)
        && (r.Blocked? <==> prepared && Readable(old(Install())) && env.blocked)
        && (r.Done? ==> r.requested == wanted)
        && (written ==> DesiredOptionalGroups(false) == wanted)
        && (prepared ==> assets.dirs.Keys == Elements(wanted))
        && Install() == if written then StoreSession(old(Install()), Observe(old(Install())), save) else old(Install())
      ensures r.Done? ==> lists == Restricted(old(lists), r.requested)
      ensures !r.Done? ==> lists == old(lists)
      ensures r.Blocked? ==> state.fs.files == old(state.fs.files)
      ensures state.fs.files - {state.path, env.temp} == old(state.fs.files) - {state.path, env.temp}
    {
      var requested := Select(requestedIds, supported);
      var prepared := assets.PrepareOptionalGroupAssets(requested, supported, faults);
      if !prepared {
        return Raised;
      }
      r := SaveSelection(requested, revision, env, save);
    }

    /** `set_core_base_url`: the overrides first, then the document. Once the overrides
        are saved the URL is in force, even when the state mount refuses; the desired
        groups stay, unless the read under the lock raised, when they are lost. */
    method SetCoreBaseUrl(url: string, revision: string, save: Save, env: M.Env) returns (r: UrlAnswer)
      requires env.temp != state.path && env.temp !in state.fs.files
      modifies this`overrides, state.fs
      ensures Install() == if Text.Trim(url) == "" then old(Install())
                           else Handle(old(Install()), Op.SetCoreUrl(Text.Trim(url), save)).0
      ensures r.UrlBlank? <==> Text.Trim(url) == ""
      ensures var reached := Text.Trim(url) != "" && old(overrides).Overrides? && save.Saved?;
        && (r.UrlStored? <==> reached && M.Succeeds(env))
        && (r.UrlBlocked? <==> reached && env.blocked)
        && (!reached || env.blocked ==> state.fs.files == old(state.fs.files))
        && (reached ==> forall environment, raises, str ::
              CoreBaseUrl(environment, raises, str) == Some(Text.Trim(url)))
      ensures r.UrlStored? ==> CoreUrl(state.ReadDesired(false)) == Atom(Text.Trim(url), true)
      ensures r.UrlStored? ==> DesiredOptionalGroups(false) == old(DesiredOptionalGroups(env.readRaises))
      ensures state.fs.files - {state.path, env.temp} == old(state.fs.files) - {state.path, env.temp}
    {
      var normalized := Text.Trim(url);
      if normalized == "" {
        return UrlBlank;
      }
      if overrides.Unreadable? {
        return UrlRaised;
      }
      var ok := SaveOverrides(overrides.(coreUrl := Some(normalized)), save);
      if !ok {
        return UrlRaised;
      }
      var written := WriteCoreUrl(normalized, revision, env);
      return match written
        case Updated(_) => UrlStored
        case Blocked => UrlBlocked
        case Raised => UrlRaised;
    }
  }
}
