/** Registrations: the stored permissions of each addon, and the direct-access
    credentials whose version counts reprovisions. */
module RegistrationStore {
  import opened Text
  import opened TopicPermissions
  import opened Wrappers
  import StringLists

  datatype AccessMode = GatewayOnly | DirectMqtt | Both
  datatype HaMode = NoHa | GatewayManaged | DirectAllowed

  /** `manualUsername` is the text of `manual_direct_mqtt["username"]`, blank if absent. */
  datatype Request = Request(
    addonId: string, access: AccessMode, publishTopics: seq<string>, subscribeTopics: seq<string>,
    manualUsername: string, reprovision: bool, haMode: HaMode)

  datatype Credential = Credential(username: string, password: string)

  /** `version` is the stored `credential_meta`, absent when the record has none. */
  datatype Record = Record(
    addonId: string, access: AccessMode, permissions: Permissions,
    manualUsername: Option<string>, direct: Option<Credential>, version: Option<nat>, haMode: HaMode)

  /** The keyed digest that passwords are cut from: seed and text to password. */
  type Digest = (string, string) -> string

  function CredentialText(addonId: string, version: nat): string {
    addonId + ":" + Digits(version)
  }

  function CredentialFor(digest: Digest, seed: string, addonId: string, version: nat): Credential {
    Credential("addon_" + addonId + "_mqtt", digest(seed, CredentialText(addonId, version)))
  }

  datatype Registry = Registry(records: map<string, Record>, seed: Option<string>)

  const NO_REGISTRATIONS := Registry(map[], None)

  /** The ACL file or note written after the save: done, refused with a `ValueError`
      (as for an id that is no file name), or failed otherwise (as for an id that
      names a directory that is not there). */
  datatype Note = NoteWritten | NoteInvalid | NoteFailed

  /** One call of `upsert`, with what its surroundings answer: whether reading the stored
      registrations raises, which counts as finding none; the random seed drawn if none
      is stored; what became of saving the registrations, and then of the note. */
  datatype Upsert = Upsert(
    request: Request, embedded: bool, misread: bool, freshSeed: string, save: Save, note: Note)

  /** How a call of `upsert` ends. Whatever becomes of the note, the record is stored. */
  datatype Answer = Stored(record: Record) | Rejected | Unsaved | StoredThenRaised(note: Note)

  function Id(u: Upsert): string {
    Trim(u.request.addonId)
  }

  function Scopes(u: Upsert): Option<Permissions> {
    Realized(Id(u), u.request.publishTopics, u.request.subscribeTopics)
  }

  predicate WantsDirect(u: Upsert) {
    u.request.access.DirectMqtt? || u.request.access.Both?
  }

  /** The upsert hands out managed credentials. */
  predicate Issues(u: Upsert) {
    WantsDirect(u) && u.embedded
  }

  /** The request is one that `upsert` accepts. */
  predicate Acceptable(u: Upsert) {
    Scopes(u).Some? && (WantsDirect(u) && !u.embedded ==> Trim(u.request.manualUsername) != "")
  }

  function StoredVersion(r: Registry, id: string): Option<nat> {
    if id in r.records then r.records[id].version else None
  }

  function NextVersion(stored: Option<nat>, reprovision: bool): nat {
    (if stored.Some? then stored.value else 1) + if reprovision then 1 else 0
  }

  /** The upsert stores its record. */
  predicate Stores(u: Upsert) {
    Acceptable(u) && u.save.Saved?
  }

  /** The upsert loses the records of all other addons: it could not read them but
      saved, or its save broke off. */
  predicate Wipes(u: Upsert) {
    Acceptable(u) && (u.save.Torn? || (u.save.Saved? && u.misread))
  }

  function SeedAfter(r: Registry, u: Upsert): string {
    if r.seed.Some? then r.seed.value else u.freshSeed
  }

  /** `_load_all`: what a call sees of the stored registrations. */
  function Seen(r: Registry, misread: bool): Registry {
    if misread then r.(records := map[]) else r
  }

  /** The registry after one upsert. The seed is made before the registrations are saved,
      and a save that breaks off leaves a file that loads as empty. */
  function After(digest: Digest, r: Registry, u: Upsert): Registry {
    if !Acceptable(u) then r
    else
      var wanted := Wanted(digest, Seen(r, u.misread), u);
      match u.save
      case Saved => wanted
      case Refused => r.(seed := wanted.seed)
      case Torn => Registry(map[], wanted.seed)
  }

  /** What an acceptable upsert saves. */
  function Wanted(digest: Digest, r: Registry, u: Upsert): Registry
    requires Acceptable(u)
  {
    var id, scopes := Id(u), Scopes(u).value;
    if Issues(u) then
      var version, seed := NextVersion(StoredVersion(r, id), u.request.reprovision), SeedAfter(r, u);
      var record := Record(id, u.request.access, scopes, None,
                           Some(CredentialFor(digest, seed, id, version)), Some(version), u.request.haMode);
      Registry(r.records[id := record], Some(seed))
    else
      var manual := if WantsDirect(u) then Some(Trim(u.request.manualUsername)) else None;
      r.(records := r.records[id := Record(id, u.request.access, scopes, manual, None, None, u.request.haMode)])
  }

  function Fold(digest: Digest, h: seq<Upsert>): Registry {
    if h == [] then NO_REGISTRATIONS else After(digest, Fold(digest, h[..|h| - 1]), h[|h| - 1])
  }

  class Store {
    const digest: Digest
    var records: map<string, Record>
    var seed: Option<string>

    constructor (digest: Digest)
      ensures this.digest == digest && State() == NO_REGISTRATIONS
    {
      this.digest := digest;
      records, seed := map[], None;
    }

    function State(): Registry
      reads this
    {
      Registry(records, seed)
    }

    method LoadOrCreateSeed(freshSeed: string) returns (s: string)
      modifies this`seed
      ensures seed == Some(s)
      ensures s == if old(seed).Some? then old(seed).value else freshSeed
    {
      if seed.None? {
        seed := Some(freshSeed);
      }
      s := seed.value;
    }

    method IssueDirectCredentials(addonId: string, reprovision: bool, existing: Option<nat>, freshSeed: string)
      returns (credential: Credential, version: nat)
      modifies this`seed
      ensures seed == Some(if old(seed).Some? then old(seed).value else freshSeed)
      ensures version == NextVersion(existing, reprovision)
      ensures credential == CredentialFor(digest, seed.value, addonId, version)
      ensures credential.username == "addon_" + addonId + "_mqtt"
      ensures credential.password == digest(seed.value, addonId + ":" + Digits(version))
    {
      var s := LoadOrCreateSeed(freshSeed);
      var current := if existing.Some? then existing.value else 1;
      version := if reprovision then current + 1 else current;
      credential := CredentialFor(digest, s, addonId, version);
    }

    /** `_save_all`; a save that breaks off leaves a file that loads as empty. */
    method SaveAll(wanted: map<string, Record>, save: Save) returns (ok: bool)
      modifies this`records
      ensures ok == save.Saved?
      ensures records == match save case Saved => wanted case Refused => old(records) case Torn => map[]
    {
      match save {
        case Refused => return false;
        case Torn =>
          records := map[];
          return false;
        case Saved =>
          records := wanted;
          return true;
      }
    }

    /** The record is saved before the ACL file or note is written, so the caller may see
        an error for a registration that is in force. */
    method UpsertRegistration(u: Upsert) returns (r: Answer)
      modifies this
      ensures State() == After(digest, old(State()), u)
      ensures r.Rejected? <==> !Acceptable(u)
      ensures r.Unsaved? <==> Acceptable(u) && !u.save.Saved?
      ensures r.Stored? <==> Stores(u) && u.note.NoteWritten?
      ensures Stores(u) ==> Id(u) in records && (r.Stored? ==> records[Id(u)] == r.record)
      ensures r.StoredThenRaised? ==> r.note == u.note != NoteWritten
    {
      var data := if u.misread then map[] else records;
      var addonId := Trim(u.request.addonId);
      var realized := RealizeTopicPermissions(addonId, u.request.publishTopics, u.request.subscribeTopics);
      if realized.None? {
        return Rejected;
      }
      var record := Record(addonId, u.request.access, realized.value, None, None, None, u.request.haMode);
      if u.request.access.DirectMqtt? || u.request.access.Both? {
        if u.embedded {
          var existing := if addonId in data then data[addonId].version else None;
          var credential, version :=
            IssueDirectCredentials(addonId, u.request.reprovision, existing, u.freshSeed);
          record := record.(direct := Some(credential), version := Some(version));
        } else {
          var username := Trim(u.request.manualUsername);
          if username == "" {
            return Rejected;
          }
          record := record.(manualUsername := Some(username));
        }
      }
      var ok := SaveAll(data[addonId := record], u.save);
      if !ok {
        return Unsaved;
      }
      return if u.note.NoteWritten? then Stored(record) else StoredThenRaised(u.note);
    }

    /** `get_registration`; a read that raises finds nothing. */
    function GetRegistration(addonId: string, misread: bool): Option<Record>
      reads this
    {
      var id := Trim(addonId);
      if !misread && id in records then Some(records[id]) else None
    }
  }

  // ----- What the store always satisfies ------------------------------------

  ghost predicate WellFormed(digest: Digest, r: Registry) {
    forall id | id in r.records ::
      var record := r.records[id];
      && id != "" && Trimmed(id) && record.addonId == id
      && (forall s | s in record.permissions.publish :: PublishScopeOk(s, id))
      && (record.version.Some? <==> record.direct.Some?)
      && (record.version.Some? ==>
            r.seed.Some? && record.direct.value == CredentialFor(digest, r.seed.value, id, record.version.value))
  }

  lemma AfterWellFormed(digest: Digest, r: Registry, u: Upsert)
    requires WellFormed(digest, r)
    ensures WellFormed(digest, After(digest, r, u))
    ensures r.seed.Some? ==> After(digest, r, u).seed == r.seed
  {
  }

  lemma {:induction false} FoldWellFormed(digest: Digest, h: seq<Upsert>)
    ensures WellFormed(digest, Fold(digest, h))
  {
    if h != [] {
      FoldWellFormed(digest, h[..|h| - 1]);
      AfterWellFormed(digest, Fold(digest, h[..|h| - 1]), h[|h| - 1]);
    }
  }

  lemma FoldStep(digest: Digest, h: seq<Upsert>, u: Upsert)
    ensures Fold(digest, h + [u]) == After(digest, Fold(digest, h), u)
  {
    assert (h + [u])[..|h|] == h;
  }

  lemma SnocSplit(h: seq<Upsert>, more: seq<Upsert>)
    requires more != []
    ensures h + more == (h + more[..|more| - 1]) + [more[|more| - 1]]
  {
  }

  lemma FoldAppend(digest: Digest, h: seq<Upsert>, more: seq<Upsert>)
    requires more != []
    ensures Fold(digest, h + more) == After(digest, Fold(digest, h + more[..|more| - 1]), more[|more| - 1])
  {
    SnocSplit(h, more);
    FoldStep(digest, h + more[..|more| - 1], more[|more| - 1]);
  }

  lemma SeedStep(digest: Digest, r: Registry, u: Upsert)
    requires r.seed.Some?
    ensures After(digest, r, u).seed == r.seed
  {
  }

  lemma {:induction false} SeedStays(digest: Digest, h: seq<Upsert>, more: seq<Upsert>)
    requires Fold(digest, h).seed.Some?
    ensures Fold(digest, h + more).seed == Fold(digest, h).seed
    decreases |more|
  {
    if more == [] {
      assert h + more == h;
    } else {
      var init, u := more[..|more| - 1], more[|more| - 1];
      SeedStays(digest, h, init);
      FoldAppend(digest, h, more);
      SeedStep(digest, Fold(digest, h + init), u);
    }
  }

  // ----- What is registered is what was asked for ------------------------------

  predicate AsksDirect(u: Upsert) {
    u.request.access == DirectMqtt || u.request.access == Both
  }

  /** Which requests are acceptable: the scopes are, and direct access to a broker of
      somebody else's comes with a user name. */
  lemma AcceptableIff(u: Upsert)
    ensures var id, q := Trim(u.request.addonId), u.request;
      Acceptable(u) <==>
        && id != ""
        && (forall x | x in q.publishTopics :: Trim(x) == "" || BelowPrefix(Trim(x), id))
        && (forall x | x in q.subscribeTopics :: Trim(x) == "" || BelowPrefix(Trim(x), id) || IsReserved(Trim(x)))
        && (AsksDirect(u) && !u.embedded ==> Trim(q.manualUsername) != "")
  {
    assert Trim(Trim(u.request.addonId)) == Trim(u.request.addonId);
    RealizedIff(Id(u), u.request.publishTopics, u.request.subscribeTopics);
  }

  /** The record is the one that the upsert asked for. */
  ghost predicate AskedFor(record: Record, u: Upsert) {
    var q := u.request;
    && record.addonId == Trim(q.addonId) && record.access == q.access && record.haMode == q.haMode
    && record.permissions.publish == StringLists.Normalized(q.publishTopics)
    && record.permissions.subscribe == StringLists.Normalized(q.subscribeTopics)
    && record.manualUsername == (if AsksDirect(u) && !u.embedded then Some(Trim(q.manualUsername)) else None)
    && (record.direct.Some? <==> AsksDirect(u) && u.embedded)
  }

  /** The upsert stores a record for `id`. */
  predicate StoresFor(u: Upsert, id: string) {
    Trim(u.request.addonId) == id && Stores(u)
  }

  /** The upsert ends what an earlier one stored for `id`. */
  predicate Replaces(u: Upsert, id: string) {
    Wipes(u) || StoresFor(u, id)
  }

  /** Upsert `k` is the last word on `id`: it stored a record for it, and none did since
      nor were the records lost. */
  ghost predicate LastWord(h: seq<Upsert>, id: string, k: nat) {
    k < |h| && StoresFor(h[k], id) && forall j | k < j < |h| :: !Replaces(h[j], id)
  }

  lemma LastWordStep(init: seq<Upsert>, u: Upsert, id: string, k: nat)
    ensures LastWord(init + [u], id, k) <==>
      if StoresFor(u, id) then k == |init| else LastWord(init, id, k) && !Wipes(u)
  {
    var h := init + [u];
    if LastWord(h, id, k) && k < |init| {
      assert !Replaces(h[|init|], id) && StoresFor(init[k], id);
      forall j | k < j < |init| ensures !Replaces(init[j], id) {
        assert init[j] == h[j];
      }
    }
    if LastWord(init, id, k) && !Replaces(u, id) {
      assert StoresFor(h[k], id);
    }
  }

  lemma StoredAsAsked(digest: Digest, r: Registry, u: Upsert)
    requires Stores(u)
    ensures var after := After(digest, r, u).records;
      Trim(u.request.addonId) in after && AskedFor(after[Trim(u.request.addonId)], u)
  {
    assert Trim(Trim(u.request.addonId)) == Trim(u.request.addonId);
  }

  /** `id` is among the records exactly if some upsert is the last word on it, and then as
      that upsert asked. */
  ghost predicate AsAsked(records: map<string, Record>, h: seq<Upsert>, id: string) {
    && (id in records <==> exists k :: LastWord(h, id, k))
    && (forall k: nat | LastWord(h, id, k) :: id in records && AskedFor(records[id], h[k]))
  }

  lemma AsAskedByLast(after: map<string, Record>, init: seq<Upsert>, u: Upsert, id: string)
    requires StoresFor(u, id) && id in after && AskedFor(after[id], u)
    ensures AsAsked(after, init + [u], id)
  {
    NewLastWord(init, u, id);
    assert LastWord(init + [u], id, |init|);
  }

  lemma AsAskedStill(records: map<string, Record>, after: map<string, Record>, init: seq<Upsert>, u: Upsert,
                     id: string)
    requires AsAsked(records, init, id) && !StoresFor(u, id)
    requires (id in after <==> id in records && !Wipes(u)) && (id in after ==> after[id] == records[id])
    ensures AsAsked(after, init + [u], id)
  {
    OldLastWord(init, u, id);
    if id in after {
      var k :| LastWord(init, id, k);
      assert LastWord(init + [u], id, k);
    }
    forall k: nat | LastWord(init + [u], id, k) ensures id in after && AskedFor(after[id], (init + [u])[k]) {
      assert LastWord(init, id, k) && (init + [u])[k] == init[k];
    }
  }

  /** After any history every addon is registered just as it was last asked for. */
  lemma {:induction false} RegisteredAsAsked(digest: Digest, h: seq<Upsert>, id: string)
    ensures AsAsked(Fold(digest, h).records, h, id)
  {
    if h != [] {
      var init, u := h[..|h| - 1], h[|h| - 1];
      assert h == init + [u];
      RegisteredAsAsked(digest, init, id);
      if StoresFor(u, id) {
        StoredAsAsked(digest, Fold(digest, init), u);
        AsAskedByLast(Fold(digest, h).records, init, u, id);
      } else {
        UnstoredKept(digest, Fold(digest, init), u, id);
        AsAskedStill(Fold(digest, init).records, Fold(digest, h).records, init, u, id);
      }
    }
  }

  lemma NewLastWord(init: seq<Upsert>, u: Upsert, id: string)
    requires StoresFor(u, id)
    ensures forall k :: LastWord(init + [u], id, k) <==> k == |init|
  {
    forall k: nat ensures LastWord(init + [u], id, k) <==> k == |init| {
      LastWordStep(init, u, id, k);
    }
  }

  lemma OldLastWord(init: seq<Upsert>, u: Upsert, id: string)
    requires !StoresFor(u, id)
    ensures forall k :: LastWord(init + [u], id, k) <==> LastWord(init, id, k) && !Wipes(u)
  {
    forall k: nat ensures LastWord(init + [u], id, k) <==> LastWord(init, id, k) && !Wipes(u) {
      LastWordStep(init, u, id, k);
    }
  }

  lemma UnstoredKept(digest: Digest, r: Registry, u: Upsert, id: string)
    requires !StoresFor(u, id)
    ensures var after := After(digest, r, u).records;
      (id in after <==> id in r.records && !Wipes(u)) && (id in after ==> after[id] == r.records[id])
  {
  }

  // ----- What others' upserts leave of a registration -------------------------

  predicate Holds(r: Registry, id: string, record: Record) {
    id in r.records && r.records[id] == record
  }

  lemma ForeignUpsert(digest: Digest, r: Registry, u: Upsert, id: string, record: Record)
    requires Id(u) != id
    ensures Holds(After(digest, r, u), id, record) <==> Holds(r, id, record) && !Wipes(u)
  {
  }

  ghost predicate AnyWipes(h: seq<Upsert>) {
    exists u | u in h :: Wipes(u)
  }

  /** A registration survives the upserts of other addons exactly when none of them could
      not read the stored registrations and saved all the same, and no save broke off. */
  lemma {:induction false} RegistrationSurvivesIff(digest: Digest, h: seq<Upsert>, more: seq<Upsert>, id: string)
    requires id in Fold(digest, h).records && forall u | u in more :: Id(u) != id
    ensures Holds(Fold(digest, h + more), id, Fold(digest, h).records[id]) <==> !AnyWipes(more)
    decreases |more|
  {
    if more == [] {
      assert h + more == h;
    } else {
      var init, u := more[..|more| - 1], more[|more| - 1];
      assert more == init + [u];
      assert forall x | x in init :: x in more;
      RegistrationSurvivesIff(digest, h, init, id);
      FoldAppend(digest, h, more);
      ForeignUpsert(digest, Fold(digest, h + init), u, id, Fold(digest, h).records[id]);
      AnyWipesSnoc(init, u);
    }
  }

  lemma AnyWipesSnoc(init: seq<Upsert>, u: Upsert)
    ensures AnyWipes(init + [u]) <==> AnyWipes(init) || Wipes(u)
  {
    if AnyWipes(init) {
      var x :| x in init && Wipes(x);
      assert x in init + [u];
    }
    assert u in init + [u];
  }

  // ----- The version as a fold ----------------------------------------------

  /** The stored upserts of one addon, in order, since the records were last lost. */
  function Mine(h: seq<Upsert>, id: string): seq<Upsert> {
    if h == [] then []
    else
      var u := h[|h| - 1];
      (if Wipes(u) then [] else Mine(h[..|h| - 1], id)) + if Id(u) == id && Stores(u) then [u] else []
  }

  /** The unbroken run of credential-issuing upserts at the end. */
  function CurrentRun(us: seq<Upsert>): seq<Upsert> {
    if us == [] || !Issues(us[|us| - 1]) then [] else CurrentRun(us[..|us| - 1]) + [us[|us| - 1]]
  }

  function Reprovisions(us: seq<Upsert>): nat {
    if us == [] then 0 else Reprovisions(us[..|us| - 1]) + if us[|us| - 1].request.reprovision then 1 else 0
  }

  lemma VersionStep(digest: Digest, r: Registry, u: Upsert, id: string)
    ensures var before := if Wipes(u) then None else StoredVersion(r, id);
      StoredVersion(After(digest, r, u), id) ==
        if Id(u) != id || !Stores(u) then before
        else if Issues(u) then Some(NextVersion(before, u.request.reprovision))
        else None
  {
  }

  /** The version that an unbroken run of issuing upserts leaves. */
  function RunVersion(run: seq<Upsert>): Option<nat> {
    if run == [] then None else Some(1 + Reprovisions(run))
  }

  lemma RunStep(us: seq<Upsert>, u: Upsert)
    ensures RunVersion(CurrentRun(us + [u])) ==
      if Issues(u) then Some(NextVersion(RunVersion(CurrentRun(us)), u.request.reprovision)) else None
  {
    assert (us + [u])[..|us|] == us;
    var run := CurrentRun(us);
    assert (run + [u])[..|run|] == run;
  }

  lemma MineStep(h: seq<Upsert>, u: Upsert, id: string)
    ensures var before := if Wipes(u) then [] else Mine(h, id);
      Mine(h + [u], id) == if Id(u) == id && Stores(u) then before + [u] else before
  {
    assert (h + [u])[..|h|] == h;
  }

  /** The stored version is one more than the reprovisions in the addon's current
      unbroken run of issuing upserts since the records were last lost; upserts that do
      not store and other addons do not count. */
  lemma {:induction false} VersionCountsReprovisions(digest: Digest, h: seq<Upsert>, id: string)
    ensures StoredVersion(Fold(digest, h), id) == RunVersion(CurrentRun(Mine(h, id)))
  {
    if h != [] {
      var init, u := h[..|h| - 1], h[|h| - 1];
      assert h == init + [u];
      VersionCountsReprovisions(digest, init, id);
      VersionStep(digest, Fold(digest, init), u, id);
      MineStep(init, u, id);
      RunStep(if Wipes(u) then [] else Mine(init, id), u);
    }
  }

  lemma CredentialTextInjective(a: string, v: nat, b: string, w: nat)
    requires CredentialText(a, v) == CredentialText(b, w)
    ensures a == b && v == w
  {
    assert ':' !in Digits(v) && ':' !in Digits(w);
    LastFieldUnique(a, Digits(v), b, Digits(w), ':');
    DigitsInjective(v, w);
  }

  ghost predicate Collisionless(digest: Digest) {
    forall seed, s, t | digest(seed, s) == digest(seed, t) :: s == t
  }

  /** Between any two moments of one history, two addons' passwords are equal exactly
      when addon and version are, for a digest without collisions. */
  lemma {:induction false} CredentialsRepeatIff(digest: Digest, h: seq<Upsert>, more: seq<Upsert>, a: string, b: string)
    requires Collisionless(digest)
    requires StoredVersion(Fold(digest, h), a).Some? && StoredVersion(Fold(digest, h + more), b).Some?
    ensures var early, late := Fold(digest, h), Fold(digest, h + more);
      && early.records[a].direct.Some? && late.records[b].direct.Some?
      && (early.records[a].direct.value.password == late.records[b].direct.value.password
          <==> a == b && early.records[a].version == late.records[b].version)
  {
    FoldWellFormed(digest, h);
    FoldWellFormed(digest, h + more);
    SeedStays(digest, h, more);
    var v, w := StoredVersion(Fold(digest, h), a).value, StoredVersion(Fold(digest, h + more), b).value;
    if CredentialText(a, v) == CredentialText(b, w) {
      CredentialTextInjective(a, v, b, w);
    }
  }
}
