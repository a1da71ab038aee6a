/** The desired-state document: a JSON object that several parties edit, and the
    two edits the addon makes to it. */
module DesiredState {
  import opened StringLists
  import opened Text

  /** A JSON value. Scalars carry the text `str` gives them and their truth value;
      a list carries the texts of its items. */
  datatype Json =
    | Null
    | Atom(text: string, truthy: bool)
    | List(items: seq<string>)
    | Object(fields: Payload)

  type Payload = map<string, Json>
  type Path = seq<string>

  predicate Truthy(j: Json) {
    match j
    case Null => false
    case Atom(_, truthy) => truthy
    case List(items) => items != []
    case Object(fields) => fields != map[]
  }

  function Field(p: Payload, key: string): Json {
    if key in p then p[key] else Null
  }

  /** `value if isinstance(value, dict) else {}`. */
  function FieldsOf(j: Json): Payload {
    if j.Object? then j.fields else map[]
  }

  /** `_normalize_string_list`: anything but a list reads as empty. */
  function StringList(j: Json): (r: seq<string>)
    ensures Clean(r)
  {
    if j.List? then Normalized(j.items) else []
  }

  function Bool(b: bool): Json {
    Atom(if b then "True" else "False", b)
  }

  // ----- Nested access ------------------------------------------------------

  /** The value at a path of keys; `Null` when there is none. */
  function At(p: Payload, path: Path): Json
    requires path != []
    decreases |path|
  {
    if |path| == 1 then Field(p, path[0]) else At(FieldsOf(Field(p, path[0])), path[1..])
  }

  /** Store a value at a path, replacing non-objects on the way by objects. */
  function Put(p: Payload, path: Path, v: Json): Payload
    requires path != []
    decreases |path|
  {
    if |path| == 1 then p[path[0] := v]
    else p[path[0] := Object(Put(FieldsOf(Field(p, path[0])), path[1..], v))]
  }

  /** Neither path leads through the other. */
  predicate Unrelated(a: Path, b: Path) {
    !(a <= b) && !(b <= a)
  }

  lemma {:induction false} PutGet(p: Payload, path: Path, v: Json)
    requires path != []
    ensures At(Put(p, path, v), path) == v
    decreases |path|
  {
    if |path| > 1 {
      PutGet(FieldsOf(Field(p, path[0])), path[1..], v);
    }
  }

  lemma {:induction false} PutFrame(p: Payload, path: Path, v: Json, other: Path)
    requires path != [] && other != [] && Unrelated(path, other)
    ensures At(Put(p, path, v), other) == At(p, other)
    decreases |path|
  {
    if path[0] == other[0] {
      assert |path| == 1 ==> path <= other;
      assert |other| == 1 ==> other <= path;
      assert path == [path[0]] + path[1..] && other == [other[0]] + other[1..];
      PutFrame(FieldsOf(Field(p, path[0])), path[1..], v, other[1..]);
    }
  }

  // ----- The two edits ------------------------------------------------------

  datatype Mutator =
    | SetGroups(groups: seq<string>, revision: string)
    | SetCoreUrl(url: string, revision: string)

  const ENABLED: Path := ["enabled_docker_groups"]
  const RUNTIME_REQUESTED: Path := ["runtime", "optional_docker_groups", "requested"]
  const REQUESTED: Path := ["optional_groups_requested"]
  const CORE_URL: Path := ["config", "env", "CORE_URL"]
  const REVISION: Path := ["desired_revision"]
  const FORCE: Path := ["force_rebuild"]

  function Apply(m: Mutator, p: Payload): Payload {
    match m
    case SetGroups(groups, revision) =>
      var p1 := Put(p, RUNTIME_REQUESTED, List(groups));
      var p2 := Put(Put(p1, ENABLED, List(groups)), REQUESTED, List(groups));
      var p3 := Put(p2, REVISION, Atom(revision, true));
      Put(p3, FORCE, Bool(Truthy(Field(p3, "force_rebuild"))))
    case SetCoreUrl(url, revision) =>
      Put(Put(p, CORE_URL, Atom(url, true)), REVISION, Atom(revision, true))
  }

  function Written(m: Mutator): seq<Path> {
    if m.SetGroups? then [RUNTIME_REQUESTED, ENABLED, REQUESTED, REVISION, FORCE] else [CORE_URL, REVISION]
  }

  /** The step-by-step edit of `_write_desired_optional_groups`. */
  method MutateGroups(payload: Payload, groups: seq<string>, revision: string) returns (r: Payload)
    ensures r == Apply(SetGroups(groups, revision), payload)
  {
    r := payload;
    var runtime := FieldsOf(Field(r, "runtime"));
    var optionalGroups := FieldsOf(Field(runtime, "optional_docker_groups"));
    optionalGroups := optionalGroups["requested" := List(groups)];
    assert Put(FieldsOf(Field(runtime, "optional_docker_groups")), ["requested"], List(groups)) == optionalGroups;
    runtime := runtime["optional_docker_groups" := Object(optionalGroups)];
    assert RUNTIME_REQUESTED[1..][1..] == ["requested"];
    r := r["runtime" := Object(runtime)];
    assert r == Put(payload, RUNTIME_REQUESTED, List(groups));
    r := r["enabled_docker_groups" := List(groups)];
    r := r["optional_groups_requested" := List(groups)];
    r := r["desired_revision" := Atom(revision, true)];
    r := r["force_rebuild" := Bool(Truthy(Field(r, "force_rebuild")))];
  }

  /** The step-by-step edit of `set_core_base_url`. */
  method MutateCoreUrl(payload: Payload, url: string, revision: string) returns (r: Payload)
    ensures r == Apply(SetCoreUrl(url, revision), payload)
  {
    r := payload;
    var config := FieldsOf(Field(r, "config"));
    var env := FieldsOf(Field(config, "env"));
    env := env["CORE_URL" := Atom(url, true)];
    assert Put(FieldsOf(Field(config, "env")), ["CORE_URL"], Atom(url, true)) == env;
    config := config["env" := Object(env)];
    assert CORE_URL[1..][1..] == ["CORE_URL"];
    r := r["config" := Object(config)];
    assert r == Put(payload, CORE_URL, Atom(url, true));
    r := r["desired_revision" := Atom(revision, true)];
  }

  /** `get_desired_optional_groups`: the first non-empty of three mirrors. */
  function DesiredGroups(p: Payload): seq<string> {
    var enabled := StringList(At(p, ENABLED));
    var requested := StringList(At(p, RUNTIME_REQUESTED));
    if enabled != [] then enabled
    else if requested != [] then requested
    else StringList(At(p, REQUESTED))
  }

  function CoreUrl(p: Payload): Json {
    At(p, CORE_URL)
  }

  /** An edit leaves every path alone that it neither writes nor leads through. */
  lemma ApplyFrame(m: Mutator, p: Payload, other: Path)
    requires other != [] && forall w | w in Written(m) :: Unrelated(w, other)
    ensures At(Apply(m, p), other) == At(p, other)
  {
    match m
    case SetGroups(groups, revision) =>
      assert forall w | w in [RUNTIME_REQUESTED, ENABLED, REQUESTED, REVISION, FORCE] :: Unrelated(w, other);
      var p1 := Put(p, RUNTIME_REQUESTED, List(groups));
      var p2 := Put(Put(p1, ENABLED, List(groups)), REQUESTED, List(groups));
      var p3 := Put(p2, REVISION, Atom(revision, true));
      PutFrame(p, RUNTIME_REQUESTED, List(groups), other);
      PutFrame(p1, ENABLED, List(groups), other);
      PutFrame(Put(p1, ENABLED, List(groups)), REQUESTED, List(groups), other);
      PutFrame(p2, REVISION, Atom(revision, true), other);
      PutFrame(p3, FORCE, Bool(Truthy(Field(p3, "force_rebuild"))), other);
    case SetCoreUrl(url, revision) =>
      assert forall w | w in [CORE_URL, REVISION] :: Unrelated(w, other);
      PutFrame(p, CORE_URL, Atom(url, true), other);
      PutFrame(Put(p, CORE_URL, Atom(url, true)), REVISION, Atom(revision, true), other);
  }

  /** The nested mirror keeps the list through the edits that follow it. */
  lemma {:induction false} RuntimeMirror(p: Payload, groups: seq<string>, revision: string)
    ensures At(Apply(SetGroups(groups, revision), p), RUNTIME_REQUESTED) == List(groups)
  {
    var p1 := Put(p, RUNTIME_REQUESTED, List(groups));
    PutGet(p, RUNTIME_REQUESTED, List(groups));
    var p2 := Put(p1, ENABLED, List(groups));
    PutFrame(p1, ENABLED, List(groups), RUNTIME_REQUESTED);
    var p3 := Put(p2, REQUESTED, List(groups));
    PutFrame(p2, REQUESTED, List(groups), RUNTIME_REQUESTED);
    var p4 := Put(p3, REVISION, Atom(revision, true));
    PutFrame(p3, REVISION, Atom(revision, true), RUNTIME_REQUESTED);
    PutFrame(p4, FORCE, Bool(Truthy(Field(p4, "force_rebuild"))), RUNTIME_REQUESTED);
  }

  lemma FlatMirrors(p: Payload, groups: seq<string>, revision: string)
    ensures var r := Apply(SetGroups(groups, revision), p);
      At(r, ENABLED) == List(groups) && At(r, REQUESTED) == List(groups)
  {
  }

  /** Either edit leaves its own revision. */
  lemma RevisionStored(m: Mutator, p: Payload)
    ensures At(Apply(m, p), REVISION) == Atom(m.revision, true)
  {
    match m
    case SetGroups(groups, revision) =>
      var p3 := Put(Put(Put(Put(p, RUNTIME_REQUESTED, List(groups)), ENABLED, List(groups)), REQUESTED, List(groups)),
                    REVISION, Atom(revision, true));
      PutFrame(p3, FORCE, Bool(Truthy(Field(p3, "force_rebuild"))), REVISION);
    case SetCoreUrl(_, _) =>
  }

  /** A group edit makes the rebuild flag the boolean of what it was. */
  lemma ForceStored(p: Payload, groups: seq<string>, revision: string)
    ensures var was, flag := At(p, FORCE), At(Apply(SetGroups(groups, revision), p), FORCE);
      var unset := was == Null || was == List([]) || was == Object(map[]) || (was.Atom? && !was.truthy);
      flag == if unset then Atom("False", false) else Atom("True", true)
  {
    var p1 := Put(p, RUNTIME_REQUESTED, List(groups));
    PutFrame(p, RUNTIME_REQUESTED, List(groups), FORCE);
    var p2 := Put(p1, ENABLED, List(groups));
    PutFrame(p1, ENABLED, List(groups), FORCE);
    var p3 := Put(p2, REQUESTED, List(groups));
    PutFrame(p2, REQUESTED, List(groups), FORCE);
    PutFrame(p3, REVISION, Atom(revision, true), FORCE);
  }

  /** All a group edit stores, path by path. */
  lemma GroupsStored(p: Payload, groups: seq<string>, revision: string)
    ensures var r := Apply(SetGroups(groups, revision), p);
      && At(r, ["enabled_docker_groups"]) == At(r, ["optional_groups_requested"]) == List(groups)
      && At(r, ["runtime", "optional_docker_groups", "requested"]) == List(groups)
      && At(r, ["desired_revision"]) == Atom(revision, true)
      && At(r, ["force_rebuild"]).Atom?
  {
    RuntimeMirror(p, groups, revision);
    FlatMirrors(p, groups, revision);
    RevisionStored(SetGroups(groups, revision), p);
    ForceStored(p, groups, revision);
  }

  /** Of the three mirrors the first that names a group is read: the enabled groups, then
      the runtime request, then the plain one. */
  lemma FirstMirrorRead(p: Payload, x: string)
    requires x != "" && Trimmed(x)
    ensures var enabled, runtime, plain := At(p, ENABLED), At(p, RUNTIME_REQUESTED), At(p, REQUESTED);
      && (Names(enabled) ==> (x in DesiredGroups(p) <==> Lists(enabled, x)))
      && (!Names(enabled) && Names(runtime) ==> (x in DesiredGroups(p) <==> Lists(runtime, x)))
      && (!Names(enabled) && !Names(runtime) ==> (x in DesiredGroups(p) <==> Lists(plain, x)))
  {
    MirrorLists(At(p, ENABLED), x);
    MirrorLists(At(p, RUNTIME_REQUESTED), x);
    MirrorLists(At(p, REQUESTED), x);
  }

  /** `x` is the trimmed text of an item of a list. */
  ghost predicate Lists(j: Json, x: string) {
    j.List? && exists item | item in j.items :: Trim(item) == x
  }

  ghost predicate Names(j: Json) {
    exists x :: x != "" && Lists(j, x)
  }

  lemma MirrorLists(j: Json, x: string)
    requires x != ""
    ensures x in StringList(j) <==> Lists(j, x)
    ensures StringList(j) != [] <==> Names(j)
  {
    if j.List? {
      NormalizedItems(j.items, x);
      if StringList(j) != [] {
        var y := StringList(j)[0];
        assert y in StringList(j);
        NormalizedItems(j.items, y);
        assert Lists(j, y);
      }
      if Names(j) {
        var y :| y != "" && Lists(j, y);
        NormalizedItems(j.items, y);
      }
    }
  }

  lemma GroupsKeepUrl(p: Payload, groups: seq<string>, revision: string)
    ensures CoreUrl(Apply(SetGroups(groups, revision), p)) == CoreUrl(p)
  {
    var m := SetGroups(groups, revision);
    forall w | w in Written(m) ensures Unrelated(w, CORE_URL) {
      assert w[0] != CORE_URL[0];
    }
    ApplyFrame(m, p, CORE_URL);
  }

  /** What was asked for is what the fallback chain reads, the empty list included. */
  lemma {:induction false} GroupsRoundTrip(p: Payload, groups: seq<string>, revision: string)
    ensures DesiredGroups(Apply(SetGroups(groups, revision), p)) == Normalized(groups)
    ensures CoreUrl(Apply(SetGroups(groups, revision), p)) == CoreUrl(p)
  {
    RuntimeMirror(p, groups, revision);
    FlatMirrors(p, groups, revision);
    GroupsKeepUrl(p, groups, revision);
  }

  lemma CoreUrlRoundTrip(p: Payload, url: string, revision: string)
    ensures CoreUrl(Apply(SetCoreUrl(url, revision), p)) == Atom(url, true)
    ensures DesiredGroups(Apply(SetCoreUrl(url, revision), p)) == DesiredGroups(p)
  {
    PutGet(p, CORE_URL, Atom(url, true));
    PutFrame(Put(p, CORE_URL, Atom(url, true)), REVISION, Atom(revision, true), CORE_URL);
    ApplyFrame(SetCoreUrl(url, revision), p, ENABLED);
    ApplyFrame(SetCoreUrl(url, revision), p, RUNTIME_REQUESTED);
    ApplyFrame(SetCoreUrl(url, revision), p, REQUESTED);
  }
}
