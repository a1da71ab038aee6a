/** Who may publish where: realisation of registered scopes, the publish-topic
    check, and the topic-filter matcher. */
module TopicPermissions {
  import opened Text
  import opened Wrappers
  import opened StringLists

  const RESERVED_NAMESPACE_PREFIXES: seq<string> := [
    "synthia/system/", "synthia/core/", "synthia/supervisor/",
    "synthia/scheduler/", "synthia/policy/", "synthia/telemetry/"]

  predicate IsReserved(topic: string) {
    exists prefix | prefix in RESERVED_NAMESPACE_PREFIXES :: StartsWith(topic, prefix)
  }

  const ADDONS := "synthia/addons/"

  function Prefix(id: string): string {
    ADDONS + id + "/"
  }

  /** A tail of a topic below an addon's prefix: a lifecycle topic itself, or one
      without a nested lifecycle level. */
  predicate PlainTail(tail: string) {
    tail == "announce" || tail == "health" || (!Contains(tail, "/announce") && !Contains(tail, "/health"))
  }

  /** `_validate_lifecycle_pattern` does not raise. */
  predicate LifecycleOk(topic: string, id: string) {
    StartsWith(topic, Prefix(id)) ==> PlainTail(topic[|Prefix(id)|..])
  }

  // ----- Registration scopes ------------------------------------------------

  datatype Permissions = Permissions(publish: seq<string>, subscribe: seq<string>)

  predicate PublishScopeOk(topic: string, id: string) {
    LifecycleOk(topic, id) && !IsReserved(topic) && StartsWith(topic, Prefix(id))
  }

  predicate SubscribeScopeOk(topic: string, id: string) {
    LifecycleOk(topic, id) && (StartsWith(topic, Prefix(id)) || IsReserved(topic))
  }

  /** The permissions are the cleaned request, given exactly when the id is not
      blank and every scope passes; one bad scope fails the whole request. */
  method RealizeTopicPermissions(addonId: string, publishTopics: seq<string>, subscribeTopics: seq<string>)
    returns (r: Option<Permissions>)
    ensures r == Realized(addonId, publishTopics, subscribeTopics)
  {
    var id := Trim(addonId);
    if id == "" {
      return None;
    }
    var publish := NormalizeStringList(publishTopics);
    var subscribe := NormalizeStringList(subscribeTopics);
    var ok := CheckPublish(publish, id);
    if ok {
      ok := CheckSubscribe(subscribe, id);
    }
    return if ok then Some(Permissions(publish, subscribe)) else None;
  }

  method CheckPublish(publish: seq<string>, id: string) returns (ok: bool)
    ensures ok <==> forall t | t in publish :: PublishScopeOk(t, id)
  {
    for i := 0 to |publish|
      invariant forall j | 0 <= j < i :: PublishScopeOk(publish[j], id)
    {
      assert publish[i] in publish;
      if !LifecycleOk(publish[i], id) {
        return false;
      }
      if IsReserved(publish[i]) {
        return false;
      }
      if !StartsWith(publish[i], Prefix(id)) {
        return false;
      }
    }
    return true;
  }

  method CheckSubscribe(subscribe: seq<string>, id: string) returns (ok: bool)
    ensures ok <==> forall t | t in subscribe :: SubscribeScopeOk(t, id)
  {
    for i := 0 to |subscribe|
      invariant forall j | 0 <= j < i :: SubscribeScopeOk(subscribe[j], id)
    {
      assert subscribe[i] in subscribe;
      if !LifecycleOk(subscribe[i], id) {
        return false;
      }
      if !(StartsWith(subscribe[i], Prefix(id)) || IsReserved(subscribe[i])) {
        return false;
      }
    }
    return true;
  }

  function Realized(addonId: string, publishTopics: seq<string>, subscribeTopics: seq<string>): Option<Permissions> {
    var id, publish, subscribe := Trim(addonId), Normalized(publishTopics), Normalized(subscribeTopics);
    if && id != ""
       && (forall t | t in publish :: PublishScopeOk(t, id))
       && (forall t | t in subscribe :: SubscribeScopeOk(t, id))
    then Some(Permissions(publish, subscribe)) else None
  }

  /** A topic below an addon's prefix without a lifecycle level further down than first. */
  predicate BelowPrefix(topic: string, id: string) {
    var prefix := "synthia/addons/" + id + "/";
    prefix <= topic &&
    var tail := topic[|prefix|..];
    tail in {"announce", "health"} || (!Contains(tail, "/announce") && !Contains(tail, "/health"))
  }

  lemma ScopesOkIff(topic: string, id: string)
    ensures PublishScopeOk(topic, id) <==> BelowPrefix(topic, id)
    ensures SubscribeScopeOk(topic, id) <==> BelowPrefix(topic, id) || IsReserved(topic)
  {
    assert Prefix(id) == "synthia/addons/" + id + "/";
    if StartsWith(topic, Prefix(id)) {
      assert ADDONS <= Prefix(id);
      NotReserved(topic);
    }
  }

  /** Exactly which requests are granted, and what: every item given is blank or, trimmed,
      below the addon's prefix; a subscription may be on a reserved topic instead. */
  lemma RealizedIff(addonId: string, publishTopics: seq<string>, subscribeTopics: seq<string>)
    ensures var id, r := Trim(addonId), Realized(addonId, publishTopics, subscribeTopics);
      && (r.Some? <==>
            && id != ""
            && (forall x | x in publishTopics :: Trim(x) == "" || BelowPrefix(Trim(x), id))
            && (forall x | x in subscribeTopics ::
                  Trim(x) == "" || BelowPrefix(Trim(x), id) || IsReserved(Trim(x))))
      && (r.Some? ==> r.value == Permissions(Normalized(publishTopics), Normalized(subscribeTopics)))
  {
    var id, publish, subscribe := Trim(addonId), Normalized(publishTopics), Normalized(subscribeTopics);
    forall t ensures t in publish <==> t != "" && exists x | x in publishTopics :: Trim(x) == t {
      NormalizedItems(publishTopics, t);
    }
    forall t ensures t in subscribe <==> t != "" && exists x | x in subscribeTopics :: Trim(x) == t {
      NormalizedItems(subscribeTopics, t);
    }
    forall t ensures PublishScopeOk(t, id) <==> BelowPrefix(t, id)
             ensures SubscribeScopeOk(t, id) <==> BelowPrefix(t, id) || IsReserved(t) {
      ScopesOkIff(t, id);
    }
    forall x | x in publishTopics && Trim(x) != "" ensures Trim(x) in publish {}
    forall x | x in subscribeTopics && Trim(x) != "" ensures Trim(x) in subscribe {}
  }

  // ----- Publish topics -----------------------------------------------------

  predicate HasWildcard(s: string) {
    '+' in s || '#' in s
  }

  /** The id whose namespace a topic check is for; none for a missing or blank id,
      and for exactly `anonymous`. */
  function Owner(addonId: Option<string>): Option<string> {
    if addonId.Some? && Trim(addonId.value) != "" && addonId.value != "anonymous"
    then Some(Trim(addonId.value)) else None
  }

  /** `validate_publish_topic`: the topic to publish on, or a refusal. */
  function ValidatePublishTopic(topic: string, addonId: Option<string>): (r: Option<string>)
    ensures r.Some? ==> r.value == Trim(topic) && r.value != "" && !HasWildcard(r.value) && !IsReserved(r.value)
  {
    var t := Trim(topic);
    if t == "" then None
    else if HasWildcard(t) then None
    else if IsReserved(t) then None
    else if Owner(addonId).Some? then
      var id := Owner(addonId).value;
      if !StartsWith(t, Prefix(id)) || !LifecycleOk(t, id) then None else Some(t)
    else Some(t)
  }

  // ----- Topic filters ------------------------------------------------------

  /** Topic filters of section 4.7.1 of MQTT Version 3.1.1, level by level: `+`
      stands for one level, a final `#` for any number of levels, none included. */
  predicate Matches(f: seq<string>, t: seq<string>) {
    if f == [] then t == []
    else if f[0] == "#" then |f| == 1
    else t != [] && (f[0] == "+" || f[0] == t[0]) && Matches(f[1..], t[1..])
  }

  predicate TopicMatches(filter: string, topic: string) {
    Matches(Split(filter, '/'), Split(topic, '/'))
  }

  predicate AllowedByScopes(topic: string, scopes: seq<string>) {
    exists s | s in scopes :: TopicMatches(s, topic)
  }

  method MqttTopicMatches(filterTopic: string, topic: string) returns (r: bool)
    ensures r == TopicMatches(filterTopic, topic)
  {
    var filterLevels, topicLevels := Split(filterTopic, '/'), Split(topic, '/');
    for idx := 0 to |filterLevels|
      invariant idx <= |topicLevels|
      invariant TopicMatches(filterTopic, topic) == Matches(filterLevels[idx..], topicLevels[idx..])
    {
      if filterLevels[idx] == "#" {
        return idx == |filterLevels| - 1;
      }
      if idx >= |topicLevels| {
        return false;
      }
      if filterLevels[idx] == "+" {
        continue;
      }
      if filterLevels[idx] != topicLevels[idx] {
        return false;
      }
    }
    return |topicLevels| == |filterLevels|;
  }

  method TopicAllowedByScopes(topic: string, scopes: seq<string>) returns (r: bool)
    ensures r == AllowedByScopes(topic, scopes)
  {
    for i := 0 to |scopes|
      invariant forall j | 0 <= j < i :: !TopicMatches(scopes[j], topic)
    {
      var hit := MqttTopicMatches(scopes[i], topic);
      if hit {
        return true;
      }
    }
    return false;
  }

  /** Exactly the trimmed topics without wildcards pass that lie below the owner's
      prefix with a plain tail, which are never reserved; or, without an owner, that
      are neither blank nor reserved. */
  lemma PublishTopicIff(topic: string, addonId: Option<string>)
    ensures var t, owner := Trim(topic), Owner(addonId);
      var ok := !HasWildcard(t) &&
        if owner.Some? then StartsWith(t, Prefix(owner.value)) && PlainTail(t[|Prefix(owner.value)|..])
        else t != "" && !IsReserved(t);
      ValidatePublishTopic(topic, addonId) == if ok then Some(t) else None
  {
    var t, owner := Trim(topic), Owner(addonId);
    if owner.Some? && StartsWith(t, Prefix(owner.value)) {
      assert ADDONS <= Prefix(owner.value);
      NotReserved(t);
    }
  }

  ghost predicate LevelsAgree(f: seq<string>, t: seq<string>, n: nat)
    requires n <= |f| && n <= |t|
  {
    forall i | 0 <= i < n :: f[i] != "#" && (f[i] == "+" || f[i] == t[i])
  }

  lemma LevelsStep(f: seq<string>, t: seq<string>, n: nat)
    requires n < |f| && n < |t|
    ensures LevelsAgree(f, t, n + 1) <==>
      f[0] != "#" && (f[0] == "+" || f[0] == t[0]) && LevelsAgree(f[1..], t[1..], n)
  {
    var f', t' := f[1..], t[1..];
    assert forall i | 0 <= i < n :: f'[i] == f[i + 1] && t'[i] == t[i + 1];
    assert forall i | 1 <= i < n + 1 :: f[i] == f'[i - 1] && t[i] == t'[i - 1];
  }

  /** The filter language in one sentence: either all levels agree one to one, or the
      filter ends in `#` and the levels before it agree with the topic's first ones. */
  lemma {:induction false} MatchesMeaning(f: seq<string>, t: seq<string>)
    ensures Matches(f, t) <==>
      || (|f| == |t| && LevelsAgree(f, t, |f|))
      || (f != [] && f[|f| - 1] == "#" && |f| - 1 <= |t| && LevelsAgree(f, t, |f| - 1))
    decreases |f|
  {
    if f != [] && t != [] && f[0] != "#" {
      MatchesMeaning(f[1..], t[1..]);
      if |f| <= |t| {
        LevelsStep(f, t, |f| - 1);
      }
      if 2 <= |f| && |f| - 1 <= |t| {
        LevelsStep(f, t, |f| - 2);
      }
    }
  }

  /** A filter without wildcards matches exactly itself. */
  lemma WildcardFreeIsEquality(filter: string, topic: string)
    requires !HasWildcard(filter)
    ensures TopicMatches(filter, topic) <==> filter == topic
  {
    var f, t := Split(filter, '/'), Split(topic, '/');
    forall l | l in f ensures l != "+" && l != "#" {
      SplitLetters(filter, l);
    }
    MatchesMeaning(f, t);
    assert f[|f| - 1] in f;
    if |f| == |t| && LevelsAgree(f, t, |f|) {
      forall i | 0 <= i < |f| ensures f[i] == t[i] {
        assert f[i] in f;
      }
    }
    if f == t {
      forall i | 0 <= i < |f| ensures f[i] != "#" {
        assert f[i] in f;
      }
      assert LevelsAgree(f, t, |f|);
    }
    JoinSplit(filter, '/');
    JoinSplit(topic, '/');
  }

  lemma {:induction false} SplitLetters(s: string, level: string)
    requires level in Split(s, '/')
    ensures forall c | c in level :: c in s
  {
    if s != "" {
      var rest := Split(s[1..], '/');
      assert forall c | c in s[1..] :: c in s;
      if level in rest {
        SplitLetters(s[1..], level);
      } else {
        SplitLetters(s[1..], rest[0]);
        assert s[0] in s;
      }
    }
  }

  // ----- Namespaces ---------------------------------------------------------

  lemma TwoLevels(a: string, b: string, rest: string)
    requires '/' !in a && '/' !in b
    ensures Split(a + "/" + b + "/" + rest, '/') == [a, b] + Split(rest, '/')
  {
    SplitSingle(a, '/');
    SplitSingle(b, '/');
    SplitAppend(a, '/', b);
    SplitAppend(a + ['/'] + b, '/', rest);
    assert a + "/" + b + "/" + rest == a + ['/'] + b + ['/'] + rest;
  }

  /** The levels at and below the root of an id. */
  lemma RootLevels(id: string)
    ensures Split(ADDONS + id, '/') == ["synthia", "addons"] + Split(id, '/')
  {
    TwoLevels("synthia", "addons", id);
    assert ADDONS + id == "synthia" + "/" + "addons" + "/" + id;
  }

  lemma PrefixLevels(id: string, rest: string)
    ensures Split(Prefix(id) + rest, '/') == ["synthia", "addons"] + Split(id, '/') + Split(rest, '/')
  {
    RootLevels(id);
    SplitAppend(ADDONS + id, '/', rest);
    assert Prefix(id) + rest == (ADDONS + id) + ['/'] + rest;
  }

  lemma PlainLevelsAgree(r: seq<string>, more: seq<string>, t: seq<string>)
    requires "+" !in r && more != [] && Matches(r + more, t)
    ensures r <= t
  {
    var f, n := r + more, |r|;
    MatchesMeaning(f, t);
    assert LevelsAgree(f, t, n);
    forall i | 0 <= i < n ensures r[i] == t[i] {
      assert f[i] == r[i] && r[i] in r;
    }
  }

  /** Texts are below one another as their levels are. */
  lemma LevelsBelow(root: string, topic: string)
    requires Split(root, '/') <= Split(topic, '/')
    ensures StartsWith(topic, root + "/") || topic == root
  {
    var r, t := Split(root, '/'), Split(topic, '/');
    JoinSplit(root, '/');
    JoinSplit(topic, '/');
    if |r| < |t| {
      assert t == r + t[|r|..];
      JoinAppend(r, t[|r|..], '/');
    } else {
      assert t == r;
    }
  }

  /** A scope under plain levels matches only topics under, or at, them. */
  lemma RootConfines(root: string, rest: string, topic: string)
    requires "+" !in Split(root, '/')
    requires TopicMatches(root + "/" + rest, topic)
    ensures StartsWith(topic, root + "/") || topic == root
  {
    SplitAppend(root, '/', rest);
    assert root + "/" + rest == root + ['/'] + rest;
    PlainLevelsAgree(Split(root, '/'), Split(rest, '/'), Split(topic, '/'));
    LevelsBelow(root, topic);
  }

  /** A topic matched by a scope of `id` lies in the namespace of `id`, or is its
      parent level, which a final `#` also matches; unless some level of the id is `+`. */
  lemma ScopeConfines(id: string, scope: string, topic: string)
    requires "+" !in Split(id, '/')
    requires StartsWith(scope, Prefix(id)) && TopicMatches(scope, topic)
    ensures StartsWith(topic, Prefix(id)) || topic == ADDONS + id
  {
    RootLevels(id);
    var rest := scope[|Prefix(id)|..];
    assert scope == ADDONS + id + "/" + rest;
    assert ["synthia", "addons"][0] != "+" && ["synthia", "addons"][1] != "+";
    RootConfines(ADDONS + id, rest, topic);
  }

  /** The gateway's topic check for an addon passes on `topic`. */
  predicate Accepted(topic: string, id: string) {
    ValidatePublishTopic(topic, Some(id)).Some?
  }

  predicate Proper(id: string) {
    id != "" && Trimmed(id) && id != "anonymous"
  }

  lemma {:induction false} ContainsLonger(a: string, b: string, sub: string)
    requires Contains(a, sub)
    ensures Contains(a + b, sub)
  {
    var i :| 0 <= i <= |a| && OccursAt(a, sub, i);
    assert (a + b)[i..i + |sub|] == a[i..i + |sub|];
    assert OccursAt(a + b, sub, i);
  }

  /** Two ids can be nested so that one namespace holds publishable topics of the other. */
  predicate Nested(outer: string, inner: string) {
    && outer + "/" <= inner
    && !HasWildcard(inner)
    && var r := inner[|outer| + 1..]; !Contains(r, "/announce") && !Contains(r, "/health")
  }

  lemma CommonPrefix(root: string, x: string, y: string, t: string)
    requires root + x + "/" <= t && root + y + "/" <= t
    requires x != y && |x| <= |y|
    ensures x + "/" <= y
  {
    var u := t[|root|..];
    assert x + "/" == u[..|x| + 1] && y + "/" == u[..|y| + 1];
    assert x == u[..|x|] && y == u[..|y|];
  }

  lemma PartPlain(before: string, part: string, after: string)
    requires !HasWildcard(before + part + after)
    ensures !HasWildcard(part)
  {
    var s := before + part + after;
    assert forall i | 0 <= i < |part| :: part[i] == s[|before| + i];
  }

  lemma SharedIsNested(x: string, y: string, topic: string)
    requires Proper(x) && Proper(y) && x != y && |x| <= |y|
    requires Accepted(topic, x) && Accepted(topic, y)
    ensures Nested(x, y)
  {
    var t := Trim(topic);
    assert !HasWildcard(t) && LifecycleOk(t, x) && Prefix(x) <= t && Prefix(y) <= t;
    NestedBy(x, y, t);
  }

  lemma NestedBy(x: string, y: string, t: string)
    requires x != y && |x| <= |y| && !HasWildcard(t)
    requires LifecycleOk(t, x) && Prefix(x) <= t && Prefix(y) <= t
    ensures Nested(x, y)
  {
    CommonPrefix(ADDONS, x, y, t);
    var r, more := y[|x| + 1..], t[|ADDONS| + |y|..];
    assert Prefix(y)[|ADDONS| + |y|] == '/';
    assert y == x + "/" + r;
    assert t == ADDONS + y + more;
    PartPlain(ADDONS, y, more);
    assert t == Prefix(x) + (r + more);
    TailIsNested(r, more, t, x);
  }

  lemma TailIsNested(r: string, more: string, t: string, x: string)
    requires t == Prefix(x) + (r + more) && '/' in more && LifecycleOk(t, x)
    ensures !Contains(r, "/announce") && !Contains(r, "/health")
  {
    var tail := t[|Prefix(x)|..];
    assert tail == r + more;
    assert '/' in tail && '/' !in "announce" && '/' !in "health";
    if Contains(r, "/announce") {
      ContainsLonger(r, more, "/announce");
    }
    if Contains(r, "/health") {
      ContainsLonger(r, more, "/health");
    }
  }

  lemma NotAtEnd(r: string, sub: string)
    requires !Contains(r, sub) && |sub| >= 2 && sub[|sub| - 1] != '/' && sub[|sub| - 1] != 'q'
    ensures !Contains(r + "/q", sub)
  {
    var s := r + "/q";
    forall i | 0 <= i <= |s| ensures !OccursAt(s, sub, i) {
      if i + |sub| <= |r| {
        assert s[i..i + |sub|] == r[i..i + |sub|];
        assert !OccursAt(r, sub, i);
      } else if i + |sub| <= |s| {
        assert s[i..i + |sub|][|sub| - 1] == s[i + |sub| - 1];
      }
    }
  }

  /** The topic that both addons may publish on when `y` is nested in `x`. */
  function SharedTopic(y: string): string {
    Prefix(y) + "q"
  }

  lemma SharedTopicPlain(y: string)
    requires !HasWildcard(y)
    ensures Trimmed(SharedTopic(y)) && !HasWildcard(SharedTopic(y)) && !IsReserved(SharedTopic(y))
  {
    var t := SharedTopic(y);
    assert t[0] == 's' && t[|t| - 1] == 'q';
    assert forall c | c in t :: c in ADDONS || c in y || c == '/' || c == 'q';
    NotReserved(t);
  }

  lemma AcceptedUnder(t: string, id: string, tail: string)
    requires Proper(id) && Trimmed(t) && !HasWildcard(t) && !IsReserved(t)
    requires t == Prefix(id) + tail && !Contains(tail, "/announce") && !Contains(tail, "/health")
    ensures Accepted(t, id)
  {
    assert t[|Prefix(id)|..] == tail;
  }

  lemma NestedIsShared(x: string, y: string)
    requires Proper(x) && Proper(y) && Nested(x, y)
    ensures Accepted(SharedTopic(y), x) && Accepted(SharedTopic(y), y)
  {
    var t, r := SharedTopic(y), y[|x| + 1..];
    SharedTopicPlain(y);
    AcceptedUnder(t, y, "q");
    assert y == x + "/" + r;
    assert t == Prefix(x) + (r + "/q");
    NotAtEnd(r, "/announce");
    NotAtEnd(r, "/health");
    AcceptedUnder(t, x, r + "/q");
  }

  lemma NotReserved(t: string)
    requires StartsWith(t, ADDONS)
    ensures !IsReserved(t)
  {
    assert t[8] == 'a' && t[9] == 'd';
    forall p | p in RESERVED_NAMESPACE_PREFIXES ensures !StartsWith(t, p) {
      assert p[8] != 'a';
    }
  }

  /** Two addons can be told apart by every topic exactly when neither id is nested
      in the other; ids without `/` never are. */
  lemma {:induction false} NamespacesDisjointIff(x: string, y: string)
    requires Proper(x) && Proper(y) && x != y
    ensures (forall t :: !(Accepted(t, x) && Accepted(t, y))) <==> !Nested(x, y) && !Nested(y, x)
    ensures '/' !in x && '/' !in y ==> forall t :: !(Accepted(t, x) && Accepted(t, y))
  {
    forall t | Accepted(t, x) && Accepted(t, y) ensures Nested(x, y) || Nested(y, x) {
      if |x| <= |y| { SharedIsNested(x, y, t); } else { SharedIsNested(y, x, t); }
    }
    if Nested(x, y) { NestedIsShared(x, y); assert y[|x|] == '/'; }
    if Nested(y, x) { NestedIsShared(y, x); assert x[|y|] == '/'; }
  }

  /** A scope of `x` reaches into the namespace of another addon. */
  ghost predicate Crosses(x: string, y: string) {
    exists s, t :: PublishScopeOk(s, x) && StartsWith(t, Prefix(y)) && TopicMatches(s, t)
  }

  ghost predicate LevelsOverlap(xs: seq<string>, ys: seq<string>) {
    "#" !in xs && forall i | 0 <= i < |xs| && i < |ys| :: xs[i] == "+" || xs[i] == ys[i]
  }

  /** Level by level, `x` read as a filter agrees with `y` as far as both go. */
  ghost predicate Overlaps(x: string, y: string) {
    LevelsOverlap(Split(x, '/'), Split(y, '/'))
  }

  lemma MatchOverlaps(root: seq<string>, xs: seq<string>, ys: seq<string>, more: seq<string>, below: seq<string>)
    requires more != [] && Matches(root + xs + more, root + ys + below)
    ensures LevelsOverlap(xs, ys)
  {
    var f, l := root + xs + more, root + ys + below;
    MatchesMeaning(f, l);
    forall i | 0 <= i < |xs| ensures xs[i] != "#" && (i < |ys| ==> xs[i] == "+" || xs[i] == ys[i]) {
      assert f[|root| + i] == xs[i] && (i < |ys| ==> l[|root| + i] == ys[i]);
    }
  }

  lemma CrossingOverlaps(x: string, y: string, s: string, t: string)
    requires StartsWith(s, Prefix(x)) && StartsWith(t, Prefix(y)) && TopicMatches(s, t)
    ensures Overlaps(x, y)
  {
    var a, b := s[|Prefix(x)|..], t[|Prefix(y)|..];
    assert s == Prefix(x) + a && t == Prefix(y) + b;
    PrefixLevels(x, a);
    PrefixLevels(y, b);
    MatchOverlaps(["synthia", "addons"], Split(x, '/'), Split(y, '/'), Split(a, '/'), Split(b, '/'));
  }

  lemma ShortTailOk(x: string, tail: string)
    requires |tail| == 1
    ensures PublishScopeOk(Prefix(x) + tail, x)
  {
    var s := Prefix(x) + tail;
    assert s[|Prefix(x)|..] == tail;
    NotReserved(s);
  }

  lemma ShorterMatches(root: seq<string>, xs: seq<string>, ys: seq<string>, below: seq<string>)
    requires |xs| <= |ys| && LevelsOverlap(xs, ys)
    requires forall l | l in root :: l != "#"
    ensures Matches(root + xs + ["#"], root + ys + below)
  {
    var f, l := root + xs + ["#"], root + ys + below;
    forall i | 0 <= i < |root| + |xs| ensures f[i] != "#" && (f[i] == "+" || f[i] == l[i]) {
      if i < |root| {
        assert root[i] in root;
      } else {
        assert f[i] == xs[i - |root|] && xs[i - |root|] in xs && l[i] == ys[i - |root|];
      }
    }
    assert LevelsAgree(f, l, |f| - 1);
    MatchesMeaning(f, l);
  }

  lemma LongerMatches(root: seq<string>, xs: seq<string>, ys: seq<string>, last: string)
    requires |xs| > |ys| && LevelsOverlap(xs, ys) && last != "#"
    requires forall l | l in root :: l != "#"
    ensures Matches(root + xs + [last], root + ys + (xs[|ys|..] + [last]))
  {
    var f, l := root + xs + [last], root + ys + (xs[|ys|..] + [last]);
    forall i | 0 <= i < |f| ensures f[i] != "#" && (f[i] == "+" || f[i] == l[i]) {
      if i < |root| {
        assert root[i] in root;
      } else if i < |root| + |xs| {
        assert f[i] == xs[i - |root|] && xs[i - |root|] in xs;
      }
    }
    assert LevelsAgree(f, l, |f|);
    MatchesMeaning(f, l);
  }

  /** With no more levels than `y`, the scope of `x` that ends in `#` reaches it. */
  lemma ShorterCrosses(x: string, y: string)
    requires Overlaps(x, y) && |Split(x, '/')| <= |Split(y, '/')|
    ensures Crosses(x, y)
  {
    var s, t := Prefix(x) + "#", Prefix(y) + "q";
    PrefixLevels(x, "#");
    PrefixLevels(y, "q");
    SplitSingle("#", '/');
    ShorterMatches(["synthia", "addons"], Split(x, '/'), Split(y, '/'), Split("q", '/'));
    ShortTailOk(x, "#");
    assert PublishScopeOk(s, x) && StartsWith(t, Prefix(y)) && TopicMatches(s, t);
  }

  /** With more levels than `y`, `x` itself leads below it. */
  lemma LongerCrosses(x: string, y: string)
    requires Overlaps(x, y) && |Split(x, '/')| > |Split(y, '/')|
    ensures Crosses(x, y)
  {
    var xs, ys := Split(x, '/'), Split(y, '/');
    var more := xs[|ys|..];
    forall p | p in more ensures '/' !in p {
      assert p in xs;
    }
    var s, b := Prefix(x) + "q", Join(more, '/') + "/q";
    var t := Prefix(y) + b;
    SplitJoin(more, '/');
    SplitAppend(Join(more, '/'), '/', "q");
    assert b == Join(more, '/') + ['/'] + "q";
    PrefixLevels(x, "q");
    PrefixLevels(y, b);
    SplitSingle("q", '/');
    LongerMatches(["synthia", "addons"], xs, ys, "q");
    ShortTailOk(x, "q");
    assert PublishScopeOk(s, x) && StartsWith(t, Prefix(y)) && TopicMatches(s, t);
  }

  /** The scopes that `x` can be granted reach into the namespace of `y` exactly when
      no level of `x` is `#` and, as far as both go, each is `+` or the same as that of
      `y`. Among distinct ids without `/` that is so exactly for `x` being `+`. */
  lemma {:induction false} ScopesCrossIff(x: string, y: string)
    ensures Crosses(x, y) <==> Overlaps(x, y)
    ensures '/' !in x && '/' !in y && x != y ==> (Crosses(x, y) <==> x == "+")
  {
    forall s, t | PublishScopeOk(s, x) && StartsWith(t, Prefix(y)) && TopicMatches(s, t) ensures Overlaps(x, y) {
      CrossingOverlaps(x, y, s, t);
    }
    if Overlaps(x, y) {
      if |Split(x, '/')| <= |Split(y, '/')| { ShorterCrosses(x, y); } else { LongerCrosses(x, y); }
    }
    if '/' !in x && '/' !in y {
      SplitSingle(x, '/');
      SplitSingle(y, '/');
      assert [x][0] == x && [y][0] == y;
    }
  }
}
