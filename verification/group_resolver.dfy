/** Dependency resolution of requested optional groups: the depth-first walk of
    `_resolve_requested_optional_groups` over a graph that may have cycles. */
module GroupResolver {
  import opened StringLists
  import opened Text

  datatype Group = Group(name: string, composeFile: string, setupRequired: bool, dependsOn: seq<string>)
  type Groups = map<string, Group>

  function Deps(g: Groups, id: string): (r: seq<string>)
    requires id in g
  {
    Normalized(g[id].dependsOn)
  }

  // ----- Reachability, the reference notion ---------------------------------

  /** An edge between supported groups, as the manifest lists it. */
  ghost predicate Edge(g: Groups, u: string, v: string) {
    u in g && v in g && v != "" && exists x | x in g[u].dependsOn :: Trim(x) == v
  }

  /** The walk follows every edge and no other. */
  lemma EdgesOf(g: Groups, u: string)
    requires u in g
    ensures forall v :: Edge(g, u, v) <==> v in g && v in Deps(g, u)
  {
    forall v ensures Edge(g, u, v) <==> v in g && v in Deps(g, u) {
      NormalizedItems(g[u].dependsOn, v);
    }
  }

  /** A path that stays among supported groups. */
  ghost predicate IsPath(g: Groups, p: seq<string>) {
    && p != []
    && (forall i | 0 <= i < |p| :: p[i] in g)
    && (forall i | 0 <= i < |p| - 1 :: Edge(g, p[i], p[i + 1]))
  }

  ghost predicate Joins(g: Groups, p: seq<string>, u: string, v: string) {
    IsPath(g, p) && p[0] == u && p[|p| - 1] == v
  }

  ghost predicate Reaches(g: Groups, u: string, v: string) {
    exists p :: Joins(g, p, u, v)
  }

  ghost predicate Requested(g: Groups, ids: seq<string>, x: string) {
    exists y | y in ids :: Reaches(g, y, x)
  }

  ghost predicate Closed(g: Groups, c: set<string>) {
    forall u, v | u in c && Edge(g, u, v) :: v in c
  }

  lemma ReachesSelf(g: Groups, u: string)
    requires u in g
    ensures Reaches(g, u, u)
  {
    assert Joins(g, [u], u, u);
  }

  lemma ReachesStep(g: Groups, u: string, v: string, w: string)
    requires Reaches(g, u, v) && Edge(g, v, w)
    ensures Reaches(g, u, w)
  {
    var p :| Joins(g, p, u, v);
    assert Joins(g, p + [w], u, w);
  }

  lemma {:induction false} ReachesWithin(g: Groups, p: seq<string>, c: set<string>)
    requires IsPath(g, p) && Closed(g, c) && p[0] in c
    ensures p[|p| - 1] in c
    decreases |p|
  {
    if |p| > 1 {
      assert Edge(g, p[0], p[1]);
      ReachesWithin(g, p[1..], c);
    }
  }

  // ----- The walk -----------------------------------------------------------

  datatype Walk = Walk(ordered: seq<string>, visiting: set<string>, visited: set<string>)

  const START := Walk([], {}, {})

  /** The supported groups the walk has not yet entered: the termination measure. */
  function Unseen(g: Groups, w: Walk): set<string> {
    g.Keys - w.visiting - w.visited
  }

  function Visit(g: Groups, w: Walk, id: string): (r: Walk)
    ensures r.visiting == w.visiting
    ensures w.visited <= r.visited
    ensures w.ordered <= r.ordered
    decreases Unseen(g, w), 0
  {
    if id in w.visited || id in w.visiting || id !in g then w
    else
      assert id in Unseen(g, w);
      var inner := VisitAll(g, w.(visiting := w.visiting + {id}), Deps(g, id));
      Walk(inner.ordered + [id], inner.visiting - {id}, inner.visited + {id})
  }

  function VisitAll(g: Groups, w: Walk, ids: seq<string>): (r: Walk)
    ensures r.visiting == w.visiting
    ensures w.visited <= r.visited
    ensures w.ordered <= r.ordered
    decreases Unseen(g, w), 1, |ids|
  {
    if ids == [] then w else VisitAll(g, Visit(g, w, ids[0]), ids[1..])
  }

  /** `_resolve_requested_optional_groups`, on an already normalised request. */
  function Resolve(g: Groups, ids: seq<string>): seq<string> {
    VisitAll(g, START, ids).ordered
  }

  /** One run of the walk, with the three collections the nested `visit` shares. */
  class Resolver {
    const groups: Groups
    var ordered: seq<string>
    var visiting: set<string>
    var visited: set<string>

    constructor (groups: Groups)
      ensures this.groups == groups && State() == START
    {
      this.groups := groups;
      ordered, visiting, visited := [], {}, {};
    }

    function State(): Walk
      reads this
    {
      Walk(ordered, visiting, visited)
    }

    method VisitGroup(id: string)
      modifies this
      ensures State() == Visit(groups, old(State()), id)
      decreases Unseen(groups, State())
    {
      if id in visited {
        return;
      }
      if id in visiting {
        return;
      }
      if id !in groups {
        return;
      }
      assert id in Unseen(groups, State());
      visiting := visiting + {id};
      ghost var entered := State();
      var dependencies := NormalizeStringList(groups[id].dependsOn);
      for i := 0 to |dependencies|
        invariant VisitAll(groups, State(), dependencies[i..]) == VisitAll(groups, entered, dependencies)
        invariant visiting == entered.visiting && entered.visited <= visited
      {
        VisitGroup(dependencies[i]);
      }
      visiting := visiting - {id};
      visited := visited + {id};
      ordered := ordered + [id];
    }
  }

  method ResolveRequestedOptionalGroups(g: Groups, requested: seq<string>) returns (ordered: seq<string>)
    ensures ordered == Resolve(g, requested)
  {
    var run := new Resolver(g);
    for i := 0 to |requested|
      invariant run.groups == g
      invariant VisitAll(g, run.State(), requested[i..]) == VisitAll(g, START, requested)
    {
      run.VisitGroup(requested[i]);
    }
    ordered := run.ordered;
  }

  // ----- What every step of the walk keeps ----------------------------------

  /** The three collections agree, and what is finished depends only on what is
      finished or still open. */
  ghost predicate Consistent(g: Groups, w: Walk) {
    && NoDuplicates(w.ordered)
    && Elements(w.ordered) == w.visited
    && w.visited !! w.visiting
    && w.visited <= g.Keys
    && (forall u, v | u in w.visited && Edge(g, u, v) :: v in w.visited + w.visiting)
  }

  lemma {:induction false} VisitKeeps(g: Groups, w: Walk, id: string)
    requires Consistent(g, w)
    ensures var r := Visit(g, w, id);
      && Consistent(g, r)
      && w.ordered <= r.ordered
      && (id in g ==> id in r.visited + r.visiting)
    decreases Unseen(g, w), 0
  {
    if id !in w.visited && id !in w.visiting && id in g {
      var entered := w.(visiting := w.visiting + {id});
      assert id in Unseen(g, w);
      EdgesOf(g, id);
      VisitAllKeeps(g, entered, Deps(g, id));
      var inner := VisitAll(g, entered, Deps(g, id));
      var r := Visit(g, w, id);
      assert Elements(r.ordered) == Elements(inner.ordered) + {id};
      assert id !in inner.ordered by {
        assert id in inner.visiting && id !in inner.visited;
        assert inner.visited == Elements(inner.ordered);
      }
    }
  }

  lemma {:induction false} VisitAllKeeps(g: Groups, w: Walk, ids: seq<string>)
    requires Consistent(g, w)
    ensures var r := VisitAll(g, w, ids);
      && Consistent(g, r)
      && w.ordered <= r.ordered
      && (forall x | x in ids && x in g :: x in r.visited + r.visiting)
    decreases Unseen(g, w), 1, |ids|
  {
    if ids != [] {
      VisitKeeps(g, w, ids[0]);
      VisitAllKeeps(g, Visit(g, w, ids[0]), ids[1..]);
      assert forall x | x in ids :: x == ids[0] || x in ids[1..];
    }
  }

  lemma {:induction false} VisitWithin(g: Groups, w: Walk, id: string, c: set<string>)
    requires Closed(g, c) && (id in g ==> id in c)
    ensures Visit(g, w, id).visited <= w.visited + c
    decreases Unseen(g, w), 0
  {
    if id !in w.visited && id !in w.visiting && id in g {
      assert id in Unseen(g, w);
      EdgesOf(g, id);
      VisitAllWithin(g, w.(visiting := w.visiting + {id}), Deps(g, id), c);
    }
  }

  lemma {:induction false} VisitAllWithin(g: Groups, w: Walk, ids: seq<string>, c: set<string>)
    requires Closed(g, c) && forall x | x in ids && x in g :: x in c
    ensures VisitAll(g, w, ids).visited <= w.visited + c
    decreases Unseen(g, w), 1, |ids|
  {
    if ids != [] {
      VisitWithin(g, w, ids[0], c);
      VisitAllWithin(g, Visit(g, w, ids[0]), ids[1..], c);
    }
  }

  // ----- Main results: contents ---------------------------------------------

  /** The output has no duplicates and lists exactly the supported groups
      reachable from the request. */
  lemma ResolveIsReachability(g: Groups, ids: seq<string>)
    ensures NoDuplicates(Resolve(g, ids))
    ensures forall x :: x in Resolve(g, ids) <==> Requested(g, ids, x)
  {
    VisitAllKeeps(g, START, ids);
    var r := VisitAll(g, START, ids);
    assert r.visited == Elements(r.ordered);
    var c := set x | x in g && Requested(g, ids, x);
    assert Closed(g, c) by {
      forall u, v | u in c && Edge(g, u, v) ensures v in c {
        var y :| y in ids && Reaches(g, y, u);
        ReachesStep(g, y, u, v);
      }
    }
    forall x | x in ids && x in g ensures x in c {
      ReachesSelf(g, x);
    }
    VisitAllWithin(g, START, ids, c);
    forall x ensures x in r.ordered <==> Requested(g, ids, x) {
      assert x in r.ordered <==> x in r.visited;
      if Requested(g, ids, x) {
        var y :| y in ids && Reaches(g, y, x);
        var p :| Joins(g, p, y, x);
        ReachesWithin(g, p, r.visited);
      }
    }
  }

  /** The output is the least dependency-closed set holding the supported requests. */
  lemma ResolveIsLeastClosure(g: Groups, ids: seq<string>, c: set<string>)
    requires Closed(g, c) && forall x | x in ids && x in g :: x in c
    ensures Elements(Resolve(g, ids)) <= c
    ensures Closed(g, Elements(Resolve(g, ids)))
    ensures forall x | x in ids && x in g :: x in Resolve(g, ids)
  {
    VisitAllKeeps(g, START, ids);
    VisitAllWithin(g, START, ids, c);
    var r := VisitAll(g, START, ids);
    assert r.visited == Elements(r.ordered);
    forall x | x in ids && x in g ensures x in r.ordered {
      assert x in r.visited;
    }
  }

  // ----- Main results: order ------------------------------------------------

  /** `v` is placed before `u`, or the two lie on a common cycle. */
  ghost predicate DependenciesFirst(g: Groups, ordered: seq<string>) {
    forall i, v | 0 <= i < |ordered| && Edge(g, ordered[i], v) ::
      v in ordered[..i] || Reaches(g, v, ordered[i])
  }

  /** Every open group reaches the ids about to be visited. */
  ghost predicate OpenReach(g: Groups, w: Walk, ids: seq<string>) {
    forall s, x | s in w.visiting && x in ids && x in g :: Reaches(g, s, x)
  }

  lemma {:induction false} VisitOrders(g: Groups, w: Walk, id: string)
    requires Consistent(g, w) && DependenciesFirst(g, w.ordered) && OpenReach(g, w, [id])
    ensures DependenciesFirst(g, Visit(g, w, id).ordered)
    decreases Unseen(g, w), 0
  {
    if id !in w.visited && id !in w.visiting && id in g {
      var entered := w.(visiting := w.visiting + {id});
      var deps := Deps(g, id);
      EdgesOf(g, id);
      forall s, x | s in entered.visiting && x in deps && x in g ensures Reaches(g, s, x) {
        ReachesSelf(g, id);
        assert id in [id];
        ReachesStep(g, s, id, x);
      }
      assert id in Unseen(g, w);
      VisitAllKeeps(g, entered, deps);
      VisitAllOrders(g, entered, deps);
      var inner := VisitAll(g, entered, deps);
      var r := inner.ordered + [id];
      forall i, v | 0 <= i < |r| && Edge(g, r[i], v)
        ensures v in r[..i] || Reaches(g, v, r[i])
      {
        if i < |inner.ordered| {
          assert r[..i] == inner.ordered[..i] && r[i] == inner.ordered[i];
        } else {
          assert r[..i] == inner.ordered;
          if v in inner.visited {
            assert v in inner.ordered;
          } else {
            assert v in entered.visiting;
            ReachesSelf(g, id);
            assert id in [id];
          }
        }
      }
    }
  }

  lemma {:induction false} VisitAllOrders(g: Groups, w: Walk, ids: seq<string>)
    requires Consistent(g, w) && DependenciesFirst(g, w.ordered) && OpenReach(g, w, ids)
    ensures DependenciesFirst(g, VisitAll(g, w, ids).ordered)
    decreases Unseen(g, w), 1, |ids|
  {
    if ids != [] {
      assert OpenReach(g, w, [ids[0]]) by {
        assert ids[0] in ids;
      }
      VisitKeeps(g, w, ids[0]);
      VisitOrders(g, w, ids[0]);
      VisitAllOrders(g, Visit(g, w, ids[0]), ids[1..]);
    }
  }

  /** For every dependency edge in the output, the dependency comes first unless
      it also reaches its dependent. */
  lemma ResolveOrder(g: Groups, ids: seq<string>)
    ensures DependenciesFirst(g, Resolve(g, ids))
  {
    VisitAllOrders(g, START, ids);
  }

  // ----- Main results: extension and idempotence ----------------------------

  lemma {:induction false} VisitAllSplit(g: Groups, w: Walk, xs: seq<string>, ys: seq<string>)
    ensures VisitAll(g, w, xs + ys) == VisitAll(g, VisitAll(g, w, xs), ys)
    decreases |xs|
  {
    if xs == [] {
      assert xs + ys == ys;
    } else {
      assert (xs + ys)[1..] == xs[1..] + ys;
      VisitAllSplit(g, Visit(g, w, xs[0]), xs[1..], ys);
    }
  }

  /** `a` stands before `b`. */
  ghost predicate Before(xs: seq<string>, a: string, b: string) {
    exists i, j | 0 <= i < j < |xs| :: xs[i] == a && xs[j] == b
  }

  lemma BeforeBySplit(xs: seq<string>, ys: seq<string>, a: string, b: string)
    requires xs <= ys && a in xs && b in ys && b !in xs
    ensures Before(ys, a, b)
  {
    var i :| 0 <= i < |xs| && xs[i] == a;
    var j :| 0 <= j < |ys| && ys[j] == b;
    assert ys[i] == a && !(j < |xs|);
  }

  /** What no id of the list reaches stays unvisited. */
  lemma Unreached(g: Groups, w: Walk, ids: seq<string>, b: string)
    requires b !in w.visited && forall x | x in ids :: !Reaches(g, x, b)
    ensures b !in VisitAll(g, w, ids).visited
  {
    var c := set x | x in g && Requested(g, ids, x);
    forall u, v | u in c && Edge(g, u, v) ensures v in c {
      var y :| y in ids && Reaches(g, y, u);
      ReachesStep(g, y, u, v);
    }
    forall x | x in ids && x in g ensures x in c {
      ReachesSelf(g, x);
    }
    VisitAllWithin(g, w, ids, c);
  }

  /** Of two new groups in a list, the one listed first comes out first, if nothing
      listed up to it reaches the other. */
  lemma ListedInOrder(g: Groups, w: Walk, xs: seq<string>, ys: seq<string>, a: string, b: string)
    requires Consistent(g, w) && a in xs && b in xs + ys && a in g && b in g
    requires a !in w.visited + w.visiting && b !in w.visited + w.visiting
    requires forall x | x in xs :: !Reaches(g, x, b)
    ensures Before(VisitAll(g, w, xs + ys).ordered, a, b)
  {
    var half := VisitAll(g, w, xs);
    VisitAllSplit(g, w, xs, ys);
    VisitAllKeeps(g, w, xs);
    VisitAllKeeps(g, half, ys);
    VisitAllKeeps(g, w, xs + ys);
    Unreached(g, w, xs, b);
    var r := VisitAll(g, w, xs + ys);
    assert a in half.visited && b !in half.visited && b in r.visited;
    assert half.visited == Elements(half.ordered) && r.visited == Elements(r.ordered);
    BeforeBySplit(half.ordered, r.ordered, a, b);
  }

  /** Of two requested groups, the one requested first comes out first, if nothing
      requested up to it reaches the other. */
  lemma RequestsInOrder(g: Groups, ids: seq<string>, i: nat, j: nat)
    requires i < j < |ids| && ids[i] in g && ids[j] in g
    requires forall k | 0 <= k <= i :: !Reaches(g, ids[k], ids[j])
    ensures Before(Resolve(g, ids), ids[i], ids[j])
  {
    var xs, ys := ids[..i + 1], ids[i + 1..];
    assert ids == xs + ys && xs[i] == ids[i] && ids[j] in ids;
    ListedInOrder(g, START, xs, ys, ids[i], ids[j]);
  }

  /** Of two dependencies of a group that the walk has not met yet, the one the manifest
      lists first comes out first, if nothing the group lists up to it reaches the other. */
  lemma {:induction false} DependenciesInOrder(g: Groups, w: Walk, u: string, i: nat, j: nat)
    requires Consistent(g, w) && u in g && u !in w.visited + w.visiting
    requires i < j < |g[u].dependsOn|
    requires var a, b := Trim(g[u].dependsOn[i]), Trim(g[u].dependsOn[j]);
      && a != "" && a in g && a != u && a !in w.visited + w.visiting
      && b != "" && b in g && b != u && b !in w.visited + w.visiting
      && forall k | 0 <= k <= i :: !Reaches(g, Trim(g[u].dependsOn[k]), b)
    ensures Before(Visit(g, w, u).ordered, Trim(g[u].dependsOn[i]), Trim(g[u].dependsOn[j]))
  {
    var a, b := Trim(g[u].dependsOn[i]), Trim(g[u].dependsOn[j]);
    var xs, ys := CleanedFront(g[u].dependsOn, i, j);
    forall x | x in xs ensures !Reaches(g, x, b) {
      CleanedFrom(g[u].dependsOn[..i + 1], x);
    }
    var entered := w.(visiting := w.visiting + {u});
    ListedInOrder(g, entered, xs, ys, a, b);
    BeforeStays(VisitAll(g, entered, Deps(g, u)).ordered, u, a, b);
  }

  lemma BeforeStays(xs: seq<string>, u: string, a: string, b: string)
    requires Before(xs, a, b)
    ensures Before(xs + [u], a, b)
  {
    var p, q :| 0 <= p < q < |xs| && xs[p] == a && xs[q] == b;
    assert (xs + [u])[p] == a && (xs + [u])[q] == b;
  }

  /** Cleaning up a list cleans up its front part first. */
  lemma CleanedFront(raw: seq<string>, i: nat, j: nat) returns (xs: seq<string>, ys: seq<string>)
    requires i < j < |raw| && Trim(raw[i]) != "" && Trim(raw[j]) != ""
    ensures Normalized(raw) == xs + ys && xs == Normalized(raw[..i + 1])
    ensures Trim(raw[i]) in xs && Trim(raw[j]) in xs + ys
  {
    var front := raw[..i + 1];
    assert raw == front + raw[i + 1..];
    NormalizedAppend(front, raw[i + 1..]);
    xs := Normalized(front);
    ys := Normalized(raw)[|xs|..];
    ItemCleaned(front, i);
    ItemCleaned(raw, j);
  }

  lemma ItemCleaned(raw: seq<string>, i: nat)
    requires i < |raw| && Trim(raw[i]) != ""
    ensures Trim(raw[i]) in Normalized(raw)
  {
    assert raw[i] in raw;
    NormalizedItems(raw, Trim(raw[i]));
  }

  lemma CleanedFrom(front: seq<string>, x: string)
    requires x in Normalized(front)
    ensures exists k | 0 <= k < |front| :: Trim(front[k]) == x
  {
    NormalizedItems(front, x);
    var y :| y in front && Trim(y) == x;
  }

  /** The same for one more request after others that reach none of the three groups. */
  lemma ResolvedInOrder(g: Groups, ids: seq<string>, u: string, i: nat, j: nat)
    requires u in g && !Requested(g, ids, u) && i < j < |g[u].dependsOn|
    requires var a, b := Trim(g[u].dependsOn[i]), Trim(g[u].dependsOn[j]);
      && a != "" && a in g && a != u && !Requested(g, ids, a)
      && b != "" && b in g && b != u && !Requested(g, ids, b)
      && forall k | 0 <= k <= i :: !Reaches(g, Trim(g[u].dependsOn[k]), b)
    ensures Before(Resolve(g, ids + [u]), Trim(g[u].dependsOn[i]), Trim(g[u].dependsOn[j]))
  {
    ResolveIsReachability(g, ids);
    VisitAllKeeps(g, START, ids);
    VisitAllSplit(g, START, ids, [u]);
    var w := VisitAll(g, START, ids);
    assert w.visited == Elements(w.ordered) && w.ordered == Resolve(g, ids);
    assert VisitAll(g, w, [u]) == Visit(g, w, u);
    DependenciesInOrder(g, w, u, i, j);
  }

  /** Asking for more never reorders or drops what was resolved before. */
  lemma ResolveExtends(g: Groups, xs: seq<string>, ys: seq<string>)
    ensures Resolve(g, xs) <= Resolve(g, xs + ys)
  {
    VisitAllSplit(g, START, xs, ys);
    VisitAllKeeps(g, START, xs);
    VisitAllKeeps(g, VisitAll(g, START, xs), ys);
  }

  /** A duplicate-free list of supported groups whose dependencies never come later. */
  ghost predicate Topological(g: Groups, ids: seq<string>) {
    && NoDuplicates(ids)
    && (forall x | x in ids :: x in g)
    && (forall i, v | 0 <= i < |ids| && Edge(g, ids[i], v) :: v in ids[..i + 1])
  }

  lemma {:induction false} VisitAllSettled(g: Groups, w: Walk, ids: seq<string>)
    requires forall x | x in ids && x in g :: x in w.visited + w.visiting
    ensures VisitAll(g, w, ids) == w
    decreases |ids|
  {
    if ids != [] {
      assert ids[0] in ids;
      VisitAllSettled(g, w, ids[1..]);
    }
  }

  /** Visiting a group all of whose dependencies are settled just appends it. */
  lemma VisitReady(g: Groups, w: Walk, id: string)
    requires id in g && id !in w.visited && id !in w.visiting
    requires forall v | Edge(g, id, v) :: v in w.visited || v == id
    ensures Visit(g, w, id) == Walk(w.ordered + [id], w.visiting, w.visited + {id})
  {
    var entered := w.(visiting := w.visiting + {id});
    EdgesOf(g, id);
    forall v | v in Deps(g, id) && v in g ensures v in entered.visited + entered.visiting {
      assert Edge(g, id, v);
    }
    VisitAllSettled(g, entered, Deps(g, id));
    assert entered.visiting - {id} == w.visiting;
  }

  lemma TopologicalPrefix(g: Groups, ids: seq<string>)
    requires ids != [] && Topological(g, ids)
    ensures Topological(g, ids[..|ids| - 1])
  {
    var init := ids[..|ids| - 1];
    forall i, v | 0 <= i < |init| && Edge(g, init[i], v) ensures v in init[..i + 1] {
      assert init[..i + 1] == ids[..i + 1] && init[i] == ids[i];
    }
  }

  lemma {:induction false} TopologicalIsFixed(g: Groups, ids: seq<string>)
    requires Topological(g, ids)
    ensures VisitAll(g, START, ids) == Walk(ids, {}, Elements(ids))
    decreases |ids|
  {
    if ids != [] {
      var init, last := ids[..|ids| - 1], ids[|ids| - 1];
      assert ids == init + [last];
      TopologicalPrefix(g, ids);
      TopologicalIsFixed(g, init);
      VisitAllSplit(g, START, init, [last]);
      var w := Walk(init, {}, Elements(init));
      assert VisitAll(g, w, [last]) == Visit(g, w, last);
      forall v | Edge(g, last, v) ensures v in w.visited || v == last {
        assert v in ids[..|ids| - 1 + 1];
      }
      VisitReady(g, w, last);
      assert Elements(ids) == Elements(init) + {last};
    }
  }

  lemma {:induction false} FixedIsTopological(g: Groups, ids: seq<string>)
    requires Resolve(g, ids) == ids
    ensures Topological(g, ids)
  {
    VisitAllKeeps(g, START, ids);
    var r := VisitAll(g, START, ids);
    forall x | x in ids ensures x in g {
      assert x in Elements(ids) && Elements(ids) == r.visited;
    }
    forall i, v | 0 <= i < |ids| && Edge(g, ids[i], v) ensures v in ids[..i + 1] {
      var xs := ids[..i + 1];
      assert ids == xs + ids[i + 1..];
      VisitAllKeeps(g, START, xs);
      ResolveExtends(g, xs, ids[i + 1..]);
      var part := VisitAll(g, START, xs);
      assert part.ordered <= ids;
      PrefixLength(g, ids, i);
      assert ids[i] in xs && ids[i] in part.visited;
      assert v in part.visited;
    }
  }

  /** Visiting an unseen group puts it at the end. */
  lemma VisitLast(g: Groups, w: Walk, id: string)
    requires Consistent(g, w) && id in g && id !in w.ordered && w.visiting == {}
    ensures var r := Visit(g, w, id);
      r.ordered != [] && r.ordered[|r.ordered| - 1] == id
  {
    assert id !in w.visited by {
      assert w.visited == Elements(w.ordered);
    }
  }

  /** A duplicate-free list has one prefix that ends in a given item of it. */
  lemma PrefixEnd(xs: seq<string>, part: seq<string>, i: nat)
    requires NoDuplicates(xs) && i < |xs| && part <= xs && part != [] && part[|part| - 1] == xs[i]
    ensures part == xs[..i + 1]
  {
    assert xs[|part| - 1] == xs[i];
  }

  /** When a list resolves to itself, each request adds exactly one group. */
  lemma {:induction false} PrefixLength(g: Groups, ids: seq<string>, i: nat)
    requires Resolve(g, ids) == ids && i < |ids|
    ensures Resolve(g, ids[..i + 1]) == ids[..i + 1]
  {
    if i > 0 {
      PrefixLength(g, ids, i - 1);
      assert ids[..i - 1 + 1] == ids[..i];
    } else {
      assert ids[..0] == [];
    }
    PrefixStep(g, ids, i);
  }

  lemma PrefixStep(g: Groups, ids: seq<string>, i: nat)
    requires Resolve(g, ids) == ids && i < |ids| && Resolve(g, ids[..i]) == ids[..i]
    ensures Resolve(g, ids[..i + 1]) == ids[..i + 1]
  {
    var before, xs := ids[..i], ids[..i + 1];
    assert ids == xs + ids[i + 1..] && xs == before + [ids[i]];
    NoRepeats(g, ids, i);
    ResolveExtends(g, xs, ids[i + 1..]);
    var w := VisitAll(g, START, before);
    VisitAllKeeps(g, START, before);
    VisitAllSplit(g, START, before, [ids[i]]);
    assert VisitAll(g, w, [ids[i]]) == Visit(g, w, ids[i]);
    VisitLast(g, w, ids[i]);
    PrefixEnd(ids, Resolve(g, xs), i);
  }

  lemma NoRepeats(g: Groups, ids: seq<string>, i: nat)
    requires Resolve(g, ids) == ids && i < |ids|
    ensures NoDuplicates(ids) && ids[i] in g && ids[i] !in ids[..i]
  {
    VisitAllKeeps(g, START, ids);
    assert ids[i] in Elements(ids);
  }

  /** A list is left as it is exactly when it is a topological listing. */
  lemma ResolveFixedPoints(g: Groups, ids: seq<string>)
    ensures Resolve(g, ids) == ids <==> Topological(g, ids)
  {
    if Topological(g, ids) {
      TopologicalIsFixed(g, ids);
    }
    if Resolve(g, ids) == ids {
      FixedIsTopological(g, ids);
    }
  }

  /** No two distinct groups reachable from the request depend on each other. */
  ghost predicate AcyclicFrom(g: Groups, ids: seq<string>) {
    forall u, v | Requested(g, ids, u) && Edge(g, u, v) && u != v :: !Reaches(g, v, u)
  }

  lemma PathTail(g: Groups, p: seq<string>)
    requires IsPath(g, p) && |p| > 1
    ensures Edge(g, p[0], p[1]) && IsPath(g, p[1..])
  {
    forall i | 0 <= i < |p[1..]| - 1 ensures Edge(g, p[1..][i], p[1..][i + 1]) {
      assert Edge(g, p[i + 1], p[i + 1 + 1]);
    }
  }

  lemma EdgeGoesBack(g: Groups, ids: seq<string>, i: nat, v: string) returns (j: nat)
    requires Topological(g, ids) && i < |ids| && Edge(g, ids[i], v)
    ensures j <= i && ids[j] == v
  {
    assert v in ids[..i + 1];
    j :| 0 <= j < i + 1 && ids[..i + 1][j] == v;
  }

  /** In a topological listing, whatever a group reaches stands no later. */
  lemma {:induction false} PathsGoBack(g: Groups, ids: seq<string>, p: seq<string>, i: nat, k: nat)
    requires Topological(g, ids) && IsPath(g, p) && i < |ids| && k < |ids|
    requires p[0] == ids[i] && p[|p| - 1] == ids[k]
    ensures k <= i
    decreases |p|
  {
    if |p| > 1 {
      PathTail(g, p);
      var j := EdgeGoesBack(g, ids, i, p[1]);
      PathsGoBack(g, ids, p[1..], j, k);
    } else {
      assert ids[i] == ids[k];
    }
  }

  lemma EarlierOrSelf(g: Groups, ids: seq<string>, i: nat, v: string)
    requires AcyclicFrom(g, ids) && i < |Resolve(g, ids)| && Edge(g, Resolve(g, ids)[i], v)
    ensures v in Resolve(g, ids)[..i + 1]
  {
    var out := Resolve(g, ids);
    ResolveIsReachability(g, ids);
    ResolveOrder(g, ids);
    assert out[i] in out && Requested(g, ids, out[i]);
    assert out[..i + 1] == out[..i] + [out[i]];
    assert v in out[..i] || Reaches(g, v, out[i]);
  }

  /** On a request without cycles the output is a topological order. */
  lemma AcyclicIsTopological(g: Groups, ids: seq<string>)
    requires AcyclicFrom(g, ids)
    ensures Topological(g, Resolve(g, ids))
  {
    var out := Resolve(g, ids);
    VisitAllKeeps(g, START, ids);
    forall i, v | 0 <= i < |out| && Edge(g, out[i], v) ensures v in out[..i + 1] {
      EarlierOrSelf(g, ids, i, v);
    }
    forall x | x in out ensures x in g {
      assert x in Elements(out);
    }
  }

  lemma TopologicalIsAcyclic(g: Groups, ids: seq<string>, u: string, v: string)
    requires Topological(g, Resolve(g, ids))
    requires Requested(g, ids, u) && Edge(g, u, v) && u != v
    ensures !Reaches(g, v, u)
  {
    var out := Resolve(g, ids);
    ResolveIsReachability(g, ids);
    var i :| 0 <= i < |out| && out[i] == u;
    var j := EdgeGoesBack(g, out, i, v);
    forall p | Joins(g, p, v, u) ensures false {
      PathsGoBack(g, out, p, j, i);
    }
  }

  /** Resolving twice changes nothing exactly when the part of the graph that the
      request reaches has no cycle through two groups. */
  lemma ResolveIdempotentIff(g: Groups, ids: seq<string>)
    ensures Resolve(g, Resolve(g, ids)) == Resolve(g, ids) <==> AcyclicFrom(g, ids)
  {
    ResolveFixedPoints(g, Resolve(g, ids));
    if AcyclicFrom(g, ids) {
      AcyclicIsTopological(g, ids);
    }
    if Topological(g, Resolve(g, ids)) {
      forall u, v | Requested(g, ids, u) && Edge(g, u, v) && u != v ensures !Reaches(g, v, u) {
        TopologicalIsAcyclic(g, ids, u, v);
      }
    }
  }

  /** The smallest cyclic graph, on which the resolver is not idempotent. */
  lemma {:induction false} CycleFlips(g: Groups, a: Group, b: Group)
    requires a.dependsOn == ["b"] && b.dependsOn == ["a"]
    requires g == map["a" := a, "b" := b]
    ensures Resolve(g, ["a"]) == ["b", "a"] && Resolve(g, ["b", "a"]) == ["a", "b"]
    ensures !AcyclicFrom(g, ["a"])
  {
    NormalizedClean(["a"]);
    NormalizedClean(["b"]);
    var wa, wb := START.(visiting := {"a"}), START.(visiting := {"b"});
    var wab := START.(visiting := {"a", "b"});
    assert wa.(visiting := wa.visiting + {"b"}) == wab && wb.(visiting := wb.visiting + {"a"}) == wab;
    VisitAllSettled(g, wab, ["a"]);
    VisitAllSettled(g, wab, ["b"]);
    assert Visit(g, wa, "b") == Walk(["b"], {"a"}, {"b"});
    assert Visit(g, wb, "a") == Walk(["a"], {"b"}, {"a"});
    assert VisitAll(g, wa, ["b"]) == Visit(g, wa, "b");
    assert VisitAll(g, wb, ["a"]) == Visit(g, wb, "a");
    assert Visit(g, START, "a") == Walk(["b", "a"], {}, {"a", "b"});
    assert Visit(g, START, "b") == Walk(["a", "b"], {}, {"a", "b"});
    assert VisitAll(g, START, ["a"]) == Visit(g, START, "a");
    VisitAllSettled(g, Walk(["a", "b"], {}, {"a", "b"}), ["a"]);
    assert ["b", "a"][1..] == ["a"];
    assert VisitAll(g, START, ["b", "a"]) == VisitAll(g, Visit(g, START, "b"), ["a"]);
    ResolveIdempotentIff(g, ["a"]);
  }

  /** Embedded apply asks for the desired list with one more group at the end.
      Nothing desired is dropped; when the desired list is itself a resolver
      result for an acyclic request, it also keeps its order. */
  lemma AppendedGroup(g: Groups, ids: seq<string>, extra: string)
    ensures var desired := Resolve(g, ids);
      && Elements(desired) <= Elements(Resolve(g, desired + [extra]))
      && (AcyclicFrom(g, ids) ==> desired <= Resolve(g, desired + [extra]))
  {
    var desired := Resolve(g, ids);
    VisitAllKeeps(g, START, ids);
    ResolveIdempotentIff(g, ids);
    ResolveExtends(g, desired, [extra]);
    forall x | x in desired ensures x in Resolve(g, desired + [extra]) {
      assert x in Elements(desired) && x in desired + [extra];
      VisitAllKeeps(g, START, desired + [extra]);
      var r := VisitAll(g, START, desired + [extra]);
      assert x in r.visited;
    }
  }
}
