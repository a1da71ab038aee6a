/** What the policy cache means: after any history of messages it answers by the
    last word spoken on each token, grant id and consumer, and the answer does not
    depend on orders that retained delivery does not fix. */
module PolicyHistory {
  import opened PolicyCache

  // ----- Last-writer reading ------------------------------------------------

  predicate RevokesJti(m: Message, jti: string) {
    m.Revoke? && jti != "" && m.jti == jti
  }

  predicate RevokesId(m: Message, id: string) {
    (m.Withdraw? || m.Revoke?) && id != "" && m.grantId == id
  }

  predicate RestoresId(m: Message, id: string) {
    m.Give? && id != "" && m.grant.grantId == id
  }

  predicate RevokesConsumer(m: Message, c: string) {
    m.Revoke? && c != "" && m.consumer == c
  }

  predicate Grants(m: Message, c: string) {
    m.Give? && m.grant.consumer == c
  }

  /** The message puts an end to a grant held by `c` under `id`. */
  predicate Displaces(m: Message, c: string, id: string) {
    Grants(m, c) || (m.Withdraw? && m.consumer == c) || RevokesConsumer(m, c) ||
    (m.Revoke? && id != "" && m.grantId == id)
  }

  ghost predicate JtiRevoked(h: seq<Message>, jti: string) {
    exists i | 0 <= i < |h| :: RevokesJti(h[i], jti)
  }

  ghost predicate IdRevoked(h: seq<Message>, id: string) {
    exists i | 0 <= i < |h| :: RevokesId(h[i], id) && forall j | i < j < |h| :: !RestoresId(h[j], id)
  }

  ghost predicate ConsumerRevoked(h: seq<Message>, c: string) {
    exists i | 0 <= i < |h| :: RevokesConsumer(h[i], c) && forall j | i < j < |h| :: !Grants(h[j], c)
  }

  /** Grant `g` was given to `c` and nothing later displaced it. */
  ghost predicate Standing(h: seq<Message>, c: string, g: Grant) {
    g.consumer == c &&
    exists i | 0 <= i < |h| :: h[i] == Give(g) && forall j | i < j < |h| :: !Displaces(h[j], c, g.grantId)
  }

  // ----- One bit of the cache, followed through a history --------------------

  lemma {:induction false} JtiBit(s: Cache, h: seq<Message>, jti: string)
    ensures jti in Fold(s, h).revokedJti <==> JtiRevoked(h, jti) || jti in s.revokedJti
  {
    if h != [] {
      JtiBit(s, h[..|h| - 1], jti);
    }
  }

  ghost predicate IdUntouched(h: seq<Message>, id: string) {
    forall j | 0 <= j < |h| :: !RestoresId(h[j], id)
  }

  lemma {:induction false} IdBit(s: Cache, h: seq<Message>, id: string)
    ensures id in Fold(s, h).revokedGrantIds <==> IdRevoked(h, id) || (id in s.revokedGrantIds && IdUntouched(h, id))
  {
    if h != [] {
      var init := h[..|h| - 1];
      IdBit(s, init, id);
      if IdRevoked(init, id) && !RestoresId(h[|h| - 1], id) {
        var i :| 0 <= i < |init| && RevokesId(init[i], id) && forall j | i < j < |init| :: !RestoresId(init[j], id);
        assert RevokesId(h[i], id) && forall j | i < j < |h| :: !RestoresId(h[j], id);
      }
      if IdRevoked(h, id) && !RevokesId(h[|h| - 1], id) {
        var i :| 0 <= i < |h| && RevokesId(h[i], id) && forall j | i < j < |h| :: !RestoresId(h[j], id);
        assert RevokesId(init[i], id) && forall j | i < j < |init| :: !RestoresId(init[j], id);
      }
    }
  }

  ghost predicate ConsumerUntouched(h: seq<Message>, c: string) {
    forall j | 0 <= j < |h| :: !Grants(h[j], c)
  }

  lemma {:induction false} ConsumerBit(s: Cache, h: seq<Message>, c: string)
    ensures c in Fold(s, h).revokedConsumers <==>
      ConsumerRevoked(h, c) || (c in s.revokedConsumers && ConsumerUntouched(h, c))
  {
    if h != [] {
      var init := h[..|h| - 1];
      ConsumerBit(s, init, c);
      if ConsumerRevoked(init, c) && !Grants(h[|h| - 1], c) {
        var i :| 0 <= i < |init| && RevokesConsumer(init[i], c) && forall j | i < j < |init| :: !Grants(init[j], c);
        assert RevokesConsumer(h[i], c) && forall j | i < j < |h| :: !Grants(h[j], c);
      }
      if ConsumerRevoked(h, c) && !RevokesConsumer(h[|h| - 1], c) {
        var i :| 0 <= i < |h| && RevokesConsumer(h[i], c) && forall j | i < j < |h| :: !Grants(h[j], c);
        assert RevokesConsumer(init[i], c) && forall j | i < j < |init| :: !Grants(init[j], c);
      }
    }
  }

  ghost predicate Undisplaced(h: seq<Message>, c: string, id: string) {
    forall j | 0 <= j < |h| :: !Displaces(h[j], c, id)
  }

  ghost predicate Holds(s: Cache, c: string, g: Grant) {
    c in s.grants && s.grants[c] == g
  }

  lemma GrantStep(s: Cache, m: Message, c: string, g: Grant)
    ensures Holds(Step(s, m), c, g) <==>
      (m == Give(g) && g.consumer == c) || (Holds(s, c, g) && !Displaces(m, c, g.grantId))
  {
  }

  lemma StandingStep(init: seq<Message>, m: Message, c: string, g: Grant)
    ensures Standing(init + [m], c, g) <==>
      (m == Give(g) && g.consumer == c) || (Standing(init, c, g) && !Displaces(m, c, g.grantId))
  {
    var h := init + [m];
    if m == Give(g) {
      assert h[|init|] == Give(g);
    }
    if Standing(init, c, g) && !Displaces(m, c, g.grantId) {
      var i :| 0 <= i < |init| && init[i] == Give(g) && forall j | i < j < |init| :: !Displaces(init[j], c, g.grantId);
      assert h[i] == Give(g) && forall j | i < j < |h| :: !Displaces(h[j], c, g.grantId);
    }
    if Standing(h, c, g) && m != Give(g) {
      var i :| 0 <= i < |h| && h[i] == Give(g) && forall j | i < j < |h| :: !Displaces(h[j], c, g.grantId);
      assert init[i] == Give(g) && forall j | i < j < |init| :: !Displaces(init[j], c, g.grantId) by {
        assert forall j | 0 <= j < |init| :: init[j] == h[j];
      }
      assert !Displaces(h[|init|], c, g.grantId);
    }
  }

  lemma {:induction false} GrantBit(s: Cache, h: seq<Message>, c: string, g: Grant)
    ensures Holds(Fold(s, h), c, g) <==> Standing(h, c, g) || (Holds(s, c, g) && Undisplaced(h, c, g.grantId))
  {
    if h != [] {
      var init := h[..|h| - 1];
      GrantBit(s, init, c, g);
      GrantStep(Fold(s, init), h[|h| - 1], c, g);
      StandingStep(init, h[|h| - 1], c, g);
      assert h == init + [h[|h| - 1]];
    }
  }

  // ----- Main results -------------------------------------------------------

  lemma StandingNotRevoked(h: seq<Message>, c: string, g: Grant)
    requires Standing(h, c, g)
    ensures !ConsumerRevoked(h, c)
  {
    var i :| 0 <= i < |h| && h[i] == Give(g) && forall j | i < j < |h| :: !Displaces(h[j], c, g.grantId);
    forall k | 0 <= k < |h| && RevokesConsumer(h[k], c) ensures exists j | k < j < |h| :: Grants(h[j], c) {
      assert k > i ==> !Displaces(h[k], c, g.grantId);
      assert Grants(h[i], c);
    }
  }

  /** By the last word on each token, grant id and consumer, the caller has a live grant
      in scope. */
  ghost predicate LastWordAllows(h: seq<Message>, serviceName: string, claims: Claims, scope: string) {
    && claims.sub != "anonymous" && scope in claims.scopes && !JtiRevoked(h, claims.jti)
    && exists g ::
         && Standing(h, claims.sub, g)
         && g.status == "active"
         && !IdRevoked(h, g.grantId)
         && g.service in {"", serviceName}
         && (g.scopes == {} || scope in g.scopes)
  }

  /** The cache allows a request exactly when its history, read by last writer, does. */
  lemma AuthorizeIsLastWriter(h: seq<Message>, serviceName: string, claims: Claims, scope: string)
    ensures Allows(Fold(EMPTY, h), serviceName, claims, scope) <==> LastWordAllows(h, serviceName, claims, scope)
  {
    var s, c := Fold(EMPTY, h), claims.sub;
    JtiBit(EMPTY, h, claims.jti);
    ConsumerBit(EMPTY, h, c);
    if c in s.grants {
      var g := s.grants[c];
      GrantBit(EMPTY, h, c, g);
      IdBit(EMPTY, h, g.grantId);
      assert Standing(h, c, g);
      StandingNotRevoked(h, c, g);
    }
    forall g | Standing(h, c, g) ensures Holds(s, c, g) {
      GrantBit(EMPTY, h, c, g);
    }
  }

  /** A caller whose grant still stands can be shut out through its grant id only by
      a withdrawal that names the same id for another consumer. */
  lemma SharedIdWithdrawal(h: seq<Message>, c: string, g: Grant)
    requires Standing(h, c, g) && IdRevoked(h, g.grantId)
    ensures exists k | 0 <= k < |h| :: h[k].Withdraw? && h[k].consumer != c && h[k].grantId == g.grantId
  {
    var i :| 0 <= i < |h| && h[i] == Give(g) && forall j | i < j < |h| :: !Displaces(h[j], c, g.grantId);
    var k :| 0 <= k < |h| && RevokesId(h[k], g.grantId) && forall j | k < j < |h| :: !RestoresId(h[j], g.grantId);
    assert RestoresId(h[i], g.grantId);
    assert !Displaces(h[k], c, g.grantId);
  }

  lemma CacheExtensional(s: Cache, t: Cache)
    requires forall j :: j in s.revokedJti <==> j in t.revokedJti
    requires forall id :: id in s.revokedGrantIds <==> id in t.revokedGrantIds
    requires forall c :: c in s.revokedConsumers <==> c in t.revokedConsumers
    requires forall c, g :: Holds(s, c, g) <==> Holds(t, c, g)
    ensures s == t
  {
    forall c ensures c in s.grants <==> c in t.grants {
      if c in s.grants { assert Holds(t, c, s.grants[c]); }
      if c in t.grants { assert Holds(s, c, t.grants[c]); }
    }
    forall c | c in s.grants ensures s.grants[c] == t.grants[c] {
      assert Holds(t, c, s.grants[c]);
    }
    assert s.grants.Keys == t.grants.Keys;
    assert s.grants == t.grants;
    assert s.revokedJti == t.revokedJti;
    assert s.revokedGrantIds == t.revokedGrantIds;
    assert s.revokedConsumers == t.revokedConsumers;
  }

  /** Redelivering a whole history changes nothing, whatever the start state. */
  lemma ReplayIsNoOp(s: Cache, h: seq<Message>)
    ensures Fold(Fold(s, h), h) == Fold(s, h)
  {
    var once := Fold(s, h);
    forall j ensures j in Fold(once, h).revokedJti <==> j in once.revokedJti {
      JtiBit(once, h, j);
      JtiBit(s, h, j);
    }
    forall id ensures id in Fold(once, h).revokedGrantIds <==> id in once.revokedGrantIds {
      IdBit(once, h, id);
      IdBit(s, h, id);
    }
    forall c ensures c in Fold(once, h).revokedConsumers <==> c in once.revokedConsumers {
      ConsumerBit(once, h, c);
      ConsumerBit(s, h, c);
    }
    forall c, g ensures Holds(Fold(once, h), c, g) <==> Holds(once, c, g) {
      GrantBit(once, h, c, g);
      GrantBit(s, h, c, g);
    }
    CacheExtensional(Fold(once, h), once);
  }

  // ----- Order independence -------------------------------------------------

  /** A grant and a message that contradicts it. */
  predicate Clash(a: Message, b: Message) {
    a.Give? &&
    match b
    case Give(g) => g.consumer == a.grant.consumer && g != a.grant
    case Withdraw(c, id) => c == a.grant.consumer || (id != "" && id == a.grant.grantId)
    case Revoke(_, id, c) => (c != "" && c == a.grant.consumer) || (id != "" && id == a.grant.grantId)
    case Ignore => false
  }

  predicate Independent(a: Message, b: Message) {
    !Clash(a, b) && !Clash(b, a)
  }

  ghost predicate Commute(a: Message, b: Message) {
    forall s :: Step(Step(s, a), b) == Step(Step(s, b), a)
  }

  lemma IndependentGrants(s: Cache, a: Message, b: Message, c: string, g: Grant)
    requires Independent(a, b)
    ensures Holds(Step(Step(s, a), b), c, g) <==> Holds(Step(Step(s, b), a), c, g)
  {
    GrantStep(Step(s, a), b, c, g);
    GrantStep(s, a, c, g);
    GrantStep(Step(s, b), a, c, g);
    GrantStep(s, b, c, g);
  }

  lemma {:induction false} IndependentCommute(s: Cache, a: Message, b: Message)
    requires Independent(a, b)
    ensures Step(Step(s, a), b) == Step(Step(s, b), a)
  {
    var x, y := Step(Step(s, a), b), Step(Step(s, b), a);
    forall c, g ensures Holds(x, c, g) <==> Holds(y, c, g) {
      IndependentGrants(s, a, b, c, g);
    }
    CacheExtensional(x, y);
  }

  /** Two messages can be exchanged in every state exactly when neither is a grant
      that the other contradicts; in particular any two revocations commute. */
  lemma CommuteIffIndependent(a: Message, b: Message)
    ensures Commute(a, b) <==> Independent(a, b)
  {
    if Independent(a, b) {
      forall s ensures Step(Step(s, a), b) == Step(Step(s, b), a) {
        IndependentCommute(s, a, b);
      }
    }
    if Commute(a, b) {
      assert Step(Step(EMPTY, a), b) == Step(Step(EMPTY, b), a);
      if Clash(a, b) {
        ClashShows(a, b);
      }
      if Clash(b, a) {
        ClashShows(b, a);
      }
    }
  }

  /** Contradicting messages already differ on the empty cache. */
  lemma ClashShows(a: Message, b: Message)
    requires Clash(a, b)
    ensures Step(Step(EMPTY, a), b) != Step(Step(EMPTY, b), a)
  {
    var c, g := a.grant.consumer, a.grant;
    var x, y := Step(Step(EMPTY, a), b), Step(Step(EMPTY, b), a);
    GrantStep(Step(EMPTY, b), a, c, g);
    assert Holds(y, c, g);
    GrantStep(Step(EMPTY, a), b, c, g);
    if Holds(x, c, g) {
      assert g.grantId in x.revokedGrantIds && g.grantId !in y.revokedGrantIds;
    }
  }

  /** `p` and `q` are inverse permutations of the first `n` positions. */
  ghost predicate Inverse(p: seq<nat>, q: seq<nat>, n: nat) {
    && |p| == n && |q| == n
    && (forall k | 0 <= k < n :: p[k] < n && q[p[k]] == k)
    && (forall i | 0 <= i < n :: q[i] < n && p[q[i]] == i)
  }

  /** `p` lists the positions of `h` in the order of another delivery, `q` is its
      inverse; whenever two messages change places they are independent. */
  ghost predicate Reordering(h: seq<Message>, p: seq<nat>, q: seq<nat>) {
    && Inverse(p, q, |h|)
    && (forall k, l | 0 <= k < l < |p| && p[k] > p[l] :: Independent(h[p[k]], h[p[l]]))
  }

  function Reordered(h: seq<Message>, p: seq<nat>): seq<Message>
    requires forall k | 0 <= k < |p| :: p[k] < |h|
  {
    seq(|p|, k requires 0 <= k < |p| => h[p[k]])
  }

  lemma {:induction false} MoveToEnd(s: Cache, before: seq<Message>, m: Message, after: seq<Message>)
    requires forall x | x in after :: Independent(x, m)
    ensures Fold(s, before + [m] + after) == Step(Fold(s, before + after), m)
    decreases |after|
  {
    if after == [] {
      assert before + after == before;
      assert (before + [m] + after)[..|before|] == before;
    } else {
      var init, x := after[..|after| - 1], after[|after| - 1];
      MoveToEnd(s, before, m, init);
      var f := Fold(s, before + init);
      assert (before + [m] + after)[..|before| + |after|] == before + [m] + init;
      assert (before + after)[..|before| + |init|] == before + init;
      assert x in after;
      IndependentCommute(f, x, m);
    }
  }

  function Without<T>(h: seq<T>, i: nat): (r: seq<T>)
    requires i < |h|
    ensures |r| == |h| - 1
    ensures forall k | 0 <= k < |r| :: r[k] == h[if k < i then k else k + 1]
  {
    h[..i] + h[i + 1..]
  }

  /** Positions once position `at` is gone. */
  function Shift(k: nat, at: nat): nat {
    if k > at then k - 1 else k
  }

  function DropLast(p: seq<nat>): (r: seq<nat>)
    requires p != []
    ensures |r| == |p| - 1
    ensures forall k | 0 <= k < |r| :: r[k] == Shift(p[k], p[|p| - 1])
  {
    seq(|p| - 1, k requires 0 <= k < |p| - 1 => Shift(p[k], p[|p| - 1]))
  }

  lemma InverseShrinks(p: seq<nat>, q: seq<nat>, n: nat)
    requires Inverse(p, q, n) && n > 0
    ensures Inverse(DropLast(p), Without(q, p[n - 1]), n - 1)
    ensures forall k | 0 <= k < n - 1 :: p[k] != p[n - 1]
  {
    var at := p[n - 1];
    var p', q' := DropLast(p), Without(q, at);
    forall k | 0 <= k < n - 1 ensures p[k] != at && p'[k] < n - 1 && q'[p'[k]] == k {
      assert q[p[k]] == k && q[at] == n - 1;
    }
    forall i | 0 <= i < n - 1 ensures q'[i] < n - 1 && p'[q'[i]] == i {
      var j := if i < at then i else i + 1;
      assert q'[i] == q[j] && p[q[j]] == j && q[at] == n - 1;
    }
  }

  lemma SameMessage(h: seq<Message>, k: nat, at: nat)
    requires k < |h| && at < |h| && k != at
    ensures Shift(k, at) < |h| - 1 && Without(h, at)[Shift(k, at)] == h[k]
  {
  }

  /** Taking the last delivered message out of both orders leaves a reordering. */
  lemma ReorderingShrinks(h: seq<Message>, p: seq<nat>, q: seq<nat>)
    requires Reordering(h, p, q) && h != []
    ensures Reordering(Without(h, p[|p| - 1]), DropLast(p), Without(q, p[|p| - 1]))
  {
    var h', p' := Without(h, p[|p| - 1]), DropLast(p);
    InverseShrinks(p, q, |h|);
    forall k, l | 0 <= k < l < |p'| && p'[k] > p'[l] ensures Independent(h'[p'[k]], h'[p'[l]]) {
      StillIndependent(h, p, q, k, l);
      SameMessage(h, p[k], p[|p| - 1]);
      SameMessage(h, p[l], p[|p| - 1]);
    }
  }

  lemma ReorderedShrinks(h: seq<Message>, p: seq<nat>, q: seq<nat>)
    requires Inverse(p, q, |h|) && h != []
    ensures Inverse(DropLast(p), Without(q, p[|p| - 1]), |h| - 1)
    ensures Reordered(Without(h, p[|p| - 1]), DropLast(p)) == Reordered(h, p)[..|h| - 1]
  {
    var h', p' := Without(h, p[|p| - 1]), DropLast(p);
    InverseShrinks(p, q, |h|);
    forall k | 0 <= k < |p'| ensures h'[p'[k]] == h[p[k]] {
      SameMessage(h, p[k], p[|p| - 1]);
    }
  }

  lemma StillIndependent(h: seq<Message>, p: seq<nat>, q: seq<nat>, k: nat, l: nat)
    requires Reordering(h, p, q) && k < l < |p| && Shift(p[k], p[|p| - 1]) > Shift(p[l], p[|p| - 1])
    ensures Independent(h[p[k]], h[p[l]])
  {
    assert p[k] > p[l];
  }

  lemma LaterAreIndependent(h: seq<Message>, p: seq<nat>, q: seq<nat>, x: Message)
    requires Reordering(h, p, q) && h != [] && x in h[p[|p| - 1] + 1..]
    ensures Independent(x, h[p[|p| - 1]])
  {
    var n := |h| - 1;
    var j :| p[n] < j < |h| && h[j] == x;
    assert p[q[j]] == j && q[p[n]] == n;
    assert q[j] < n && p[q[j]] > p[n];
  }

  /** The message delivered last might as well have come last in `h`. */
  lemma LastDeliveredLast(s: Cache, h: seq<Message>, p: seq<nat>, q: seq<nat>)
    requires Reordering(h, p, q) && h != []
    ensures var at := p[|p| - 1];
      Fold(s, h) == Step(Fold(s, Without(h, at)), h[at])
  {
    var at := p[|p| - 1];
    var before, after := h[..at], h[at + 1..];
    forall x | x in after ensures Independent(x, h[at]) {
      LaterAreIndependent(h, p, q, x);
    }
    MoveToEnd(s, before, h[at], after);
    assert h == before + [h[at]] + after;
    assert Without(h, at) == before + after;
  }

  lemma FoldLast(s: Cache, h: seq<Message>)
    requires h != []
    ensures Fold(s, h) == Step(Fold(s, h[..|h| - 1]), h[|h| - 1])
  {
  }

  /** Every delivery order that keeps contradicting messages in order ends in the
      same cache state. */
  lemma {:induction false} ReorderingsAgree(s: Cache, h: seq<Message>, p: seq<nat>, q: seq<nat>)
    requires Reordering(h, p, q)
    ensures Fold(s, Reordered(h, p)) == Fold(s, h)
    decreases |h|
  {
    if h != [] {
      var at := p[|p| - 1];
      LastDeliveredLast(s, h, p, q);
      ReorderingShrinks(h, p, q);
      ReorderedShrinks(h, p, q);
      ReorderingsAgree(s, Without(h, at), DropLast(p), Without(q, at));
      FoldLast(s, Reordered(h, p));
    }
  }
}
