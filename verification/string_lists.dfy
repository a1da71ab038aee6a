/** The list clean-up shared by topic lists and optional-group lists. */
module StringLists {
  import opened Text

  ghost predicate NoDuplicates<T>(xs: seq<T>) {
    forall i, j | 0 <= i < j < |xs| :: xs[i] != xs[j]
  }

  function Elements<T>(xs: seq<T>): set<T> {
    set x | x in xs
  }

  /** What a cleaned list looks like: trimmed, non-blank, no duplicates. */
  ghost predicate Clean(xs: seq<string>) {
    NoDuplicates(xs) && forall x | x in xs :: x != "" && Trimmed(x)
  }

  function Normalized(xs: seq<string>): (r: seq<string>)
    ensures Clean(r)
  {
    if xs == [] then []
    else
      var init := xs[..|xs| - 1];
      var done := Normalized(init);
      var v := Trim(xs[|xs| - 1]);
      assert xs == init + [xs[|xs| - 1]];
      if v == "" || v in done then done else done + [v]
  }

  /** Nothing asked for gets lost: the list holds the trimmed non-blank items. */
  lemma {:induction false} NormalizedItems(xs: seq<string>, v: string)
    ensures v in Normalized(xs) <==> v != "" && exists x | x in xs :: Trim(x) == v
  {
    if xs != [] {
      var init, last := xs[..|xs| - 1], xs[|xs| - 1];
      assert xs == init + [last];
      NormalizedItems(init, v);
      if exists x | x in xs :: Trim(x) == v {
        var x :| x in xs && Trim(x) == v;
        assert x in init || x == last;
      }
    }
  }

  lemma CleanSplit(xs: seq<string>)
    requires Clean(xs) && xs != []
    ensures Clean(xs[..|xs| - 1]) && xs[|xs| - 1] !in xs[..|xs| - 1]
    ensures xs[|xs| - 1] != "" && Trimmed(xs[|xs| - 1])
  {
    var init := xs[..|xs| - 1];
    assert xs[|xs| - 1] in xs && forall x | x in init :: x in xs;
    forall i, j | 0 <= i < j < |init| ensures init[i] != init[j] {
      assert xs[i] != xs[j];
    }
    forall i | 0 <= i < |init| ensures init[i] != xs[|xs| - 1] {
      assert xs[i] != xs[|xs| - 1];
    }
  }

  lemma {:induction false} NormalizedClean(xs: seq<string>)
    requires Clean(xs)
    ensures Normalized(xs) == xs
  {
    if xs != [] {
      CleanSplit(xs);
      NormalizedClean(xs[..|xs| - 1]);
      assert xs == xs[..|xs| - 1] + [xs[|xs| - 1]];
    }
  }

  /** Cleaning up a longer list only appends, so items stand in the order in which they
      first occur. */
  lemma {:induction false} NormalizedAppend(xs: seq<string>, ys: seq<string>)
    ensures Normalized(xs) <= Normalized(xs + ys)
  {
    if ys == [] {
      assert xs + ys == xs;
    } else {
      var init := ys[..|ys| - 1];
      NormalizedAppend(xs, init);
      assert (xs + ys)[..|xs + ys| - 1] == xs + init;
    }
  }

  lemma NormalizedStep(items: seq<string>, i: nat)
    requires i < |items|
    ensures var done, v := Normalized(items[..i]), Trim(items[i]);
      Normalized(items[..i + 1]) == if v == "" || v in done then done else done + [v]
  {
    assert items[..i + 1][..i] == items[..i];
  }

  method NormalizeStringList(items: seq<string>) returns (normalized: seq<string>)
    ensures normalized == Normalized(items)
  {
    var seen: set<string> := {};
    normalized := [];
    for i := 0 to |items|
      invariant normalized == Normalized(items[..i])
      invariant forall x :: x in seen <==> x in normalized
    {
      NormalizedStep(items, i);
      var value := Trim(items[i]);
      if value == "" || value in seen {
        continue;
      }
      seen := seen + {value};
      normalized := normalized + [value];
    }
    assert items[..|items|] == items;
  }
}
