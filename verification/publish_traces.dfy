/** The bounded publish-trace log and the usage metrics aggregated from it. */
module PublishTraces {
  import opened Text
  import opened Wrappers

  datatype Outcome = Success | Denied | Error
  datatype Trace = Trace(operation: string, outcome: Outcome, addonId: Option<string>,
                         callerSub: Option<string>, topic: Option<string>)

  /** The last `n` items. */
  function Suffix<T>(xs: seq<T>, n: nat): (r: seq<T>)
    ensures |r| == if |xs| < n then |xs| else n
  {
    if |xs| <= n then xs else xs[|xs| - n..]
  }

  function Reverse<T>(xs: seq<T>): (r: seq<T>)
    ensures |r| == |xs| && forall i | 0 <= i < |xs| :: r[i] == xs[|xs| - 1 - i]
  {
    seq(|xs|, i requires 0 <= i < |xs| => xs[|xs| - 1 - i])
  }

  function Clamp(limit: int, max: nat): (n: nat)
    requires max >= 1
    ensures 1 <= n <= max
    ensures 1 <= limit <= max ==> n == limit
    ensures limit < 1 ==> n == 1
    ensures limit > max ==> n == max
  {
    if limit < 1 then 1 else if limit < max then limit else max
  }

  lemma SuffixAppend(xs: seq<Trace>, t: Trace, max: nat)
    requires max >= 1
    ensures Suffix(xs + [t], max) == Suffix(Suffix(xs, max) + [t], max)
  {
    if |xs| > max {
      assert xs[|xs| - max..] + [t] == (xs + [t])[|xs| - max..];
    }
  }

  /** Cutting off the oldest after every record keeps the newest of them all. */
  lemma KeptSuffix(log: seq<Trace>, t: Trace, lost: nat, max: nat)
    requires lost <= |log| && max >= 1
    ensures Suffix((log + [t])[lost..], max) == Suffix(Suffix(log[lost..], max) + [t], max)
  {
    assert (log + [t])[lost..] == log[lost..] + [t];
    SuffixAppend(log[lost..], t, max);
  }

  lemma SuffixOfSuffix(log: seq<Trace>, max: nat, n: nat)
    requires n <= max
    ensures Suffix(Suffix(log, max), n) == Suffix(log, n)
  {
  }

  lemma NewestFirst(data: seq<Trace>, n: nat, records: seq<Trace>)
    requires |records| == if |data| < n then |data| else n
    requires forall k | 0 <= k < |records| :: records[k] == data[|data| - 1 - k]
    ensures records == Reverse(Suffix(data, n))
  {
  }

  class TraceStore {
    const maxEntries: nat
    var data: seq<Trace>   // what the file holds
    ghost var log: seq<Trace>  // every record ever saved
    ghost var lost: nat        // how many of them no longer count

    constructor (maxEntries: int)
      ensures Valid() && data == [] && log == [] && lost == 0
      ensures this.maxEntries == if maxEntries < 25 then 25 else maxEntries
    {
      this.maxEntries := if maxEntries < 25 then 25 else maxEntries;
      data, log, lost := [], [], 0;
    }

    ghost predicate Valid()
      reads this
    {
      maxEntries >= 25 && lost <= |log| && data == Suffix(log[lost..], maxEntries)
    }

    method CutOff(records: seq<Trace>) returns (kept: seq<Trace>)
      ensures kept == Suffix(records, maxEntries)
    {
      kept := records;
      if |kept| > maxEntries {
        kept := kept[|kept| - maxEntries..];
      }
    }

    /** The record is in the file exactly when the save goes through. A read that raises
        counts as an empty file, and a save that breaks off leaves one, so both lose what
        was there, the first only together with a save. */
    method Append(t: Trace, misread: bool, save: Save) returns (ok: bool)
      requires Valid()
      modifies this
      ensures Valid() && ok == save.Saved?
      ensures log == if ok then old(log) + [t] else old(log)
      ensures lost == if save.Torn? || (ok && misread) then |old(log)| else old(lost)
    {
      ghost var from := if misread then |log| else lost;
      assert log[|log|..] == [];
      var found := if misread then [] else data;
      assert found == Suffix(log[from..], maxEntries);
      var kept := CutOff(found + [t]);
      match save {
        case Refused => return false;
        case Torn =>
          data, lost := [], |log|;
          return false;
        case Saved =>
          KeptSuffix(log, t, from, maxEntries);
          data, log, lost := kept, log + [t], from;
          return true;
      }
    }

    /** The loop over what the file holds, newest first. */
    method Newest(bounded: nat) returns (records: seq<Trace>)
      requires bounded >= 1
      ensures records == Reverse(Suffix(data, bounded))
    {
      records := [];
      var i := |data|;
      while i > 0
        invariant 0 <= i <= |data| && |records| == |data| - i && |records| < bounded
        invariant forall k | 0 <= k < |records| :: records[k] == data[|data| - 1 - k]
      {
        i := i - 1;
        records := records + [data[i]];
        if |records| >= bounded {
          break;
        }
      }
      NewestFirst(data, bounded, records);
    }

    /** Newest first, the last `Clamp(limit, max)` records of everything saved since the
        file was last lost; none when the read raises. */
    method ListRecent(limit: int, misread: bool) returns (records: seq<Trace>)
      requires Valid()
      ensures records == if misread then [] else Reverse(Suffix(log[lost..], Clamp(limit, maxEntries)))
    {
      if misread {
        return [];
      }
      var bounded := Clamp(limit, maxEntries);
      records := Newest(bounded);
      SuffixOfSuffix(log[lost..], maxEntries, bounded);
    }
  }

  // ----- Metrics ------------------------------------------------------------

  predicate IsPublish(t: Trace) {
    Contains(t.operation, "publish")
  }

  function OrElse(a: Option<string>, b: string): string {
    if a.Some? && a.value != "" then a.value else b
  }

  /** The addon a trace is booked on. */
  function AddonKey(t: Trace): string {
    var key := Trim(OrElse(t.addonId, OrElse(t.callerSub, "unknown")));
    if key == "" then "unknown" else key
  }

  function OnlyPublishes(ts: seq<Trace>): seq<Trace> {
    if ts == [] then []
    else OnlyPublishes(ts[..|ts| - 1]) + if IsPublish(ts[|ts| - 1]) then [ts[|ts| - 1]] else []
  }

  function CountOutcome(ts: seq<Trace>, o: Outcome): nat {
    if ts == [] then 0 else CountOutcome(ts[..|ts| - 1], o) + if ts[|ts| - 1].outcome == o then 1 else 0
  }

  /** Traces booked on one addon with one outcome. */
  function CountFor(ts: seq<Trace>, addon: string, o: Outcome): nat {
    if ts == [] then 0
    else
      var t := ts[|ts| - 1];
      CountFor(ts[..|ts| - 1], addon, o) + if AddonKey(t) == addon && t.outcome == o then 1 else 0
  }

  function Addons(ts: seq<Trace>): set<string> {
    set t | t in ts :: AddonKey(t)
  }

  datatype Counts = Counts(success: nat, denied: nat, error: nat)

  ghost predicate CountsOf(ts: seq<Trace>, perAddon: map<string, Counts>) {
    && perAddon.Keys == Addons(ts)
    && forall a | a in perAddon :: perAddon[a] == CountsFor(ts, a)
  }

  lemma {:induction false} CountForAbsent(ts: seq<Trace>, a: string, o: Outcome)
    requires a !in Addons(ts)
    ensures CountFor(ts, a, o) == 0
  {
    if ts != [] {
      var init, t := ts[..|ts| - 1], ts[|ts| - 1];
      assert t in ts && AddonKey(t) in Addons(ts);
      CountForAbsent(init, a, o);
    }
  }

  function Current(perAddon: map<string, Counts>, a: string): Counts {
    if a in perAddon then perAddon[a] else Counts(0, 0, 0)
  }

  function Bump(c: Counts, o: Outcome): Counts {
    match o
    case Success => c.(success := c.success + 1)
    case Denied => c.(denied := c.denied + 1)
    case Error => c.(error := c.error + 1)
  }

  lemma CountForStep(seen: seq<Trace>, t: Trace, a: string, o: Outcome)
    ensures CountFor(seen + [t], a, o) == CountFor(seen, a, o) + if AddonKey(t) == a && t.outcome == o then 1 else 0
  {
    assert (seen + [t])[..|seen|] == seen;
  }

  lemma AddonsStep(seen: seq<Trace>, t: Trace)
    ensures Addons(seen + [t]) == Addons(seen) + {AddonKey(t)}
  {
    assert t in seen + [t] && forall x | x in seen :: x in seen + [t];
  }

  function CountsFor(ts: seq<Trace>, a: string): Counts {
    Counts(CountFor(ts, a, Success), CountFor(ts, a, Denied), CountFor(ts, a, Error))
  }

  lemma CountsForStep(seen: seq<Trace>, t: Trace, a: string)
    ensures CountsFor(seen + [t], a) ==
      if AddonKey(t) == a then Bump(CountsFor(seen, a), t.outcome) else CountsFor(seen, a)
  {
    CountForStep(seen, t, a, Success);
    CountForStep(seen, t, a, Denied);
    CountForStep(seen, t, a, Error);
  }

  lemma CountsForAbsent(ts: seq<Trace>, a: string)
    requires a !in Addons(ts)
    ensures CountsFor(ts, a) == Counts(0, 0, 0)
  {
    CountForAbsent(ts, a, Success);
    CountForAbsent(ts, a, Denied);
    CountForAbsent(ts, a, Error);
  }

  lemma CurrentCounts(seen: seq<Trace>, perAddon: map<string, Counts>, a: string)
    requires CountsOf(seen, perAddon)
    ensures Current(perAddon, a) == CountsFor(seen, a)
  {
    if a !in perAddon {
      CountsForAbsent(seen, a);
    }
  }

  /** The figures once a trace is booked on its addon. */
  function Booked(perAddon: map<string, Counts>, t: Trace): map<string, Counts> {
    perAddon[AddonKey(t) := Bump(Current(perAddon, AddonKey(t)), t.outcome)]
  }

  lemma CountsStep(seen: seq<Trace>, t: Trace, perAddon: map<string, Counts>)
    requires CountsOf(seen, perAddon)
    ensures CountsOf(seen + [t], Booked(perAddon, t))
  {
    AddonsStep(seen, t);
    CurrentCounts(seen, perAddon, AddonKey(t));
    var after := Booked(perAddon, t);
    forall b | b in after ensures after[b] == CountsFor(seen + [t], b) {
      CountsForStep(seen, t, b);
    }
  }

  function AllBooked(ts: seq<Trace>): map<string, Counts> {
    if ts == [] then map[] else Booked(AllBooked(ts[..|ts| - 1]), ts[|ts| - 1])
  }

  lemma {:induction false} AllBookedCounts(ts: seq<Trace>)
    ensures CountsOf(ts, AllBooked(ts))
  {
    if ts != [] {
      var init, t := ts[..|ts| - 1], ts[|ts| - 1];
      assert ts == init + [t];
      AllBookedCounts(init);
      CountsStep(init, t, AllBooked(init));
    }
  }

  method PerAddon(publishTraces: seq<Trace>) returns (perAddon: map<string, Counts>)
    ensures CountsOf(publishTraces, perAddon)
  {
    perAddon := map[];
    for i := 0 to |publishTraces|
      invariant perAddon == AllBooked(publishTraces[..i])
    {
      assert publishTraces[..i + 1][..i] == publishTraces[..i];
      perAddon := Booked(perAddon, publishTraces[i]);
    }
    assert publishTraces[..|publishTraces|] == publishTraces;
    AllBookedCounts(publishTraces);
  }

  /** The aggregation of the metrics route over a list of traces. */
  method Metrics(traces: seq<Trace>)
    returns (publishCount: nat, deniedCount: nat, perAddon: map<string, Counts>)
    ensures publishCount == CountOutcome(OnlyPublishes(traces), Success) == |Positions(traces, Success)|
    ensures deniedCount == CountOutcome(OnlyPublishes(traces), Denied) == |Positions(traces, Denied)|
    ensures CountsOf(OnlyPublishes(traces), perAddon)
  {
    OverallCount(traces, Success);
    OverallCount(traces, Denied);
    var publishTraces := Select(traces);
    publishCount := Count(publishTraces, Success);
    deniedCount := Count(publishTraces, Denied);
    perAddon := PerAddon(publishTraces);
  }

  method Select(traces: seq<Trace>) returns (r: seq<Trace>)
    ensures r == OnlyPublishes(traces)
  {
    r := [];
    for i := 0 to |traces|
      invariant r == OnlyPublishes(traces[..i])
    {
      assert traces[..i + 1][..i] == traces[..i];
      if IsPublish(traces[i]) {
        r := r + [traces[i]];
      }
    }
    assert traces[..|traces|] == traces;
  }

  method Count(traces: seq<Trace>, o: Outcome) returns (n: nat)
    ensures n == CountOutcome(traces, o)
  {
    n := 0;
    for i := 0 to |traces|
      invariant n == CountOutcome(traces[..i], o)
    {
      assert traces[..i + 1][..i] == traces[..i];
      if traces[i].outcome == o {
        n := n + 1;
      }
    }
    assert traces[..|traces|] == traces;
  }

  // ----- What the figures count ---------------------------------------------

  /** The positions of the publish traces with an outcome. */
  ghost function Positions(ts: seq<Trace>, o: Outcome): set<nat> {
    set i: nat | i < |ts| && PublishWith(ts[i], o)
  }

  ghost predicate PublishWith(t: Trace, o: Outcome) {
    Contains(t.operation, "publish") && t.outcome == o
  }

  /** The addon that a trace counts for: the one it names, else the caller, else `unknown`,
      which also stands for a name of spaces. */
  ghost predicate BookedTo(t: Trace, a: string) {
    var named := t.addonId.Some? && t.addonId.value != "";
    var called := t.callerSub.Some? && t.callerSub.value != "";
    && (named ==> a == if Trim(t.addonId.value) == "" then "unknown" else Trim(t.addonId.value))
    && (!named && called ==> a == if Trim(t.callerSub.value) == "" then "unknown" else Trim(t.callerSub.value))
    && (!named && !called ==> a == "unknown")
  }

  ghost function PositionsFor(ts: seq<Trace>, a: string, o: Outcome): set<nat> {
    set i: nat | i in Positions(ts, o) && BookedTo(ts[i], a)
  }

  lemma KeyIsCounted(t: Trace, a: string)
    ensures AddonKey(t) == a <==> BookedTo(t, a)
  {
    assert Trimmed("unknown");
  }

  lemma PositionsStep(init: seq<Trace>, t: Trace, o: Outcome)
    ensures Positions(init + [t], o) ==
      if PublishWith(t, o) then Positions(init, o) + {|init|} else Positions(init, o)
  {
    var ts := init + [t];
    forall i: nat | i < |init| ensures ts[i] == init[i] {}
  }

  lemma PositionsForStep(init: seq<Trace>, t: Trace, a: string, o: Outcome)
    ensures PositionsFor(init + [t], a, o) ==
      if PublishWith(t, o) && BookedTo(t, a) then PositionsFor(init, a, o) + {|init|}
      else PositionsFor(init, a, o)
  {
    PositionsStep(init, t, o);
    var ts := init + [t];
    forall i: nat | i < |init| ensures ts[i] == init[i] {}
  }

  lemma OnlyPublishesStep(init: seq<Trace>, t: Trace)
    ensures OnlyPublishes(init + [t]) == if IsPublish(t) then OnlyPublishes(init) + [t] else OnlyPublishes(init)
  {
    assert (init + [t])[..|init|] == init;
  }

  lemma CountOutcomeStep(seen: seq<Trace>, t: Trace, o: Outcome)
    ensures CountOutcome(seen + [t], o) == CountOutcome(seen, o) + if t.outcome == o then 1 else 0
  {
    assert (seen + [t])[..|seen|] == seen;
  }

  /** The overall figures are numbers of traces. */
  lemma {:induction false} OverallCount(ts: seq<Trace>, o: Outcome)
    ensures CountOutcome(OnlyPublishes(ts), o) == |Positions(ts, o)|
  {
    if ts != [] {
      var init, t := ts[..|ts| - 1], ts[|ts| - 1];
      assert ts == init + [t];
      OverallCount(init, o);
      OverallStep(init, t, o);
    }
  }

  lemma OverallStep(init: seq<Trace>, t: Trace, o: Outcome)
    requires CountOutcome(OnlyPublishes(init), o) == |Positions(init, o)|
    ensures CountOutcome(OnlyPublishes(init + [t]), o) == |Positions(init + [t], o)|
  {
    var kept, at, n := OnlyPublishes(init), Positions(init, o), |init|;
    OnlyPublishesStep(init, t);
    PositionsStep(init, t, o);
    if IsPublish(t) {
      CountOutcomeStep(kept, t, o);
      assert PublishWith(t, o) <==> t.outcome == o;
      if t.outcome == o {
        OneMore(at, n);
      }
    }
  }

  lemma OneMore(s: set<nat>, n: nat)
    requires n !in s
    ensures |s + {n}| == |s| + 1
  {
  }

  /** So are those of each addon. */
  lemma {:induction false} AddonCount(ts: seq<Trace>, a: string, o: Outcome)
    ensures CountFor(OnlyPublishes(ts), a, o) == |PositionsFor(ts, a, o)|
  {
    if ts != [] {
      var init, t := ts[..|ts| - 1], ts[|ts| - 1];
      assert ts == init + [t];
      AddonCount(init, a, o);
      AddonStep(init, t, a, o);
    }
  }

  lemma AddonStep(init: seq<Trace>, t: Trace, a: string, o: Outcome)
    requires CountFor(OnlyPublishes(init), a, o) == |PositionsFor(init, a, o)|
    ensures CountFor(OnlyPublishes(init + [t]), a, o) == |PositionsFor(init + [t], a, o)|
  {
    OnlyPublishesStep(init, t);
    PositionsForStep(init, t, a, o);
    OneMore(PositionsFor(init, a, o), |init|);
    KeyIsCounted(t, a);
    CountForStep(OnlyPublishes(init), t, a, o);
  }

  lemma {:induction false} PublishesAre(ts: seq<Trace>, t: Trace)
    ensures t in OnlyPublishes(ts) <==> t in ts && IsPublish(t)
  {
    if ts != [] {
      var init, last := ts[..|ts| - 1], ts[|ts| - 1];
      assert ts == init + [last];
      PublishesAre(init, t);
      OnlyPublishesStep(init, last);
    }
  }

  /** The addons reported are those that some publish trace counts for. */
  lemma AddonsNamed(ts: seq<Trace>, a: string)
    ensures a in Addons(OnlyPublishes(ts)) <==>
      exists t | t in ts :: Contains(t.operation, "publish") && BookedTo(t, a)
  {
    forall t ensures t in OnlyPublishes(ts) <==> t in ts && IsPublish(t) {
      PublishesAre(ts, t);
    }
    forall t ensures AddonKey(t) == a <==> BookedTo(t, a) {
      KeyIsCounted(t, a);
    }
  }

  /** What the metrics route reports, in numbers of traces. */
  lemma MetricsCount(ts: seq<Trace>, perAddon: map<string, Counts>, a: string)
    requires CountsOf(OnlyPublishes(ts), perAddon)
    ensures a in perAddon <==> exists t | t in ts :: Contains(t.operation, "publish") && BookedTo(t, a)
    ensures a in perAddon ==>
      && perAddon[a].success == |PositionsFor(ts, a, Success)|
      && perAddon[a].denied == |PositionsFor(ts, a, Denied)|
      && perAddon[a].error == |PositionsFor(ts, a, Error)|
  {
    AddonsNamed(ts, a);
    AddonCount(ts, a, Success);
    AddonCount(ts, a, Denied);
    AddonCount(ts, a, Error);
  }

  // ----- Conservation -------------------------------------------------------

  /** The sum of `f` over a set of keys. */
  ghost function Total(keys: set<string>, f: string -> nat): nat
    decreases |keys|
  {
    if keys == {} then 0
    else
      var k :| k in keys;
      f(k) + Total(keys - {k}, f)
  }

  lemma {:induction false} TotalPick(keys: set<string>, f: string -> nat, k: string)
    requires k in keys
    ensures Total(keys, f) == f(k) + Total(keys - {k}, f)
    decreases |keys|
  {
    var c :| c in keys && Total(keys, f) == f(c) + Total(keys - {c}, f);
    if c != k {
      TotalPick(keys - {c}, f, k);
      TotalPick(keys - {k}, f, c);
      assert keys - {c} - {k} == keys - {k} - {c};
    }
  }

  lemma {:induction false} TotalSame(keys: set<string>, f: string -> nat, g: string -> nat)
    requires forall k | k in keys :: f(k) == g(k)
    ensures Total(keys, f) == Total(keys, g)
    decreases |keys|
  {
    if keys != {} {
      var k :| k in keys;
      TotalPick(keys, f, k);
      TotalPick(keys, g, k);
      TotalSame(keys - {k}, f, g);
    }
  }

  lemma {:induction false} TotalZero(keys: set<string>, f: string -> nat)
    requires forall k | k in keys :: f(k) == 0
    ensures Total(keys, f) == 0
    decreases |keys|
  {
    if keys != {} {
      var k :| k in keys;
      TotalPick(keys, f, k);
      TotalZero(keys - {k}, f);
    }
  }

  /** Splitting the traces by addon loses none and counts none twice. */
  lemma {:induction false} PerAddonConserves(ts: seq<Trace>, keys: set<string>, o: Outcome)
    requires Addons(ts) <= keys
    ensures Total(keys, a => CountFor(ts, a, o)) == CountOutcome(ts, o)
  {
    if ts == [] {
      TotalZero(keys, a => CountFor(ts, a, o));
    } else {
      var init, t := ts[..|ts| - 1], ts[|ts| - 1];
      var k := AddonKey(t);
      assert t in ts && k in Addons(ts);
      assert Addons(init) <= keys by {
        assert forall x | x in init :: x in ts;
      }
      PerAddonConserves(init, keys, o);
      var f, g := a => CountFor(ts, a, o), a => CountFor(init, a, o);
      TotalPick(keys, f, k);
      TotalPick(keys, g, k);
      TotalSame(keys - {k}, f, g);
    }
  }

  lemma {:induction false} OutcomesPartition(ts: seq<Trace>)
    ensures CountOutcome(ts, Success) + CountOutcome(ts, Denied) + CountOutcome(ts, Error) == |ts|
  {
    if ts != [] {
      OutcomesPartition(ts[..|ts| - 1]);
    }
  }

  function Figure(perAddon: map<string, Counts>, a: string, o: Outcome): nat {
    var c := Current(perAddon, a);
    match o
    case Success => c.success
    case Denied => c.denied
    case Error => c.error
  }

  /** The per-addon figures add up to the overall ones, and the three outcome totals
      to the number of publish traces. */
  lemma MetricsConserve(ts: seq<Trace>, perAddon: map<string, Counts>, o: Outcome)
    requires CountsOf(ts, perAddon)
    ensures Total(perAddon.Keys, a => Figure(perAddon, a, o)) == CountOutcome(ts, o)
  {
    PerAddonConserves(ts, perAddon.Keys, o);
    TotalSame(perAddon.Keys, a => Figure(perAddon, a, o), a => CountFor(ts, a, o));
  }
}
