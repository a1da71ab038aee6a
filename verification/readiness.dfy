/** How the install status summarises optional groups: the reconcile state and the
    readiness verdict, both computed from what was requested and what runs. */
module Readiness {
  import opened GroupResolver
  import CS = ConfigStore

  datatype Reconcile = Idle | AllFailed | Starting | Active | Mixed | Waiting
  datatype Verdict = NotReady | Partial | Full

  /** `sorted(xs) == sorted(ys)`. */
  predicate SameItems(xs: seq<string>, ys: seq<string>) {
    multiset(xs) == multiset(ys)
  }

  function ReconcileState(requested: seq<string>, active: seq<string>, starting: seq<string>,
                          failed: seq<string>): Reconcile
  {
    if requested == [] then Idle
    else if failed != [] && active == [] then AllFailed
    else if starting != [] then Starting
    else if SameItems(requested, active) then Active
    else if failed != [] && active != [] then Mixed
    else Waiting
  }

  function Missing(required: seq<string>, active: seq<string>): (r: seq<string>)
    ensures forall x :: x in r <==> x in required && x !in active
  {
    if required == [] then []
    else Missing(required[..|required| - 1], active) +
         if required[|required| - 1] !in active then [required[|required| - 1]] else []
  }

  /** The requested groups that the manifest marks as needed for setup. */
  function Required(requested: seq<string>, groups: Groups): seq<string> {
    CS.Keep(requested, set g | g in groups && groups[g].setupRequired)
  }

  datatype Report = Report(verdict: Verdict, full: bool, missing: seq<string>)

  function ReadinessReport(setupDone: bool, requested: seq<string>, active: seq<string>,
                           required: seq<string>): Report
  {
    if !setupDone then Report(NotReady, false, required)
    else
      var missing := Missing(required, active);
      if requested == [] then Report(Full, true, [])
      else if missing != [] then Report(if active != [] then Partial else NotReady, false, missing)
      else if SameItems(requested, active) then Report(Full, true, [])
      else Report(Partial, false, [])
  }

  lemma SameMembers(xs: seq<string>, ys: seq<string>, x: string)
    requires SameItems(xs, ys)
    ensures x in xs <==> x in ys
  {
    assert x in xs <==> x in multiset(xs);
    assert x in ys <==> x in multiset(ys);
  }

  lemma NothingMissing(requested: seq<string>, active: seq<string>, groups: Groups)
    requires SameItems(requested, active)
    ensures Missing(Required(requested, groups), active) == []
  {
    var m := Missing(Required(requested, groups), active);
    if m != [] {
      var x := m[0];
      assert x in m;
      SameMembers(requested, active, x);
      assert false;
    }
  }

  /** The other two verdicts: partial is when setup is done and something runs while a needed
      group does not, or all needed ones run but not just what was requested; and the
      missing groups are those needed that do not run, all of them until setup is done. */
  lemma PartialReadiness(setupDone: bool, requested: seq<string>, active: seq<string>, groups: Groups)
    ensures var required := Required(requested, groups);
      var report := ReadinessReport(setupDone, requested, active, required);
      var lacking := exists x | x in requested :: x in groups && groups[x].setupRequired && x !in active;
      && (report.verdict.Partial? <==>
            setupDone && requested != [] && if lacking then active != [] else !SameItems(requested, active))
      && (forall x :: x in report.missing <==>
            (!setupDone || requested != []) && x in requested && x in groups && groups[x].setupRequired
            && (setupDone ==> x !in active))
  {
    var required, missing := Required(requested, groups), Missing(Required(requested, groups), active);
    forall x ensures x in required <==> x in requested && x in groups && groups[x].setupRequired {}
    if missing != [] {
      assert missing[0] in missing;
    }
  }

  /** The reconcile state, case by case; failures only count while nothing newer is known. */
  lemma ReconcileCases(requested: seq<string>, active: seq<string>, starting: seq<string>, failed: seq<string>)
    ensures var s := ReconcileState(requested, active, starting, failed);
      && (s.Idle? <==> requested == [])
      && (s.AllFailed? <==> requested != [] && failed != [] && active == [])
      && (s.Starting? <==> requested != [] && starting != [] && (active != [] || failed == []))
      && (s.Active? <==> requested != [] && starting == [] && SameItems(requested, active))
      && (s.Mixed? <==>
            requested != [] && starting == [] && failed != [] && active != [] && !SameItems(requested, active))
  {
    if SameItems(requested, active) {
      assert |requested| == |multiset(requested)| && |active| == |multiset(active)|;
    }
  }

  /** As the status route computes it, the verdict is full exactly when setup is done
      and what runs is a permutation of what was requested (or nothing was), and a
      full verdict agrees with the reconcile state unless groups are still starting. */
  lemma FullReadiness(setupDone: bool, requested: seq<string>, active: seq<string>,
                      starting: seq<string>, failed: seq<string>, groups: Groups)
    ensures var report := ReadinessReport(setupDone, requested, active, Required(requested, groups));
      && (report.full <==> setupDone && (requested == [] || SameItems(requested, active)))
      && (report.full <==> report.verdict.Full?)
      && (report.full ==> report.missing == [])
      && (setupDone && starting == [] ==>
            (report.full <==> ReconcileState(requested, active, starting, failed) in {Idle, Active}))
  {
    if SameItems(requested, active) {
      NothingMissing(requested, active, groups);
      assert requested == [] <==> active == [] by {
        assert |requested| == |multiset(requested)| && |active| == |multiset(active)|;
      }
    }
  }
}
