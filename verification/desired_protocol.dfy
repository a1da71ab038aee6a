/** `MountedStateStore.update_desired` as a protocol: any number of writers, each
    taking a file lock, loading, mutating, writing atomically (or, when the target
    refuses to be replaced, in place) and releasing; any of them may raise, time
    out or crash; readers take no lock. */
module DesiredProtocol {
  import opened DesiredState
  import StringLists

  datatype File = Missing | Doc(payload: Payload) | Garbage

  /** What a file that can be read gives: a missing or unparsable one counts as empty. */
  function Load(f: File): Payload {
    if f.Doc? then f.payload else map[]
  }

  /** `_load_json_object`: a read that raises counts as empty too. */
  function Read(f: File, raises: bool): Payload {
    if raises then map[] else Load(f)
  }

  /** Where a writer stands; it is `blind` if its read raised. */
  datatype Phase =
    | Waiting(m: Mutator)                                   // before the lock
    | Holding(m: Mutator)                                   // lock taken, nothing read yet
    | Loaded(m: Mutator, blind: bool, current: Payload)
    | Staged(m: Mutator, blind: bool, updated: Payload)     // the mutator has returned
    | TempReady(m: Mutator, blind: bool, updated: Payload)  // the temporary file is complete
    | InPlace(m: Mutator, blind: bool, updated: Payload)    // fallback: target opened for writing, hence truncated
    | Stored(m: Mutator)                                    // fallback: target complete, chmod and clean-up pending
    | Returning(m: Mutator, ok: bool)                       // the write returned or raised, lock still held

  /** The lock-ordered history: an update that reached the file, blind or not, or an
      in-place write that broke off and left an unreadable file. */
  datatype Entry = Commit(m: Mutator, blind: bool) | Torn

  /** A success reported to the caller, with the history position it stands for. */
  datatype Ack = Ack(at: nat, m: Mutator)

  datatype Lock = Free | HeldBy(w: nat)

  datatype State = State(file: File, lock: Lock, writers: map<nat, Phase>, log: seq<Entry>, acked: seq<Ack>)

  function Replay(p0: Payload, log: seq<Entry>): Payload
    decreases |log|, 0
  {
    if log == [] then p0
    else
      match log[|log| - 1]
      case Commit(m, blind) => Apply(m, Base(p0, log[..|log| - 1], blind))
      case Torn => map[]
  }

  /** What an edit after the history `log` starts from. */
  function Base(p0: Payload, log: seq<Entry>, blind: bool): Payload
    decreases |log|, 1
  {
    if blind then map[] else Replay(p0, log)
  }

  /** An entry after which nothing earlier is left. */
  predicate Forgets(e: Entry) {
    e.Torn? || e.blind
  }

  predicate Forgetful(log: seq<Entry>) {
    exists e | e in log :: Forgets(e)
  }

  datatype Step =
    | Begin(w: nat, m: Mutator)
    | Acquire(w: nat)
    | TimeOut(w: nat)
    | ReadFile(w: nat, raises: bool)
    | Mutate(w: nat)
    | WriteTemp(w: nat)
    | Replace(w: nat)
    | Truncate(w: nat)
    | Fill(w: nat)
    | Finish(w: nat)
    | Raise(w: nat)
    | Release(w: nat)
    | Crash(w: nat)

  predicate Enabled(s: State, step: Step) {
    match step
    case Begin(w, m) => w !in s.writers
    case Acquire(w) => w in s.writers && s.writers[w].Waiting? && s.lock.Free?
    case TimeOut(w) => w in s.writers && s.writers[w].Waiting?
    case ReadFile(w, _) => w in s.writers && s.writers[w].Holding?
    case Mutate(w) => w in s.writers && s.writers[w].Loaded?
    case WriteTemp(w) => w in s.writers && s.writers[w].Staged?
    case Replace(w) => w in s.writers && s.writers[w].TempReady?
    case Truncate(w) => w in s.writers && s.writers[w].TempReady?
    case Fill(w) => w in s.writers && s.writers[w].InPlace?
    case Finish(w) => w in s.writers && s.writers[w].Stored?
    case Raise(w) => w in s.writers && !s.writers[w].Waiting? && !s.writers[w].Returning?
    case Release(w) => w in s.writers && s.writers[w].Returning?
    case Crash(w) => w in s.writers
  }

  function Goto(s: State, w: nat, phase: Phase): State {
    s.(writers := s.writers[w := phase])
  }

  /** The prepared document in the file and in the history. */
  function Committed(s: State, phase: Phase): State
    requires phase.TempReady? || phase.InPlace?
  {
    s.(file := Doc(phase.updated), log := s.log + [Commit(phase.m, phase.blind)])
  }

  /** The history once an in-place write of `w`, if one is under way, is given up. */
  function Broken(s: State, w: nat): seq<Entry>
    requires w in s.writers
  {
    if s.writers[w].InPlace? then s.log + [Torn] else s.log
  }

  function Do(s: State, step: Step): State
    requires Enabled(s, step)
  {
    match step
    case Begin(w, m) => Goto(s, w, Waiting(m))
    case Acquire(w) => Goto(s.(lock := HeldBy(w)), w, Holding(s.writers[w].m))
    case TimeOut(w) => s.(writers := s.writers - {w})
    case ReadFile(w, raises) => Goto(s, w, Loaded(s.writers[w].m, raises, Read(s.file, raises)))
    case Mutate(w) =>
      var phase := s.writers[w];
      Goto(s, w, Staged(phase.m, phase.blind, Apply(phase.m, phase.current)))
    case WriteTemp(w) =>
      var phase := s.writers[w];
      Goto(s, w, TempReady(phase.m, phase.blind, phase.updated))
    case Replace(w) => Goto(Committed(s, s.writers[w]), w, Returning(s.writers[w].m, true))
    case Truncate(w) =>
      var phase := s.writers[w];
      Goto(s.(file := Garbage), w, InPlace(phase.m, phase.blind, phase.updated))
    case Fill(w) => Goto(Committed(s, s.writers[w]), w, Stored(s.writers[w].m))
    case Finish(w) => Goto(s, w, Returning(s.writers[w].m, true))
    case Raise(w) => Goto(s.(log := Broken(s, w)), w, Returning(s.writers[w].m, false))
    case Release(w) =>
      var phase := s.writers[w];
      s.(lock := Free, writers := s.writers - {w},
         acked := if phase.ok && |s.log| > 0 then s.acked + [Ack(|s.log| - 1, phase.m)] else s.acked)
    case Crash(w) =>
      s.(lock := if s.lock == HeldBy(w) then Free else s.lock, writers := s.writers - {w}, log := Broken(s, w))
  }

  ghost predicate Next(s: State, s': State) {
    exists step :: Enabled(s, step) && s' == Do(s, step)
  }

  ghost predicate Init(p0: Payload, s: State) {
    Load(s.file) == p0 && s.lock == Free && s.writers == map[] && s.log == [] && s.acked == []
  }

  ghost predicate IsRun(p0: Payload, run: seq<State>) {
    && run != []
    && Init(p0, run[0])
    && forall i | 0 <= i < |run| - 1 :: Next(run[i], run[i + 1])
  }

  // ----- The invariant ------------------------------------------------------

  predicate WritingInPlace(s: State) {
    s.lock.HeldBy? && s.lock.w in s.writers && s.writers[s.lock.w].InPlace?
  }

  /** Exactly the lock holder is past waiting. */
  ghost predicate MutualExclusion(s: State) {
    && (forall w | w in s.writers :: !s.writers[w].Waiting? <==> s.lock == HeldBy(w))
    && (s.lock.HeldBy? ==> s.lock.w in s.writers)
  }

  /** What the lock holder has read or prepared is up to date. */
  ghost predicate HolderCurrent(p0: Payload, s: State, phase: Phase) {
    match phase
    case Waiting(_) => false
    case Holding(_) => true
    case Loaded(m, blind, current) => current == Base(p0, s.log, blind)
    case Staged(m, blind, updated) => updated == Apply(m, Base(p0, s.log, blind))
    case TempReady(m, blind, updated) => updated == Apply(m, Base(p0, s.log, blind))
    case InPlace(m, blind, updated) => s.file == Garbage && updated == Apply(m, Base(p0, s.log, blind))
    case Stored(m) => s.log != [] && Commits(s.log[|s.log| - 1], m)
    case Returning(m, ok) => ok ==> s.log != [] && Commits(s.log[|s.log| - 1], m)
  }

  predicate Commits(e: Entry, m: Mutator) {
    e.Commit? && e.m == m
  }

  /** The last history entry still waits to be acknowledged. */
  predicate AckPending(s: State) {
    s.lock.HeldBy? && s.lock.w in s.writers &&
    (s.writers[s.lock.w].Stored? || (s.writers[s.lock.w].Returning? && s.writers[s.lock.w].ok))
  }

  /** Acknowledgements name distinct committed entries, in lock order. */
  ghost predicate AcksCommitted(s: State) {
    && (forall i | 0 <= i < |s.acked| ::
          s.acked[i].at < |s.log| && Commits(s.log[s.acked[i].at], s.acked[i].m))
    && (forall i, j | 0 <= i < j < |s.acked| :: s.acked[i].at < s.acked[j].at)
    && (AckPending(s) ==> forall i | 0 <= i < |s.acked| :: s.acked[i].at < |s.log| - 1)
  }

  ghost predicate Inv(p0: Payload, s: State) {
    && MutualExclusion(s)
    && (s.lock.HeldBy? ==> HolderCurrent(p0, s, s.writers[s.lock.w]))
    && (!WritingInPlace(s) ==> Load(s.file) == Replay(p0, s.log))
    && AcksCommitted(s)
  }

  lemma StepKeepsExclusion(s: State, step: Step)
    requires MutualExclusion(s) && Enabled(s, step)
    ensures MutualExclusion(Do(s, step))
  {
  }

  /** One step adds at most one entry to the history. */
  lemma StepGrows(s: State, step: Step)
    requires Enabled(s, step)
    ensures var t := Do(s, step);
      s.log <= t.log && (t.log == s.log || (|t.log| == |s.log| + 1 && t.log[..|t.log| - 1] == s.log))
  {
  }

  lemma StepKeepsFile(p0: Payload, s: State, step: Step)
    requires Inv(p0, s) && Enabled(s, step)
    ensures var t := Do(s, step);
      && MutualExclusion(t)
      && (t.lock.HeldBy? ==> HolderCurrent(p0, t, t.writers[t.lock.w]))
      && (!WritingInPlace(t) ==> Load(t.file) == Replay(p0, t.log))
      && s.log <= t.log
  {
    var t := Do(s, step);
    StepKeepsExclusion(s, step);
    StepGrows(s, step);
    assert s.lock.HeldBy? ==> s.lock.w in s.writers;
  }

  lemma AcksFrame(s: State, t: State)
    requires AcksCommitted(s) && t.acked == s.acked && s.log <= t.log
    requires AckPending(t) ==> AckPending(s) || |s.log| < |t.log|
    ensures AcksCommitted(t)
  {
    forall i | 0 <= i < |t.acked|
      ensures t.acked[i].at < |t.log| && Commits(t.log[t.acked[i].at], t.acked[i].m)
    {
      assert s.log[s.acked[i].at] == t.log[s.acked[i].at];
    }
  }

  lemma {:induction false} ReleaseKeepsAcks(p0: Payload, s: State, w: nat)
    requires MutualExclusion(s) && AcksCommitted(s) && Enabled(s, Release(w))
    requires HolderCurrent(p0, s, s.writers[w])
    ensures AcksCommitted(Do(s, Release(w)))
  {
    var t := Do(s, Release(w));
    if s.writers[w].ok {
      assert s.lock == HeldBy(w) && AckPending(s);
      assert t.acked == s.acked + [Ack(|s.log| - 1, s.writers[w].m)];
    }
  }

  lemma StepKeepsAcks(p0: Payload, s: State, step: Step)
    requires Inv(p0, s) && Enabled(s, step)
    ensures AcksCommitted(Do(s, step))
  {
    if step.Release? {
      ReleaseKeepsAcks(p0, s, step.w);
    } else {
      StepKeepsFile(p0, s, step);
      AcksFrame(s, Do(s, step));
    }
  }

  lemma {:induction false} RunKeepsInv(p0: Payload, run: seq<State>, i: nat)
    requires IsRun(p0, run) && i < |run|
    ensures Inv(p0, run[i])
  {
    if i > 0 {
      RunKeepsInv(p0, run, i - 1);
      assert Next(run[i - 1], run[i - 1 + 1]);
      var step :| Enabled(run[i - 1], step) && run[i] == Do(run[i - 1], step);
      StepKeepsFile(p0, run[i - 1], step);
      StepKeepsAcks(p0, run[i - 1], step);
    }
  }

  lemma {:induction false} LogGrows(p0: Payload, run: seq<State>, i: nat, j: nat)
    requires IsRun(p0, run) && i <= j < |run|
    ensures run[i].log <= run[j].log
    decreases j
  {
    if i < j {
      LogGrows(p0, run, i, j - 1);
      RunKeepsInv(p0, run, j - 1);
      assert Next(run[j - 1], run[j - 1 + 1]);
      var step :| Enabled(run[j - 1], step) && run[j] == Do(run[j - 1], step);
      StepKeepsFile(p0, run[j - 1], step);
    }
  }

  // ----- Main results -------------------------------------------------------

  /** In every run, at every moment: a reader gets the lock-ordered history applied to
      the initial document, except while an in-place write is under way or when its own
      read raises, when it gets the empty document. */
  lemma RunIsSerial(p0: Payload, run: seq<State>, i: nat, raises: bool)
    requires IsRun(p0, run) && i < |run|
    ensures Read(run[i].file, raises) ==
      if raises || WritingInPlace(run[i]) then map[] else Replay(p0, run[i].log)
  {
    RunKeepsInv(p0, run, i);
  }

  /** Every update reported as a success is in the history, once, in lock order. */
  lemma AcknowledgedIsCommitted(p0: Payload, run: seq<State>, i: nat)
    requires IsRun(p0, run) && i < |run|
    ensures forall k | 0 <= k < |run[i].acked| ::
      run[i].acked[k].at < |run[i].log| && Commits(run[i].log[run[i].acked[k].at], run[i].acked[k].m)
    ensures forall k, l | 0 <= k < l < |run[i].acked| :: run[i].acked[k].at < run[i].acked[l].at
  {
    RunKeepsInv(p0, run, i);
  }

  /** While every target accepts replacement, nothing is ever torn, and a reader at any
      moment sees the initial document with a prefix of the final history, or nothing
      when its own read raises. */
  lemma ReadersSeeCommitted(p0: Payload, run: seq<State>, i: nat, raises: bool)
    requires IsRun(p0, run) && i < |run|
    requires forall j | 0 <= j < |run| :: !WritingInPlace(run[j])
    ensures var final := run[|run| - 1].log;
      && Torn !in final
      && run[i].log <= final
      && Read(run[i].file, raises) == if raises then map[] else Replay(p0, final[..|run[i].log|])
  {
    RunIsSerial(p0, run, i, raises);
    LogGrows(p0, run, i, |run| - 1);
    NothingTorn(p0, run, |run| - 1);
    assert run[|run| - 1].log[..|run[i].log|] == run[i].log;
  }

  lemma NoFallbackNoTear(s: State, step: Step)
    requires MutualExclusion(s) && !WritingInPlace(s) && Enabled(s, step)
    ensures Torn in Do(s, step).log ==> Torn in s.log
  {
    assert step.Raise? || step.Crash? ==> Broken(s, step.w) == s.log;
  }

  lemma {:induction false} NothingTorn(p0: Payload, run: seq<State>, i: nat)
    requires IsRun(p0, run) && i < |run|
    requires forall j | 0 <= j < |run| :: !WritingInPlace(run[j])
    ensures Torn !in run[i].log
  {
    if i > 0 {
      NothingTorn(p0, run, i - 1);
      var s := run[i - 1];
      RunKeepsInv(p0, run, i - 1);
      assert Next(s, run[i - 1 + 1]);
      var step :| Enabled(s, step) && run[i] == Do(s, step);
      NoFallbackNoTear(s, step);
    }
  }

  /** A broken in-place write forgets everything before it, and so does an edit whose
      writer could not read. */
  lemma {:induction false} Forgotten(p0: Payload, before: seq<Entry>, e: Entry, after: seq<Entry>)
    requires Forgets(e)
    ensures Replay(p0, before + [e] + after) == Replay(map[], [e] + after)
    decreases |after|
  {
    if after == [] {
      ReplaySnoc(p0, before, e);
      ReplaySnoc(map[], [], e);
      assert before + [e] + after == before + [e] && [e] + after == [] + [e];
    } else {
      var init, last := after[..|after| - 1], after[|after| - 1];
      assert after == init + [last];
      assert before + [e] + after == (before + [e] + init) + [last];
      assert [e] + after == ([e] + init) + [last];
      Forgotten(p0, before, e, init);
      ReplaySnoc(p0, before + [e] + init, last);
      ReplaySnoc(map[], [e] + init, last);
    }
  }

  lemma ReplaySnoc(p0: Payload, log: seq<Entry>, e: Entry)
    ensures Replay(p0, log + [e]) == if e.Commit? then Apply(e.m, Base(p0, log, e.blind)) else map[]
  {
    assert (log + [e])[..|log + [e]| - 1] == log;
  }

  /** No edit committed in `log` changes the observation `f`. */
  ghost predicate Neutral<T(!new)>(log: seq<Entry>, f: Payload -> T) {
    forall e, p | e in log && e.Commit? :: f(Apply(e.m, p)) == f(p)
  }

  /** An observation that no later edit changes stays as it was, unless a forgetting
      entry resets it. */
  lemma {:induction false} Kept<T(!new)>(p0: Payload, before: seq<Entry>, after: seq<Entry>, f: Payload -> T)
    requires Neutral(after, f)
    ensures f(Replay(p0, before + after)) == if Forgetful(after) then f(map[]) else f(Replay(p0, before))
    decreases |after|
  {
    if after == [] {
      assert before + after == before;
    } else {
      var init, e := after[..|after| - 1], after[|after| - 1];
      assert after == init + [e];
      assert before + after == (before + init) + [e];
      assert Neutral(init, f);
      Kept(p0, before, init, f);
      ReplaySnoc(p0, before + init, e);
      assert e in after;
      ForgetfulSnoc(init, e);
    }
  }

  lemma ForgetfulSnoc(init: seq<Entry>, e: Entry)
    ensures Forgetful(init + [e]) <==> Forgetful(init) || Forgets(e)
  {
    if Forgetful(init) {
      var x :| x in init && Forgets(x);
      assert x in init + [e];
    }
    assert e in init + [e];
  }

  /** The stored core URL is the last committed one exactly when nothing after it forgets:
      no in-place write broke off, and no writer's read raised. */
  lemma {:induction false} LatestUrlSurvivesIff(p0: Payload, before: seq<Entry>, e: Entry, after: seq<Entry>)
    requires e.Commit? && e.m.SetCoreUrl?
    requires forall x | x in after && x.Commit? :: !x.m.SetCoreUrl?
    ensures CoreUrl(Replay(p0, before + [e] + after)) == Atom(e.m.url, true) <==> !Forgetful(after)
  {
    var f := (p: Payload) => CoreUrl(p);
    forall x, p | x in after && x.Commit? ensures f(Apply(x.m, p)) == f(p) {
      GroupsRoundTrip(p, x.m.groups, x.m.revision);
    }
    Kept(p0, before + [e], after, f);
    ReplaySnoc(p0, before, e);
    CoreUrlRoundTrip(Base(p0, before, e.blind), e.m.url, e.m.revision);
    AtEmpty(CORE_URL);
  }

  lemma NoGroupsAtEmpty()
    ensures DesiredGroups(map[]) == []
  {
    AtEmpty(ENABLED);
    AtEmpty(RUNTIME_REQUESTED);
    AtEmpty(REQUESTED);
  }

  /** The desired groups read back are the last committed list, or none when something
      after it forgets. */
  lemma {:induction false} LatestGroupsSurvive(p0: Payload, before: seq<Entry>, e: Entry, after: seq<Entry>)
    requires e.Commit? && e.m.SetGroups?
    requires forall x | x in after && x.Commit? :: !x.m.SetGroups?
    ensures DesiredGroups(Replay(p0, before + [e] + after))
      == if Forgetful(after) then [] else StringLists.Normalized(e.m.groups)
  {
    var f := (p: Payload) => DesiredGroups(p);
    forall x, p | x in after && x.Commit? ensures f(Apply(x.m, p)) == f(p) {
      CoreUrlRoundTrip(p, x.m.url, x.m.revision);
    }
    Kept(p0, before + [e], after, f);
    ReplaySnoc(p0, before, e);
    GroupsRoundTrip(Base(p0, before, e.blind), e.m.groups, e.m.revision);
    NoGroupsAtEmpty();
  }

  /** What a reader gets at the revision is that of the last entry of the history, whichever
      kind of edit it was, and nothing if that was torn, an in-place write is under way, or
      the reader's own read raises. */
  lemma {:induction false} LatestRevisionIsRead(p0: Payload, run: seq<State>, i: nat, raises: bool)
    requires IsRun(p0, run) && i < |run| && run[i].log != []
    ensures var last := run[i].log[|run[i].log| - 1];
      At(Read(run[i].file, raises), REVISION) ==
        if raises || WritingInPlace(run[i]) || last.Torn? then Null else Atom(last.m.revision, true)
  {
    var log := run[i].log;
    var init, last := log[..|log| - 1], log[|log| - 1];
    RunIsSerial(p0, run, i, raises);
    assert log == init + [last];
    ReplaySnoc(p0, init, last);
    AtEmpty(REVISION);
    if last.Commit? {
      RevisionStored(last.m, Base(p0, init, last.blind));
    }
  }

  /** The history after what an acknowledgement stands for. */
  function Since(s: State, ack: Ack): seq<Entry> {
    if ack.at < |s.log| then s.log[ack.at + 1..] else []
  }

  /** What was acknowledged at one moment is an entry of the history at every later one. */
  lemma AcknowledgedStays(p0: Payload, run: seq<State>, i: nat, j: nat, k: nat)
    requires IsRun(p0, run) && i <= j < |run| && k < |run[i].acked|
    ensures var ack, log := run[i].acked[k], run[j].log;
      && ack.at < |log| && Commits(log[ack.at], ack.m)
      && log == log[..ack.at] + [log[ack.at]] + Since(run[j], ack)
  {
    AcknowledgedIsCommitted(p0, run, i);
    LogGrows(p0, run, i, j);
    assert run[j].log[run[i].acked[k].at] == run[i].log[run[i].acked[k].at];
  }

  /** A core URL acknowledged at moment `i` is what a reader gets at a later moment `j`,
      if no other core URL was committed since, exactly when no in-place write has broken
      off since or is under way, no writer's read has raised since, and its own does not. */
  lemma {:induction false} AcknowledgedUrlIsRead(p0: Payload, run: seq<State>, i: nat, j: nat, k: nat, raises: bool)
    requires IsRun(p0, run) && i <= j < |run| && k < |run[i].acked| && run[i].acked[k].m.SetCoreUrl?
    requires forall e | e in Since(run[j], run[i].acked[k]) && e.Commit? :: !e.m.SetCoreUrl?
    ensures var ack := run[i].acked[k];
      CoreUrl(Read(run[j].file, raises)) == Atom(ack.m.url, true)
      <==> !raises && !WritingInPlace(run[j]) && !Forgetful(Since(run[j], ack))
  {
    AcknowledgedStays(p0, run, i, j, k);
    RunIsSerial(p0, run, j, raises);
    var ack, log := run[i].acked[k], run[j].log;
    LatestUrlSurvivesIff(p0, log[..ack.at], log[ack.at], Since(run[j], ack));
    AtEmpty(CORE_URL);
  }

  /** A group list acknowledged at moment `i` is what a reader gets at a later moment `j`,
      if no other list was committed since, and none when something has forgotten it since,
      an in-place write is under way, or the reader's own read raises. */
  lemma {:induction false} AcknowledgedGroupsAreRead(p0: Payload, run: seq<State>, i: nat, j: nat, k: nat,
                                                     raises: bool)
    requires IsRun(p0, run) && i <= j < |run| && k < |run[i].acked| && run[i].acked[k].m.SetGroups?
    requires forall e | e in Since(run[j], run[i].acked[k]) && e.Commit? :: !e.m.SetGroups?
    ensures var ack := run[i].acked[k];
      DesiredGroups(Read(run[j].file, raises)) ==
        if raises || WritingInPlace(run[j]) || Forgetful(Since(run[j], ack)) then []
        else StringLists.Normalized(ack.m.groups)
  {
    AcknowledgedStays(p0, run, i, j, k);
    RunIsSerial(p0, run, j, raises);
    var ack, log := run[i].acked[k], run[j].log;
    LatestGroupsSurvive(p0, log[..ack.at], log[ack.at], Since(run[j], ack));
    NoGroupsAtEmpty();
  }

  lemma {:induction false} AtEmpty(path: Path)
    requires path != []
    ensures At(map[], path) == Null
    decreases |path|
  {
    if |path| > 1 {
      AtEmpty(path[1..]);
    }
  }

  /** A path of keys that belongs to some other party. */
  ghost predicate Foreign(path: Path) {
    && path != []
    && forall w | w in [RUNTIME_REQUESTED, ENABLED, REQUESTED, REVISION, FORCE, CORE_URL] :: Unrelated(w, path)
  }

  /** Foreign keys survive a history exactly as long as nothing in it forgets. */
  lemma {:induction false} ForeignKeysSurvive(p0: Payload, log: seq<Entry>, path: Path)
    requires Foreign(path)
    ensures At(Replay(p0, log), path) == if Forgetful(log) then Null else At(p0, path)
  {
    var f := (p: Payload) => At(p, path);
    forall e, p | e in log && e.Commit? ensures f(Apply(e.m, p)) == f(p) {
      forall w | w in Written(e.m) ensures Unrelated(w, path) {
        assert w in [RUNTIME_REQUESTED, ENABLED, REQUESTED, REVISION, FORCE, CORE_URL];
      }
      ApplyFrame(e.m, p, path);
    }
    assert [] + log == log;
    Kept(p0, [], log, f);
    AtEmpty(path);
  }

  // ----- The two ways to lose an acknowledged edit ---------------------------

  /** A run extended by one step. */
  lemma Extend(p0: Payload, run: seq<State>, step: Step) returns (longer: seq<State>)
    requires IsRun(p0, run) && Enabled(run[|run| - 1], step)
    ensures IsRun(p0, longer) && longer == run + [Do(run[|run| - 1], step)]
  {
    longer := run + [Do(run[|run| - 1], step)];
    forall i | 0 <= i < |longer| - 1 ensures Next(longer[i], longer[i + 1]) {
      if i < |run| - 1 {
        assert Next(run[i], run[i + 1]);
      }
    }
  }

  /** From a free lock, an update of a new writer by way of replacement, up to its
      acknowledgement. */
  lemma Update(p0: Payload, run: seq<State>, w: nat, m: Mutator, raises: bool) returns (longer: seq<State>)
    requires IsRun(p0, run) && run[|run| - 1].lock.Free? && run[|run| - 1].writers == map[]
    ensures IsRun(p0, longer) && longer[0] == run[0]
    ensures var s, t := run[|run| - 1], longer[|longer| - 1];
      && t.lock.Free? && t.writers == map[] && t.log == s.log + [Commit(m, raises)]
      && t.acked == s.acked + [Ack(|s.log|, m)] && t.file.Doc?
  {
    longer := Extend(p0, run, Begin(w, m));
    longer := Extend(p0, longer, Acquire(w));
    longer := Extend(p0, longer, ReadFile(w, raises));
    longer := Extend(p0, longer, Mutate(w));
    longer := Extend(p0, longer, WriteTemp(w));
    longer := Extend(p0, longer, Replace(w));
    longer := Extend(p0, longer, Release(w));
  }

  /** From a free lock, an update whose in-place write breaks off. */
  lemma BrokenUpdate(p0: Payload, run: seq<State>, w: nat, m: Mutator) returns (longer: seq<State>)
    requires IsRun(p0, run) && run[|run| - 1].lock.Free? && run[|run| - 1].writers == map[]
    ensures IsRun(p0, longer) && longer[0] == run[0]
    ensures var s, t := run[|run| - 1], longer[|longer| - 1];
      t.lock.Free? && t.writers == map[] && t.log == s.log + [Torn] && t.acked == s.acked
  {
    longer := Extend(p0, run, Begin(w, m));
    longer := Extend(p0, longer, Acquire(w));
    longer := Extend(p0, longer, ReadFile(w, false));
    longer := Extend(p0, longer, Mutate(w));
    longer := Extend(p0, longer, WriteTemp(w));
    longer := Extend(p0, longer, Truncate(w));
    longer := Extend(p0, longer, Crash(w));
  }

  /** An acknowledged core URL is lost to a group update that reports success although it
      could not read, or to one that breaks off in place. */
  lemma AcknowledgedUrlLost(file: File, url: string, revision: string, groups: seq<string>, torn: bool)
    returns (run: seq<State>)
    ensures IsRun(Load(file), run) && run[0].file == file
    ensures var t := run[|run| - 1];
      && t.lock.Free? && t.acked != [] && t.acked[0].m == SetCoreUrl(url, revision)
      && |t.log| == 2 && t.log[1..] == [if torn then Torn else Commit(SetGroups(groups, revision), true)]
      && CoreUrl(Load(t.file)) == Null
  {
    var p0, m := Load(file), SetCoreUrl(url, revision);
    run := [State(file, Free, map[], [], [])];
    run := Update(p0, run, 0, m, false);
    var before := run[|run| - 1];
    if torn {
      run := BrokenUpdate(p0, run, 1, SetGroups(groups, revision));
    } else {
      run := Update(p0, run, 1, SetGroups(groups, revision), true);
    }
    var t, e := run[|run| - 1], if torn then Torn else Commit(SetGroups(groups, revision), true);
    RunIsSerial(p0, run, |run| - 1, false);
    ReplaySnoc(p0, before.log, e);
    GroupsRoundTrip(map[], groups, revision);
    AtEmpty(CORE_URL);
  }
}
