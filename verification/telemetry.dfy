/** The telemetry queue: bounded, dropping its oldest events, drained by one flusher
    that looks at the head, posts it without the lock, and pops; and the file that a
    restarted reporter loads it from. */
module Telemetry {
  import opened Wrappers

  datatype Event = Event(consumer: string, operation: string)

  /** Where the flusher stands; `dropped` is what saturation had removed at the peek. */
  datatype Flight =
    | Idle
    | Posting(at: nat, dropped: nat)
    | Posted(at: nat, dropped: nat)

  /** A stretch of positions. */
  datatype Segment = Segment(lo: nat, hi: nat)

  predicate Within(p: nat, seg: Segment) {
    seg.lo <= p < seg.hi
  }

  /** Events are known by their position in `all`: what was loaded at the start and
      everything enqueued since. The queue is `all[head..]`; `delivered` lists
      positions accepted by Core. `saved` is what loading the queue file would give,
      `pending` the queues that threads have copied but not yet written to it. */
  datatype State = State(all: seq<Event>, head: nat, flight: Flight,
                         delivered: seq<nat>, popped: nat, truncated: nat, removed: set<nat>,
                         saved: Segment, pending: map<nat, Segment>)

  /** A reporter that has just loaded `items`. */
  function Started(items: seq<Event>): State {
    State(items, 0, Idle, [], 0, 0, {}, Segment(0, |items|), map[])
  }

  /** `Write(t, lines)` leaves a file from which so many lines load: all of them, or
      fewer when the write breaks off. */
  datatype Step =
    | Enqueue(e: Event)
    | Peek
    | PostOk
    | PostFail
    | Pop
    | Copy(t: nat)
    | Write(t: nat, lines: nat)

  function Queue(s: State): seq<Event>
    requires s.head <= |s.all|
  {
    s.all[s.head..]
  }

  /** The queue of a reporter that starts now. */
  function SavedQueue(s: State): seq<Event>
    requires s.saved.lo <= s.saved.hi <= |s.all|
  {
    s.all[s.saved.lo..s.saved.hi]
  }

  predicate Enabled(s: State, step: Step) {
    match step
    case Enqueue(_) => true
    case Peek => s.flight.Idle? && s.head < |s.all|
    case PostOk => s.flight.Posting?
    case PostFail => s.flight.Posting?
    case Pop => s.flight.Posted?
    case Copy(t) => t !in s.pending
    case Write(t, lines) => t in s.pending && s.pending[t].lo + lines <= s.pending[t].hi
  }

  /** The head after saturation has dropped the oldest events. */
  function Trimmed(head: nat, length: nat, max: nat): (r: nat)
    ensures r >= head
  {
    if length - head > max then length - max else head
  }

  function Do(s: State, step: Step, max: nat): State
    requires Enabled(s, step)
  {
    match step
    case Enqueue(e) =>
      var all := s.all + [e];
      var head := Trimmed(s.head, |all|, max);
      s.(all := all, head := head, truncated := s.truncated + (head - s.head))
    case Peek => s.(flight := Posting(s.head, s.truncated))
    case PostOk => s.(flight := Posted(s.flight.at, s.flight.dropped), delivered := s.delivered + [s.flight.at])
    case PostFail => s.(flight := Idle)
    case Pop =>
      if s.head < |s.all| then
        s.(flight := Idle, head := s.head + 1, popped := s.popped + 1, removed := s.removed + {s.head})
      else s.(flight := Idle)
    case Copy(t) => s.(pending := s.pending[t := Segment(s.head, |s.all|)])
    case Write(t, lines) =>
      s.(saved := Segment(s.pending[t].lo, s.pending[t].lo + lines), pending := s.pending - {t})
  }

  /** The state once the queue is copied and written without anything in between. */
  function Persisted(s: State): State
    requires 0 !in s.pending && s.head <= |s.all|
  {
    s.(saved := Segment(s.head, |s.all|))
  }

  // ----- The class ----------------------------------------------------------

  /** The queue file: missing, one line per event, or with a line that does not parse. */
  datatype File = Missing | Lines(items: seq<Event>) | Unparsable

  /** `_load_queue`: the newest events of the file. */
  function Loaded(f: File, max: nat): (items: seq<Event>)
    ensures |items| <= max
    ensures f.Lines? ==>
      |items| == (if |f.items| < max then |f.items| else max) && items == f.items[|f.items| - |items|..]
  {
    if !f.Lines? then []
    else if |f.items| > max then f.items[|f.items| - max..]
    else f.items
  }

  class TelemetryReporter {
    const maxQueue: nat
    var queue: seq<Event>
    var file: File
    ghost var state: State

    ghost predicate Valid()
      reads this
    {
      && maxQueue >= 1 && Inv(state, maxQueue) && queue == Queue(state)
      && state.pending == map[] && Loaded(file, maxQueue) == SavedQueue(state)
    }

    /** A reporter over the queue file of an earlier one. */
    constructor (maxQueue: nat, stored: File)
      requires maxQueue >= 1
      ensures Valid() && this.maxQueue == maxQueue && file == stored
      ensures queue == Loaded(stored, maxQueue) && state == Started(queue)
    {
      this.maxQueue := maxQueue;
      queue, file := Loaded(stored, maxQueue), stored;
      state := Started(Loaded(stored, maxQueue));
    }

    method EnqueueUsage(consumer: string, operation: string)
      requires Valid()
      modifies this
      ensures Valid() && state.all == old(state.all) + [Event(consumer, operation)]
      ensures state == Persisted(Do(old(state), Enqueue(Event(consumer, operation)), maxQueue))
      ensures queue == (if |old(queue)| < maxQueue then old(queue) else old(queue)[1..])
                       + [Event(consumer, operation)]
      ensures Loaded(file, maxQueue) == queue
    {
      Append(Event(consumer, operation));
      PersistQueue();
    }

    /** The part of `enqueue_usage` under the lock. */
    method Append(event: Event)
      requires Valid()
      modifies this`queue, this`state
      ensures Valid() && state == Do(old(state), Enqueue(event), maxQueue)
      ensures queue == (if |old(queue)| < maxQueue then old(queue) else old(queue)[1..]) + [event]
    {
      EnqueueKeeps(state, event, maxQueue);
      OldestCut(queue, event, maxQueue);
      state := Do(state, Enqueue(event), maxQueue);
      queue := queue + [event];
      if |queue| > maxQueue {
        queue := queue[|queue| - maxQueue..];
      }
    }

    /** A reporter started from the file now has the queue of this one. */
    method PersistQueue()
      requires Valid()
      modifies this`file, this`state
      ensures Valid() && queue == old(queue) && state == Persisted(old(state))
      ensures Loaded(file, maxQueue) == queue
    {
      PersistKeeps(state, maxQueue);
      state := Do(state, Copy(0), maxQueue);
      var lines := queue;
      state := Do(state, Write(0, |lines|), maxQueue);
      file := Lines(lines);
    }

    method PeekHead() returns (r: Option<Event>)
      requires Valid() && state.flight.Idle?
      modifies this`state
      ensures Valid()
      ensures r == if queue == [] then None else Some(queue[0])
      ensures state == if queue == [] then old(state) else Do(old(state), Peek, maxQueue)
    {
      if queue == [] {
        return None;
      }
      StepKeepsInv(state, Peek, maxQueue);
      state := Do(state, Peek, maxQueue);
      return Some(queue[0]);
    }

    /** The answer of the post; events may be enqueued before and after it. */
    method PostAnswer(ok: bool)
      requires Valid() && state.flight.Posting?
      modifies this`state
      ensures Valid() && state == Do(old(state), if ok then PostOk else PostFail, maxQueue)
    {
      ghost var step := if ok then PostOk else PostFail;
      StepKeepsInv(state, step, maxQueue);
      state := Do(state, step, maxQueue);
    }

    /** The pop after a successful post; it always finds an event to remove. */
    method PopHead()
      requires Valid() && state.flight.Posted?
      modifies this`state, this`queue
      ensures Valid() && state == Do(old(state), Pop, maxQueue)
      ensures old(queue) != [] && queue == old(queue)[1..]
    {
      StepKeepsInv(state, Pop, maxQueue);
      state := Do(state, Pop, maxQueue);
      if queue != [] {
        queue := queue[1..];
      }
    }

    /** One turn of the flush loop; `None` when the queue is empty or the post fails. */
    method PostHead(ok: bool) returns (sent: Option<Event>)
      requires Valid() && state.flight.Idle?
      modifies this`state, this`queue
      ensures Valid() && state.flight.Idle?
      ensures sent.None? ==> queue == old(queue) && (queue == [] || !ok) && state.delivered == old(state.delivered)
      ensures sent.Some? ==> ok && old(queue) == [sent.value] + queue
      ensures sent.Some? ==> |state.delivered| == |old(state.delivered)| + 1
    {
      var next := PeekHead();
      if next.None? {
        return None;
      }
      PostAnswer(ok);
      if !ok {
        return None;
      }
      PopHead();
      return next;
    }

    /** The flush loop: events leave in order, up to the first failed post. */
    method Drain(answers: nat -> bool) returns (posted: seq<Event>)
      requires Valid() && state.flight.Idle?
      modifies this`state, this`queue
      ensures Valid() && state.flight.Idle?
      ensures posted + queue == old(queue)
      ensures forall k: nat | k < |posted| :: answers(k)
      ensures queue == [] || !answers(|posted|)
      ensures |state.delivered| == |old(state.delivered)| + |posted|
    {
      posted := [];
      while true
        invariant Valid() && state.flight.Idle?
        invariant posted + queue == old(queue)
        invariant forall k: nat | k < |posted| :: answers(k)
        invariant |state.delivered| == |old(state.delivered)| + |posted|
        decreases |queue|
      {
        var ok := answers(|posted|);
        var sent := PostHead(ok);
        if sent.None? {
          return;
        }
        posted := posted + [sent.value];
      }
    }

    /** `_flush_once` with nobody enqueueing meanwhile; `answers(k)` is the outcome of
        the k-th post. The queue is saved at the end. */
    method FlushOnce(answers: nat -> bool) returns (posted: seq<Event>)
      requires Valid() && state.flight.Idle?
      modifies this
      ensures Valid() && state.flight.Idle?
      ensures posted + queue == old(queue)
      ensures forall k: nat | k < |posted| :: answers(k)
      ensures queue == [] || !answers(|posted|)
      ensures |state.delivered| == |old(state.delivered)| + |posted|
      ensures Loaded(file, maxQueue) == queue
    {
      posted := Drain(answers);
      PersistQueue();
    }
  }

  // ----- The invariant ------------------------------------------------------

  /** Cutting a queue down after one more event drops at most the oldest. */
  lemma OldestCut(queue: seq<Event>, e: Event, max: nat)
    requires |queue| <= max && max >= 1
    ensures var q := queue + [e];
      (if |q| > max then q[|q| - max..] else q) == (if |queue| < max then queue else queue[1..]) + [e]
  {
  }

  /** Copying and writing the queue with nothing in between saves it. */
  lemma PersistKeeps(s: State, max: nat)
    requires max >= 1 && Inv(s, max) && s.pending == map[]
    ensures var copied := Do(s, Copy(0), max);
      && Enabled(copied, Write(0, |Queue(s)|))
      && var t := Do(copied, Write(0, |Queue(s)|), max);
         t == Persisted(s) && Inv(t, max) && SavedQueue(t) == Queue(s) == Queue(t) && |Queue(s)| <= max
  {
    var copied := Do(s, Copy(0), max);
    StepKeepsInv(s, Copy(0), max);
    StepKeepsInv(copied, Write(0, |Queue(s)|), max);
    assert Do(copied, Write(0, |Queue(s)|), max).pending == map[];
  }

  /** What one more event does to queue and file. */
  lemma EnqueueKeeps(s: State, e: Event, max: nat)
    requires max >= 1 && Inv(s, max)
    ensures var t, q := Do(s, Enqueue(e), max), Queue(s);
      && Inv(t, max) && t.pending == s.pending && SavedQueue(t) == SavedQueue(s)
      && |q| <= max && Queue(t) == (if |q| < max then q else q[1..]) + [e]
  {
    StepKeepsInv(s, Enqueue(e), max);
    EnqueueKeepsSaved(s, e, max);
    EnqueueQueue(s, e, max);
    OldestCut(Queue(s), e, max);
  }

  lemma EnqueueQueue(s: State, e: Event, max: nat)
    requires s.head <= |s.all|
    ensures var t, q := Do(s, Enqueue(e), max), Queue(s) + [e];
      t.head <= |t.all| && Queue(t) == if |q| > max then q[|q| - max..] else q
  {
  }

  lemma EnqueueKeepsSaved(s: State, e: Event, max: nat)
    requires s.saved.lo <= s.saved.hi <= |s.all|
    ensures var t := Do(s, Enqueue(e), max); t.saved == s.saved && SavedQueue(t) == SavedQueue(s)
  {
  }

  ghost predicate Increasing(xs: seq<nat>) {
    forall i, j | 0 <= i < j < |xs| :: xs[i] < xs[j]
  }

  ghost predicate Below(xs: seq<nat>, bound: nat) {
    forall i | 0 <= i < |xs| :: xs[i] < bound
  }

  ghost predicate AllBelow(xs: set<nat>, bound: nat) {
    forall x | x in xs :: x < bound
  }

  /** A stretch that was once the whole queue, or the front of it. */
  predicate Once(s: State, seg: Segment, max: nat) {
    seg.lo <= seg.hi <= |s.all| && seg.hi - seg.lo <= max && seg.lo <= s.head
  }

  ghost predicate QueueInv(s: State, max: nat) {
    && s.head <= |s.all| && |s.all| - s.head <= max
    && s.head == s.popped + s.truncated
    && Increasing(s.delivered)
    && |s.delivered| == s.popped + (if s.flight.Posted? then 1 else 0)
    && AllBelow(s.removed, s.head)
    && match s.flight
       case Idle => Below(s.delivered, s.head)
       case Posting(at, dropped) =>
         && s.head < |s.all| && s.head - at == s.truncated - dropped >= 0
         && Below(s.delivered, at) && AllBelow(s.removed, at)
       case Posted(at, dropped) =>
         && s.head < |s.all| && s.head - at == s.truncated - dropped >= 0
         && s.delivered != [] && s.delivered[|s.delivered| - 1] == at && AllBelow(s.removed, at)
  }

  ghost predicate FileInv(s: State, max: nat) {
    Once(s, s.saved, max) && forall t | t in s.pending :: Once(s, s.pending[t], max)
  }

  ghost predicate Inv(s: State, max: nat) {
    QueueInv(s, max) && FileInv(s, max)
  }

  lemma StepKeepsInv(s: State, step: Step, max: nat)
    requires max >= 1 && Inv(s, max) && Enabled(s, step)
    ensures Inv(Do(s, step, max), max)
  {
    if step.Pop? {
      assert forall i | 0 <= i < |s.delivered| :: s.delivered[i] <= s.flight.at;
    }
  }

  ghost predicate Next(s: State, t: State, max: nat) {
    exists step :: Enabled(s, step) && t == Do(s, step, max)
  }

  /** Any interleaving of enqueuers, the flusher and threads that save the queue, from
      any queue that may have been loaded. */
  ghost predicate IsRun(run: seq<State>, max: nat) {
    && run != [] && |run[0].all| <= max && run[0] == Started(run[0].all)
    && forall i | 0 <= i < |run| - 1 :: Next(run[i], run[i + 1], max)
  }

  lemma {:induction false} RunStep(run: seq<State>, max: nat, i: nat) returns (step: Step)
    requires IsRun(run, max) && i + 1 < |run|
    ensures Enabled(run[i], step) && run[i + 1] == Do(run[i], step, max)
  {
    assert Next(run[i], run[i + 1], max);
    step :| Enabled(run[i], step) && run[i + 1] == Do(run[i], step, max);
  }

  lemma {:induction false} RunKeepsInv(run: seq<State>, max: nat, i: nat)
    requires max >= 1 && IsRun(run, max) && i < |run|
    ensures Inv(run[i], max)
  {
    if i > 0 {
      RunKeepsInv(run, max, i - 1);
      var step := RunStep(run, max, i - 1);
      StepKeepsInv(run[i - 1], step, max);
    }
  }

  lemma {:induction false} RunKeepsOrder(run: seq<State>, max: nat, i: nat)
    requires max >= 1 && IsRun(run, max) && i < |run|
    ensures OrderUntilDrop(run[i])
  {
    if i > 0 {
      RunKeepsOrder(run, max, i - 1);
      OrderStep(run, max, i - 1);
    }
  }

  lemma OrderStep(run: seq<State>, max: nat, i: nat)
    requires max >= 1 && IsRun(run, max) && i + 1 < |run| && OrderUntilDrop(run[i])
    ensures OrderUntilDrop(run[i + 1])
  {
    RunKeepsInv(run, max, i);
    var step := RunStep(run, max, i);
    StepKeepsOrder(run[i], step, max);
  }

  /** Events went out first in, first out, none skipped; what was popped went out. */
  ghost predicate InOrder(s: State) {
    (forall i | 0 <= i < |s.delivered| :: s.delivered[i] == i) && NoneLost(s)
  }

  /** Every event popped was delivered. */
  ghost predicate NoneLost(s: State) {
    forall x | x in s.removed :: x in s.delivered
  }

  ghost predicate OrderUntilDrop(s: State) {
    s.truncated == 0 ==> InOrder(s)
  }

  lemma StepKeepsOrder(s: State, step: Step, max: nat)
    requires max >= 1 && Inv(s, max) && Enabled(s, step)
    requires OrderUntilDrop(s)
    ensures OrderUntilDrop(Do(s, step, max))
  {
    var t := Do(s, step, max);
    if t.truncated == 0 {
      assert s.truncated == 0;
      if step.Pop? {
        assert s.head == s.flight.at && s.head in s.delivered;
      }
      forall x | x in t.removed ensures x in t.delivered {
        assert x in s.delivered || (step.Pop? && x == s.head);
      }
    }
  }

  lemma StepLoss(s: State, step: Step, max: nat)
    requires max >= 1 && Inv(s, max) && Enabled(s, step)
    ensures var t := Do(s, step, max);
      NoneLost(t) <==> NoneLost(s) && (step.Pop? ==> s.truncated == s.flight.dropped)
  {
    var t := Do(s, step, max);
    match step
    case PostOk =>
      assert s.flight.at !in s.removed;
      assert forall x | x in s.removed :: x in t.delivered <==> x in s.delivered;
    case Pop =>
      var last := |s.delivered| - 1;
      assert s.delivered[last] == s.flight.at;
      assert s.head in s.delivered <==> s.head == s.flight.at;
      assert s.head in t.removed;
    case _ =>
  }

  // ----- Main results -------------------------------------------------------

  /** At every moment of every run: the queue is bounded, events were delivered in
      strictly increasing enqueue order, and every event enqueued is accounted for
      as delivered, queued or dropped, but for the one between post and pop. */
  lemma EventsConserved(run: seq<State>, max: nat, i: nat)
    requires max >= 1 && IsRun(run, max) && i < |run|
    ensures var s := run[i];
      && s.head <= |s.all| && |Queue(s)| <= max
      && Increasing(s.delivered)
      && |s.all| + (if s.flight.Posted? then 1 else 0) == |s.delivered| + |Queue(s)| + s.truncated
  {
    RunKeepsInv(run, max, i);
  }

  /** While saturation drops nothing, delivery is exactly first in, first out, and
      nothing leaves the queue undelivered. */
  lemma NoTruncationNoLoss(run: seq<State>, max: nat, i: nat)
    requires max >= 1 && IsRun(run, max) && i < |run| && run[i].truncated == 0
    ensures InOrder(run[i])
  {
    RunKeepsOrder(run, max, i);
  }

  /** The pop removes the event that was posted exactly when nothing was dropped
      since the peek; otherwise it removes a later one. */
  lemma PopRemovesPostedIff(run: seq<State>, max: nat, i: nat)
    requires max >= 1 && IsRun(run, max) && i < |run| && run[i].flight.Posted?
    ensures var s := run[i];
      && Do(s, Pop, max).removed == s.removed + {s.head}
      && s.head >= s.flight.at
      && (s.head == s.flight.at <==> s.truncated == s.flight.dropped)
  {
    RunKeepsInv(run, max, i);
  }

  /** Step `j` of the run is a pop. */
  predicate PopAt(run: seq<State>, j: nat)
    requires j + 1 < |run|
  {
    run[j].flight.Posted? && run[j + 1].flight.Idle?
  }

  /** Saturation had dropped nothing between the peek and pop `j`. */
  predicate Undisturbed(run: seq<State>, j: nat)
    requires j < |run| && run[j].flight.Posted?
  {
    run[j].truncated == run[j].flight.dropped
  }

  lemma LossStep(run: seq<State>, max: nat, i: nat)
    requires max >= 1 && IsRun(run, max) && i + 1 < |run|
    ensures NoneLost(run[i + 1]) <==> NoneLost(run[i]) && (PopAt(run, i) ==> Undisturbed(run, i))
  {
    RunKeepsInv(run, max, i);
    var step := RunStep(run, max, i);
    StepLoss(run[i], step, max);
  }

  ghost predicate AllUndisturbed(run: seq<State>, i: nat)
    requires i < |run|
  {
    forall j | 0 <= j < i && PopAt(run, j) :: Undisturbed(run, j)
  }

  /** Every event popped by moment `i` was delivered exactly when no pop until then
      followed a drop since its peek. */
  lemma {:induction false} NoLossIff(run: seq<State>, max: nat, i: nat)
    requires max >= 1 && IsRun(run, max) && i < |run|
    ensures NoneLost(run[i]) <==> AllUndisturbed(run, i)
  {
    if i > 0 {
      NoLossIff(run, max, i - 1);
      LossStep(run, max, i - 1);
    }
  }

  /** A reporter that starts from the file at any moment of any run, even one left by a
      write that broke off, starts with a bounded stretch of consecutive events, none
      of them newer than the file. It misses queued events exactly when there are any
      and the file stops short of the newest; otherwise it has the queue, preceded by
      the events that left it since the file's queue was copied. */
  lemma RestartFromFile(run: seq<State>, max: nat, i: nat)
    requires max >= 1 && IsRun(run, max) && i < |run|
    ensures var s := run[i];
      && s.saved.lo <= s.saved.hi <= |s.all| && s.saved.lo <= s.head <= |s.all|
      && IsRun([Started(SavedQueue(s))], max)
      && ((forall p: nat | s.head <= p < |s.all| :: Within(p, s.saved))
          <==> s.saved.hi == |s.all| || Queue(s) == [])
      && (s.saved.hi == |s.all| ==> SavedQueue(s) == s.all[s.saved.lo..s.head] + Queue(s))
  {
    RunKeepsInv(run, max, i);
    var s := run[i];
    if s.head < |s.all| && s.saved.hi < |s.all| {
      var p := |s.all| - 1;
      assert s.head <= p < |s.all| && !Within(p, s.saved);
    }
  }

  /** The shortest run that loses an event silently: with room for one event, the
      second arrives while the first is being posted and is popped in its place. */
  lemma SilentLoss(a: Event, b: Event) returns (run: seq<State>)
    ensures IsRun(run, 1)
    ensures var s := run[|run| - 1];
      s.all == [a, b] && s.delivered == [0] && s.head == |s.all| && 1 in s.removed
  {
    var s0 := Started([]);
    var s1 := Do(s0, Enqueue(a), 1);
    var s2 := Do(s1, Peek, 1);
    var s3 := Do(s2, Enqueue(b), 1);
    var s4 := Do(s3, PostOk, 1);
    var s5 := Do(s4, Pop, 1);
    run := [s0, s1, s2, s3, s4, s5];
    assert Next(s0, s1, 1) && Next(s1, s2, 1) && Next(s2, s3, 1) && Next(s3, s4, 1) && Next(s4, s5, 1);
    assert IsRun(run, 1);
  }
}
