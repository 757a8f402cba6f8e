/**
 The lock, condition-variable and atomic-flag protocol by which parallel producers hand
 their results to one sequential consumer in index order (crates/tasks/src/for_each_ordered.rs),
 as a transition system over the smallest steps whose order matters.

 - A producer's `write` stores the value under the slot's mutex in one step and notifies in a
   second step, after the mutex has been released.
 - The panic path first stores the flag and then, slot by slot, takes the mutex and notifies.
 - The consumer holds the slot's mutex over several steps: testing the value, loading the flag
   and entering the wait are separate steps, so the others may move in between.
 - Condition variables have no spurious wakeups, and a notification nobody waits for is lost.
 */
module OrderedDelivery {
  import opened Prelude

  /** The closure for one index inside the parallel iterator. */
  datatype Task =
    | Idle        // not started, or still computing
    | Wrote       // value stored and mutex released, notification still to be sent
    | Done
    | Panicked    // ended without writing
    | Skipped     // never started, because another task panicked
  {
    predicate Written() { Wrote? || Done? }
    predicate Ended() { Done? || Panicked? || Skipped? }
  }

  /** The spawned closure around the parallel iterator. */
  datatype Coordinator =
    | Running
    | Unwound             // a panic was caught, the flag is not stored yet
    | Waking(next: nat)   // flag stored, slots below `next` have been woken
    | Returned

  /** The calling thread. `Testing`, `Loading` and `Parking` hold the mutex of `slot`. */
  datatype Consumer<T> =
    | Locking(slot: nat)
    | Testing(slot: nat)
    | Loading(slot: nat)
    | Parking(slot: nat)
    | Parked(slot: nat)
    | Calling(slot: nat, item: T)
    | Finished
    | GaveUp(slot: nat)

  datatype State<T> = State(
    items: seq<T>,
    tasks: seq<Task>,
    slots: seq<Option<T>>,
    panicked: bool,
    coordinator: Coordinator,
    consumer: Consumer<T>,
    delivered: seq<T>)

  datatype Step =
    | Write(i: nat) | Notify(i: nat) | Fail(i: nat) | Skip(i: nat)
    | Return | Unwind | StoreFlag | Wake | Resume
    | Lock | Test | Load | Park | Call
  {
    predicate ByConsumer() { Lock? || Test? || Load? || Park? || Call? }
    predicate ByTask() { Write? || Notify? || Fail? || Skip? }
  }

  function Init<T>(items: seq<T>): State<T> {
    var n := |items|;
    State(items, seq(n, i => Idle), seq(n, i => None), false,
          if n == 0 then Returned else Running,
          if n == 0 then Finished else Locking(0),
          [])
  }

  predicate MutexHeld<T>(s: State<T>, i: nat) {
    match s.consumer
    case Testing(j) => j == i
    case Loading(j) => j == i
    case Parking(j) => j == i
    case _ => false
  }

  predicate AnyPanicked(tasks: seq<Task>) {
    exists i :: 0 <= i < |tasks| && tasks[i] == Panicked
  }

  predicate AllEnded(tasks: seq<Task>) {
    forall i :: 0 <= i < |tasks| ==> tasks[i].Ended()
  }

  predicate AllDone(tasks: seq<Task>) {
    forall i :: 0 <= i < |tasks| ==> tasks[i] == Done
  }

  predicate Shape<T>(s: State<T>) {
    && |s.tasks| == |s.items|
    && |s.slots| == |s.items|
    && match s.consumer
       case Finished => true
       case c => c.slot < |s.items|
  }

  predicate Enabled<T>(s: State<T>, step: Step)
    requires Shape(s)
  {
    match step
    case Write(i) => i < |s.tasks| && s.tasks[i] == Idle && s.coordinator == Running && !MutexHeld(s, i)
    case Notify(i) => i < |s.tasks| && s.tasks[i] == Wrote
    case Fail(i) => i < |s.tasks| && s.tasks[i] == Idle && s.coordinator == Running
    case Skip(i) => i < |s.tasks| && s.tasks[i] == Idle && s.coordinator == Running && AnyPanicked(s.tasks)
    case Return => s.coordinator == Running && AllDone(s.tasks)
    case Unwind => s.coordinator == Running && AllEnded(s.tasks) && AnyPanicked(s.tasks)
    case StoreFlag => s.coordinator == Unwound
    case Wake => s.coordinator.Waking? && s.coordinator.next < |s.slots| && !MutexHeld(s, s.coordinator.next)
    case Resume => s.coordinator == Waking(|s.slots|)
    case Lock => s.consumer.Locking?
    case Test => s.consumer.Testing?
    case Load => s.consumer.Loading?
    case Park => s.consumer.Parking?
    case Call => s.consumer.Calling?
  }

  /** What notify_one on slot `i` does to the only thread that can wait there. */
  function Woken<T>(c: Consumer<T>, i: nat): Consumer<T> {
    if c == Parked(i) then Locking(i) else c
  }

  function Apply<T>(s: State<T>, step: Step): State<T>
    requires Shape(s) && Enabled(s, step)
  {
    match step
    case Write(i) => s.(slots := s.slots[i := Some(s.items[i])], tasks := s.tasks[i := Wrote])
    case Notify(i) => s.(tasks := s.tasks[i := Done], consumer := Woken(s.consumer, i))
    case Fail(i) => s.(tasks := s.tasks[i := Panicked])
    case Skip(i) => s.(tasks := s.tasks[i := Skipped])
    case Return => s.(coordinator := Returned)
    case Unwind => s.(coordinator := Unwound)
    case StoreFlag => s.(coordinator := Waking(0), panicked := true)
    case Wake =>
      var k := s.coordinator.next;
      s.(coordinator := Waking(k + 1), consumer := Woken(s.consumer, k))
    case Resume => s.(coordinator := Returned)
    case Lock => s.(consumer := Testing(s.consumer.slot))
    case Test =>
      var i := s.consumer.slot;
      (match s.slots[i]
       case Some(v) => s.(slots := s.slots[i := None], consumer := Calling(i, v))
       case None => s.(consumer := Loading(i)))
    case Load =>
      var i := s.consumer.slot;
      s.(consumer := if s.panicked then GaveUp(i) else Parking(i))
    case Park => s.(consumer := Parked(s.consumer.slot))
    case Call =>
      var i := s.consumer.slot;
      s.(delivered := s.delivered + [s.consumer.item],
         consumer := if i + 1 == |s.items| then Finished else Locking(i + 1))
  }

  predicate Final<T>(s: State<T>) {
    s.coordinator == Returned && (s.consumer.Finished? || s.consumer.GaveUp?)
  }

  // ---------------------------------------------------------------------------------------
  // Runs
  // ---------------------------------------------------------------------------------------

  /** `states` is the run that `steps` takes from the initial state. */
  ghost predicate IsRun<T>(items: seq<T>, steps: seq<Step>, states: seq<State<T>>) {
    && |states| == |steps| + 1
    && states[0] == Init(items)
    && forall k :: 0 <= k < |steps| ==>
         Shape(states[k]) && Enabled(states[k], steps[k]) && states[k + 1] == Apply(states[k], steps[k])
  }

  // ---------------------------------------------------------------------------------------
  // The invariant
  // ---------------------------------------------------------------------------------------

  /** Number of slots the consumer has emptied. */
  function Taken<T>(s: State<T>): nat {
    match s.consumer
    case Finished => |s.items|
    case Calling(i, _) => i + 1
    case c => c.slot
  }

  /** Slots hold exactly the written and not yet taken values. */
  ghost predicate SlotsInv<T>(s: State<T>)
    requires Shape(s)
  {
    forall j :: 0 <= j < |s.slots| ==>
      if j < Taken(s) then s.slots[j] == None && s.tasks[j].Written()
      else s.slots[j] == if s.tasks[j].Written() then Some(s.items[j]) else None
  }

  ghost predicate DeliveredInv<T>(s: State<T>)
    requires Shape(s)
  {
    match s.consumer
    case Finished => s.delivered == s.items
    case Calling(i, v) => s.delivered == s.items[..i] && v == s.items[i]
    case c => s.delivered == s.items[..c.slot]
  }

  ghost predicate CoordinatorInv<T>(s: State<T>)
    requires Shape(s)
  {
    && (s.coordinator != Running ==> AllEnded(s.tasks))
    && (forall j :: 0 <= j < |s.tasks| && s.tasks[j] == Skipped ==> AnyPanicked(s.tasks))
    && match s.coordinator
       case Running => !s.panicked
       case Unwound => !s.panicked && AnyPanicked(s.tasks)
       case Waking(k) => k <= |s.slots| && s.panicked && AnyPanicked(s.tasks)
       case Returned => if s.panicked then AnyPanicked(s.tasks) else AllDone(s.tasks)
  }

  /** Somebody will still wake a thread waiting on slot `i`. */
  ghost predicate WakeupPending<T>(s: State<T>, i: nat)
    requires Shape(s) && i < |s.items|
  {
    || s.tasks[i] == Idle
    || s.tasks[i] == Wrote
    || (!s.tasks[i].Written() && match s.coordinator
                                case Waking(k) => k <= i
                                case Returned => false
                                case _ => true)
  }

  ghost predicate ConsumerInv<T>(s: State<T>)
    requires Shape(s)
  {
    match s.consumer
    case Loading(i) => s.slots[i] == None
    case Parking(i) => s.slots[i] == None && WakeupPending(s, i)
    case Parked(i) => WakeupPending(s, i)
    case GaveUp(i) => s.panicked && !s.tasks[i].Written()
    case _ => true
  }

  ghost predicate Inv<T>(s: State<T>) {
    Shape(s) && SlotsInv(s) && DeliveredInv(s) && CoordinatorInv(s) && ConsumerInv(s)
  }

  lemma {:induction false} InitInv<T>(items: seq<T>)
    ensures Inv(Init(items))
  {
  }

  lemma {:induction false} ConsumerKeepsSlots<T>(s: State<T>, step: Step)
    requires Inv(s) && Enabled(s, step) && step.ByConsumer()
    ensures Shape(Apply(s, step)) && SlotsInv(Apply(s, step)) && DeliveredInv(Apply(s, step))
  {
  }

  lemma {:induction false} TasksKeepSlots<T>(s: State<T>, step: Step)
    requires Inv(s) && Enabled(s, step) && step.ByTask()
    ensures Shape(Apply(s, step)) && SlotsInv(Apply(s, step)) && DeliveredInv(Apply(s, step))
  {
    assert Taken(Apply(s, step)) == Taken(s);
  }

  lemma {:induction false} CoordinatorKeepsSlots<T>(s: State<T>, step: Step)
    requires Inv(s) && Enabled(s, step) && !step.ByConsumer() && !step.ByTask()
    ensures Shape(Apply(s, step)) && SlotsInv(Apply(s, step)) && DeliveredInv(Apply(s, step))
  {
    assert Taken(Apply(s, step)) == Taken(s);
  }

  /** A panicked task never changes its status again. */
  lemma {:induction false} StillPanicked<T>(s: State<T>, step: Step)
    requires Shape(s) && Enabled(s, step) && AnyPanicked(s.tasks)
    ensures AnyPanicked(Apply(s, step).tasks)
  {
    var p :| 0 <= p < |s.tasks| && s.tasks[p] == Panicked;
    assert Apply(s, step).tasks[p] == Panicked;
  }

  lemma {:induction false} TasksKeepCoordinator<T>(s: State<T>, step: Step)
    requires Inv(s) && Enabled(s, step) && step.ByTask()
    ensures Shape(Apply(s, step)) && CoordinatorInv(Apply(s, step))
  {
    if AnyPanicked(s.tasks) { StillPanicked(s, step); }
  }

  lemma {:induction false} StepKeepsCoordinator<T>(s: State<T>, step: Step)
    requires Inv(s) && Enabled(s, step)
    ensures Shape(Apply(s, step)) && CoordinatorInv(Apply(s, step))
  {
    if step.ByTask() {
      TasksKeepCoordinator(s, step);
    } else {
      assert Apply(s, step).tasks == s.tasks;
    }
  }

  lemma {:induction false} StepKeepsConsumer<T>(s: State<T>, step: Step)
    requires Inv(s) && Enabled(s, step)
    ensures Shape(Apply(s, step)) && ConsumerInv(Apply(s, step))
  {
  }

  lemma {:induction false} StepKeepsInv<T>(s: State<T>, step: Step)
    requires Inv(s) && Enabled(s, step)
    ensures Inv(Apply(s, step))
  {
    if step.ByConsumer() {
      ConsumerKeepsSlots(s, step);
    } else if step.ByTask() {
      TasksKeepSlots(s, step);
    } else {
      CoordinatorKeepsSlots(s, step);
    }
    StepKeepsCoordinator(s, step);
    StepKeepsConsumer(s, step);
  }

  lemma {:induction false} RunKeepsInv<T>(items: seq<T>, steps: seq<Step>, states: seq<State<T>>, k: nat)
    requires IsRun(items, steps, states) && k < |states|
    ensures Inv(states[k]) && states[k].items == items
  {
    if k == 0 {
      InitInv(items);
    } else {
      RunKeepsInv(items, steps, states, k - 1);
      StepKeepsInv(states[k - 1], steps[k - 1]);
    }
  }

  // ---------------------------------------------------------------------------------------
  // Order
  // ---------------------------------------------------------------------------------------

  /** At every moment of every run the callback has seen a prefix of the items, in index order. */
  lemma {:induction false} DeliveredIsPrefix<T>(items: seq<T>, steps: seq<Step>, states: seq<State<T>>, k: nat)
    requires IsRun(items, steps, states) && k < |states|
    ensures states[k].delivered <= items
    ensures k + 1 < |states| ==> states[k].delivered <= states[k + 1].delivered
  {
    RunKeepsInv(items, steps, states, k);
  }

  /** The first slot that was never written. */
  ghost function FirstUnwritten(tasks: seq<Task>): nat {
    if tasks == [] || !tasks[0].Written() then 0 else 1 + FirstUnwritten(tasks[1..])
  }

  lemma {:induction false} FirstUnwrittenIs(tasks: seq<Task>, i: nat)
    requires i < |tasks| && !tasks[i].Written()
    requires forall j :: 0 <= j < i ==> tasks[j].Written()
    ensures FirstUnwritten(tasks) == i
  {
    if i > 0 {
      assert tasks[0].Written();
      FirstUnwrittenIs(tasks[1..], i - 1);
    }
  }

  /**
   A run that has ended has delivered everything, or everything before the first hole, and every
   value that was produced was either delivered or is still in its slot.
   */
  lemma {:induction false} FinalDelivery<T>(items: seq<T>, steps: seq<Step>, states: seq<State<T>>)
    requires IsRun(items, steps, states) && Final(states[|steps|])
    ensures var s := states[|steps|];
            && (s.panicked <==> AnyPanicked(s.tasks))
            && (!s.panicked ==> s.consumer == Finished && s.delivered == items)
            && (s.panicked ==> FirstUnwritten(s.tasks) < |items|
                               && s.delivered == items[..FirstUnwritten(s.tasks)])
            && |s.slots| == |s.tasks| == |items|
            && (forall j :: 0 <= j < |items| ==>
                  s.slots[j] == if s.tasks[j].Written() && j >= |s.delivered| then Some(items[j]) else None)
  {
    var s := states[|steps|];
    RunKeepsInv(items, steps, states, |steps|);
    if s.panicked {
      var p :| 0 <= p < |s.tasks| && s.tasks[p] == Panicked;
      assert !s.tasks[p].Written();
      FirstUnwrittenIs(s.tasks, s.consumer.slot);
    }
  }

  // ---------------------------------------------------------------------------------------
  // No lost wakeup, no deadlock, termination
  // ---------------------------------------------------------------------------------------

  /** A parked consumer always has a wakeup still to come. */
  lemma {:induction false} NoLostWakeup<T>(items: seq<T>, steps: seq<Step>, states: seq<State<T>>, k: nat)
    requires IsRun(items, steps, states) && k < |states| && states[k].consumer.Parked?
    ensures Shape(states[k]) && WakeupPending(states[k], states[k].consumer.slot)
  {
    RunKeepsInv(items, steps, states, k);
  }

  lemma {:induction false} Progress<T>(s: State<T>) returns (step: Step)
    requires Inv(s) && !Final(s)
    ensures Enabled(s, step)
  {
    match s.consumer {
      case Locking(_) => return Lock;
      case Testing(_) => return Test;
      case Loading(_) => return Load;
      case Parking(_) => return Park;
      case Calling(_, _) => return Call;
      case _ =>
    }
    match s.coordinator {
      case Running =>
        if i :| 0 <= i < |s.tasks| && !s.tasks[i].Ended() {
          return if s.tasks[i] == Idle then Write(i) else Notify(i);
        } else {
          return if AnyPanicked(s.tasks) then Unwind else Return;
        }
      case Unwound => return StoreFlag;
      case Waking(k) => return if k < |s.slots| then Wake else Resume;
      case Returned => return Lock;
    }
  }

  function TaskRank(t: Task): nat {
    match t
    case Idle => 2
    case Wrote => 1
    case _ => 0
  }

  function TasksRank(tasks: seq<Task>): nat {
    if tasks == [] then 0 else TaskRank(tasks[0]) + TasksRank(tasks[1..])
  }

  function CoordinatorRank<T>(s: State<T>): nat {
    match s.coordinator
    case Running => |s.slots| + 3
    case Unwound => |s.slots| + 2
    case Waking(k) => if k <= |s.slots| then |s.slots| - k + 1 else 1
    case Returned => 0
  }

  function PhaseRank<T>(c: Consumer<T>): nat {
    match c
    case Locking(_) => 5
    case Testing(_) => 4
    case Loading(_) => 3
    case Calling(_, _) => 3
    case Parking(_) => 2
    case Parked(_) => 1
    case _ => 0
  }

  function ConsumerRank<T>(s: State<T>): nat
    requires Shape(s)
  {
    if s.consumer.Finished? || s.consumer.GaveUp? then 0
    else 6 * (|s.items| - s.consumer.slot) + PhaseRank(s.consumer)
  }

  /** Bounds the number of steps any scheduler can still take. */
  function Rank<T>(s: State<T>): nat
    requires Shape(s)
  {
    5 * (TasksRank(s.tasks) + CoordinatorRank(s)) + ConsumerRank(s)
  }

  lemma {:induction false} TasksRankUpdate(tasks: seq<Task>, i: nat, t: Task)
    requires i < |tasks|
    ensures TasksRank(tasks[i := t]) == TasksRank(tasks) - TaskRank(tasks[i]) + TaskRank(t)
  {
    if i == 0 {
      assert tasks[0 := t][1..] == tasks[1..];
    } else {
      assert tasks[i := t][1..] == tasks[1..][i - 1 := t];
      TasksRankUpdate(tasks[1..], i - 1, t);
    }
  }

  lemma {:induction false} TasksRankInit(n: nat)
    ensures TasksRank(seq(n, i => Idle)) == 2 * n
  {
    if n > 0 {
      assert seq(n, i => Idle)[1..] == seq(n - 1, i => Idle);
      TasksRankInit(n - 1);
    }
  }

  lemma {:induction false} TaskStepDecreasesRank<T>(s: State<T>, step: Step)
    requires Shape(s) && Enabled(s, step) && step.ByTask()
    ensures Shape(Apply(s, step)) && Rank(Apply(s, step)) < Rank(s)
  {
    var t := Apply(s, step).tasks[step.i];
    TasksRankUpdate(s.tasks, step.i, t);
    assert TasksRank(Apply(s, step).tasks) < TasksRank(s.tasks);
    assert CoordinatorRank(Apply(s, step)) == CoordinatorRank(s);
    assert ConsumerRank(Apply(s, step)) <= ConsumerRank(s) + 4;
  }

  lemma {:induction false} OtherStepDecreasesRank<T>(s: State<T>, step: Step)
    requires Shape(s) && Enabled(s, step) && !step.ByTask()
    requires s.coordinator.Waking? ==> s.coordinator.next <= |s.slots|
    ensures Shape(Apply(s, step)) && Rank(Apply(s, step)) < Rank(s)
  {
    assert Apply(s, step).tasks == s.tasks;
    if step.ByConsumer() {
      assert CoordinatorRank(Apply(s, step)) == CoordinatorRank(s);
      assert ConsumerRank(Apply(s, step)) < ConsumerRank(s);
    } else {
      assert CoordinatorRank(Apply(s, step)) < CoordinatorRank(s);
      assert ConsumerRank(Apply(s, step)) <= ConsumerRank(s) + 4;
    }
  }

  lemma {:induction false} StepDecreasesRank<T>(s: State<T>, step: Step)
    requires Inv(s) && Enabled(s, step)
    ensures Shape(Apply(s, step)) && Rank(Apply(s, step)) < Rank(s)
  {
    if step.ByTask() {
      TaskStepDecreasesRank(s, step);
    } else {
      OtherStepDecreasesRank(s, step);
    }
  }

  lemma {:induction false} RunRank<T>(items: seq<T>, steps: seq<Step>, states: seq<State<T>>, k: nat)
    requires IsRun(items, steps, states) && k < |states|
    ensures Shape(states[k]) && Rank(states[k]) + k <= 21 * |items| + 20
  {
    if k == 0 {
      TasksRankInit(|items|);
    } else {
      RunRank(items, steps, states, k - 1);
      RunKeepsInv(items, steps, states, k - 1);
      StepDecreasesRank(states[k - 1], steps[k - 1]);
    }
  }

  /**
   Every run is finite, whatever the scheduler does, and a run that cannot be extended has
   reached the end: the consumer is never stuck in its wait.
   */
  lemma {:induction false} EveryRunTerminates<T>(items: seq<T>, steps: seq<Step>, states: seq<State<T>>)
    requires IsRun(items, steps, states)
    ensures |steps| <= 21 * |items| + 20
    ensures Shape(states[|steps|])
    ensures (forall step :: !Enabled(states[|steps|], step)) <==> Final(states[|steps|])
  {
    var s := states[|steps|];
    RunRank(items, steps, states, |steps|);
    RunKeepsInv(items, steps, states, |steps|);
    if !Final(s) {
      var step := Progress(s);
      assert Enabled(s, step);
    }
  }
}
