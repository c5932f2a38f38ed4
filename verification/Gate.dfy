/** The bounded, priority-ordered admission gate (`PriorityGate`), as a class and as a protocol of atomic steps. */
module Gate {
  // Every critical section of the gate is an atomic step on a `GateState`; the class
  // `PriorityGate` performs these steps on mutable fields, and the `World` state machine
  // interleaves them over any number of tasks.  A notification that follows an unlocked
  // critical section is a step of its own, so every task can run in between.

  import opened Tally
  import opened Wrappers

  type Id = nat
  type Priority = nat

  /** A keyed priority queue: the queued ids, and the one that `peek` answers. */
  datatype Queue = Queue(priority: map<Id, Priority>, front: Option<Id>) {
    ghost predicate Valid() {
      match front
      case None => priority.Keys == {}
      case Some(id) => id in priority && forall other <- priority.Keys :: priority[other] <= priority[id]
    }
  }

  datatype GateState = GateState(slots: nat, queue: Queue)

  /** A queue whose contents are `priority` has some front: ties are broken arbitrarily. */
  lemma {:induction false} FrontExists(priority: map<Id, Priority>)
    ensures exists front :: Queue(priority, front).Valid()
  {
    if priority.Keys == {} {
      assert Queue(priority, None).Valid();
    } else {
      var id :| id in priority;
      var rest := priority - {id};
      assert |rest.Keys| < |priority.Keys| by {
        assert rest.Keys == priority.Keys - {id};
      }
      FrontExists(rest);
      var front :| Queue(rest, front).Valid();
      match front
      case None =>
        assert priority.Keys == {id};
        assert Queue(priority, Some(id)).Valid();
      case Some(best) =>
        var winner := if priority[id] <= priority[best] then best else id;
        forall other <- priority.Keys ensures priority[other] <= priority[winner] {
          if other != id { assert other in rest && rest[other] <= rest[best]; }
        }
        assert Queue(priority, Some(winner)).Valid();
    }
  }

  // ---------------------------------------------------------------------------------
  // The critical sections, each run with the gate's lock held.

  /** Queueing `id`: nobody but a new `id` itself can take over the front. */
  ghost predicate Pushes(s: GateState, id: Id, priority: Priority, s': GateState) {
    && s'.slots == s.slots
    && s'.queue.priority == s.queue.priority[id := priority]
    && s'.queue.Valid()
    && (id !in s.queue.priority ==> s'.queue.front in {s.queue.front, Some(id)})
  }

  predicate MayClaim(s: GateState, id: Id) {
    s.queue.front == Some(id) && s.slots > 0
  }

  /** `id` looks whether it may proceed, and takes a slot if so. */
  ghost predicate Claims(s: GateState, id: Id, s': GateState) {
    if MayClaim(s, id) then
      s'.slots == s.slots - 1 && s'.queue.priority == s.queue.priority - {id} && s'.queue.Valid()
    else
      s' == s
  }

  ghost predicate Removes(s: GateState, id: Id, s': GateState) {
    s'.slots == s.slots && s'.queue.priority == s.queue.priority - {id} && s'.queue.Valid()
  }

  ghost predicate Reprioritises(s: GateState, id: Id, priority: Priority, s': GateState) {
    if id in s.queue.priority then
      s'.slots == s.slots && s'.queue.priority == s.queue.priority[id := priority] && s'.queue.Valid()
    else
      s' == s
  }

  function Released(s: GateState, capacity: nat): GateState {
    s.(slots := Min(s.slots + 1, capacity))
  }

  /** The gate as an object: one method for each critical section. */
  class PriorityGate {
    const capacity: nat
    var slots: nat
    var queue: Queue

    ghost predicate Valid()
      reads this
    {
      1 <= capacity && slots <= capacity && queue.Valid()
    }

    function State(): GateState
      reads this
    {
      GateState(slots, queue)
    }

    constructor (capacity: nat)
      ensures Valid()
      ensures this.capacity == if capacity == 0 then 1 else capacity
      ensures State() == GateState(this.capacity, Queue(map[], None))
    {
      this.capacity := if capacity == 0 then 1 else capacity;
      slots := if capacity == 0 then 1 else capacity;
      queue := Queue(map[], None);
    }

    method Push(id: Id, priority: Priority)
      requires Valid()
      modifies this`queue
      ensures Valid() && Pushes(old(State()), id, priority, State())
    {
      var pushed := queue.priority[id := priority];
      if id in queue.priority {
        var chosen := PickFront(pushed);
        queue := Queue(pushed, chosen);
      } else {
        match queue.front
        case None =>
          queue := Queue(pushed, Some(id));
        case Some(best) =>
          queue := Queue(pushed, if queue.priority[best] < priority then Some(id) else queue.front);
      }
    }

    method TryClaim(id: Id) returns (acquired: bool)
      requires Valid()
      modifies this`slots, this`queue
      ensures Valid() && Claims(old(State()), id, State())
      ensures acquired == old(MayClaim(State(), id))
    {
      acquired := queue.front == Some(id) && slots > 0;
      if acquired {
        slots := slots - 1;
        var left := queue.priority - {id};
        var front := PickFront(left);
        queue := Queue(left, front);
      }
    }

    method SetPriority(id: Id, priority: Priority)
      requires Valid()
      modifies this`queue
      ensures Valid() && Reprioritises(old(State()), id, priority, State())
    {
      if id in queue.priority {
        var changed := queue.priority[id := priority];
        var front := PickFront(changed);
        queue := Queue(changed, front);
      }
    }

    method Remove(id: Id)
      requires Valid()
      modifies this`queue
      ensures Valid() && Removes(old(State()), id, State())
    {
      var left := queue.priority - {id};
      var front := PickFront(left);
      queue := Queue(left, front);
    }

    method Release()
      requires Valid()
      modifies this`slots
      ensures Valid() && State() == Released(old(State()), capacity)
    {
      slots := Min(slots + 1, capacity);
    }

    /** Capacity, permits in flight and waiters. */
    method Stats() returns (total: nat, inFlight: nat, waiting: nat)
      requires Valid()
      ensures total == capacity && inFlight + slots == capacity && waiting == |queue.priority|
    {
      total, inFlight, waiting := capacity, capacity - slots, |queue.priority|;
    }
  }

  /** A front for `priority`, found by looking at every queued id. */
  method PickFront(priority: map<Id, Priority>) returns (front: Option<Id>)
    ensures Queue(priority, front).Valid()
  {
    front := None;
    var left := priority.Keys;
    while left != {}
      invariant left <= priority.Keys
      invariant Queue(priority - left, front).Valid()
      decreases left
    {
      var id :| id in left;
      ghost var seen := priority - left;
      left := left - {id};
      assert (priority - left).Keys == seen.Keys + {id};
      if front == None || priority[front.value] < priority[id] {
        front := Some(id);
      }
    }
    assert priority - left == priority;
  }

  // ---------------------------------------------------------------------------------
  // The protocol.

  /** Where one acquiring task stands. */
  datatype Phase =
    | Queued                     // pushed, about to register a listener
    | Armed(notified: bool)      // listening, about to look at the gate
    | Asleep(notified: bool)     // awaiting its listener
    | Holding                    // owns a permit
    | Releasing                  // slot returned, notification still to be sent
    | Cancelling                 // dropped while waiting: left the queue, notification still to be sent
    | Finished
    | Cancelled

  /** The gate, its tasks, and how many re-prioritisations still owe their notification. */
  datatype World = World(capacity: nat, gate: GateState, tasks: map<Id, Phase>, reprioritising: nat)

  datatype Step =
    | Arrive(id: Id, priority: Priority)
    | Listen(id: Id)
    | Check(id: Id)
    | Wake(id: Id)
    | Release(id: Id)
    | Notify(id: Id)
    | Cancel(id: Id)
    | Reprioritise(id: Id, priority: Priority)
    | NotifyReprioritised

  predicate IsWaiting(phase: Phase) { phase.Queued? || phase.Armed? || phase.Asleep? }

  predicate OwesNotify(phase: Phase) { phase.Releasing? || phase.Cancelling? }

  ghost function Waiting(tasks: map<Id, Phase>): set<Id> {
    set id | id in tasks && IsWaiting(tasks[id])
  }

  ghost function Holders(tasks: map<Id, Phase>): set<Id> {
    set id | id in tasks && tasks[id].Holding?
  }

  ghost predicate NotifyPending(w: World) {
    w.reprioritising > 0 || exists id :: id in w.tasks && OwesNotify(w.tasks[id])
  }

  function Notified(phase: Phase): Phase {
    match phase
    case Armed(_) => Armed(true)
    case Asleep(_) => Asleep(true)
    case _ => phase
  }

  /** Every registered listener is notified. */
  function NotifyAll(tasks: map<Id, Phase>): map<Id, Phase> {
    map id | id in tasks :: Notified(tasks[id])
  }

  /** Whether `step` can happen.  `Arrive` needs an id that was never used; a task can only
      be dropped while it is suspended. */
  predicate Enabled(w: World, step: Step) {
    match step
    case Arrive(id, _) => id !in w.tasks
    case Listen(id) => id in w.tasks && w.tasks[id].Queued?
    case Check(id) => id in w.tasks && w.tasks[id].Armed?
    case Wake(id) => id in w.tasks && w.tasks[id] == Asleep(true)
    case Release(id) => id in w.tasks && w.tasks[id].Holding?
    case Notify(id) => id in w.tasks && OwesNotify(w.tasks[id])
    case Cancel(id) => id in w.tasks && w.tasks[id].Asleep?
    case Reprioritise(_, _) => true
    case NotifyReprioritised => w.reprioritising > 0
  }

  ghost predicate Next(w: World, step: Step, w': World) {
    && Enabled(w, step)
    && w'.capacity == w.capacity
    && match step
       case Arrive(id, priority) =>
         Pushes(w.gate, id, priority, w'.gate) && w'.tasks == w.tasks[id := Queued]
             && w'.reprioritising == w.reprioritising
       case Listen(id) =>
         w' == w.(tasks := w.tasks[id := Armed(false)])
       case Check(id) =>
         && Claims(w.gate, id, w'.gate)
         && w'.tasks == w.tasks[id := if MayClaim(w.gate, id) then Holding else Asleep(w.tasks[id].notified)]
         && w'.reprioritising == w.reprioritising
       case Wake(id) =>
         w' == w.(tasks := w.tasks[id := Queued])
       case Release(id) =>
         w' == w.(gate := Released(w.gate, w.capacity), tasks := w.tasks[id := Releasing])
       case Notify(id) =>
         w' == w.(tasks := NotifyAll(w.tasks)[id := if w.tasks[id].Releasing? then Finished else Cancelled])
       case Cancel(id) =>
         Removes(w.gate, id, w'.gate) && w'.tasks == w.tasks[id := Cancelling] && w'.reprioritising == w.reprioritising
       case Reprioritise(id, priority) =>
         Reprioritises(w.gate, id, priority, w'.gate) && w'.tasks == w.tasks
             && w'.reprioritising == w.reprioritising + 1
       case NotifyReprioritised =>
         w' == w.(tasks := NotifyAll(w.tasks), reprioritising := w.reprioritising - 1)
  }

  ghost predicate Init(w: World) {
    && 1 <= w.capacity
    && w == World(w.capacity, GateState(w.capacity, Queue(map[], None)), map[], 0)
  }

  /** `steps[i]` leads from `trace[i]` to `trace[i + 1]`. */
  ghost predicate IsRun(trace: seq<World>, steps: seq<Step>) {
    && |trace| == |steps| + 1
    && forall i {:trigger steps[i]} | 0 <= i < |steps| :: Next(trace[i], steps[i], trace[i + 1])
  }

  /** If the task at the front of the queue sleeps un-notified, its wake-up is still to come. */
  ghost predicate FrontNotLost(w: World) {
    match w.gate.queue.front
    case None => true
    case Some(id) =>
      id in w.tasks && w.tasks[id] == Asleep(false) ==> Holders(w.tasks) != {} || NotifyPending(w)
  }

  /** Slots and permits add up, and exactly the waiting tasks are queued. */
  ghost predicate Accounted(w: World) {
    && 1 <= w.capacity
    && w.gate.slots + |Holders(w.tasks)| == w.capacity
    && w.gate.queue.Valid()
    && w.gate.queue.priority.Keys == Waiting(w.tasks)
  }

  ghost predicate Inv(w: World) {
    Accounted(w) && FrontNotLost(w)
  }

  lemma HoldersAfter(tasks: map<Id, Phase>, id: Id, phase: Phase)
    ensures Holders(tasks[id := phase]) == if phase.Holding? then Holders(tasks) + {id} else Holders(tasks) - {id}
    ensures Waiting(tasks[id := phase]) == if IsWaiting(phase) then Waiting(tasks) + {id} else Waiting(tasks) - {id}
  {
  }

  lemma HoldersAfterNotify(tasks: map<Id, Phase>)
    ensures Holders(NotifyAll(tasks)) == Holders(tasks)
    ensures Waiting(NotifyAll(tasks)) == Waiting(tasks)
  {
  }

  lemma PendingAfterArrival(w: World, id: Id, w': World)
    requires id !in w.tasks && w'.tasks == w.tasks[id := Queued] && w'.reprioritising == w.reprioritising
    ensures NotifyPending(w) ==> NotifyPending(w')
  {
    if NotifyPending(w) && w.reprioritising == 0 {
      var other :| other in w.tasks && OwesNotify(w.tasks[other]);
      assert other in w'.tasks && OwesNotify(w'.tasks[other]);
    }
  }

  /** A pending notification stays pending while other tasks move. */
  lemma PendingAfter(w: World, id: Id, phase: Phase, w': World)
    requires id in w.tasks && !OwesNotify(w.tasks[id])
    requires w'.tasks == w.tasks[id := phase] && w'.reprioritising == w.reprioritising
    ensures NotifyPending(w) ==> NotifyPending(w')
  {
    if NotifyPending(w) && w.reprioritising == 0 {
      var other :| other in w.tasks && OwesNotify(w.tasks[other]);
      assert other in w'.tasks && OwesNotify(w'.tasks[other]);
    }
  }

  lemma ReleaseAccounted(w: World, id: Id, w': World)
    requires Accounted(w) && Next(w, Release(id), w')
    ensures Accounted(w') && w'.gate.slots == w.gate.slots + 1
  {
    HoldersAfter(w.tasks, id, Releasing);
    assert id in Holders(w.tasks);
  }

  lemma NotifyAccounted(w: World, id: Id, w': World)
    requires Accounted(w) && Next(w, Notify(id), w')
    ensures Accounted(w')
  {
    HoldersAfterNotify(w.tasks);
    HoldersAfter(NotifyAll(w.tasks), id, w'.tasks[id]);
  }

  lemma CheckAccounted(w: World, id: Id, w': World)
    requires Accounted(w) && Next(w, Check(id), w')
    ensures Accounted(w')
  {
    HoldersAfter(w.tasks, id, w'.tasks[id]);
    assert id in Waiting(w.tasks) && id !in Holders(w.tasks);
  }

  /** A task that neither takes nor returns a permit moves, and the queue follows. */
  lemma MoveAccounted(w: World, id: Id, phase: Phase, w': World)
    requires Accounted(w) && w'.capacity == w.capacity && w'.gate.slots == w.gate.slots && w'.gate.queue.Valid()
    requires w'.tasks == w.tasks[id := phase] && !phase.Holding? && id !in Holders(w.tasks)
    requires w'.gate.queue.priority.Keys
          == if IsWaiting(phase) then w.gate.queue.priority.Keys + {id} else w.gate.queue.priority.Keys - {id}
    ensures Accounted(w')
  {
    HoldersAfter(w.tasks, id, phase);
  }

  /** Slots and permits keep adding up; in particular the `min` in `release` and the
      saturating subtraction of a claim never take effect. */
  lemma AccountedStep(w: World, step: Step, w': World)
    requires Accounted(w) && Next(w, step, w')
    ensures Accounted(w')
    ensures step.Release? ==> w'.gate.slots == w.gate.slots + 1
  {
    match step
    case Arrive(id, _) => MoveAccounted(w, id, Queued, w');
    case Listen(id) =>
      assert id in Waiting(w.tasks);
      MoveAccounted(w, id, Armed(false), w');
    case Check(id) => CheckAccounted(w, id, w');
    case Wake(id) =>
      assert id in Waiting(w.tasks);
      MoveAccounted(w, id, Queued, w');
    case Release(id) => ReleaseAccounted(w, id, w');
    case Notify(id) => NotifyAccounted(w, id, w');
    case Cancel(id) => MoveAccounted(w, id, Cancelling, w');
    case Reprioritise(_, _) =>
    case NotifyReprioritised => HoldersAfterNotify(w.tasks);
  }

  /** A task that goes to sleep at the front of the queue found no free slot, and whatever
      brings another sleeper to the front is followed by a notification or holds a permit. */
  lemma FrontNotLostStep(w: World, step: Step, w': World)
    requires Inv(w) && Next(w, step, w')
    ensures FrontNotLost(w')
  {
    match step
    case Arrive(id, _) =>
      HoldersAfter(w.tasks, id, Queued);
      PendingAfterArrival(w, id, w');
    case Listen(id) => HoldersAfter(w.tasks, id, Armed(false)); PendingAfter(w, id, Armed(false), w');
    case Check(id) =>
      HoldersAfter(w.tasks, id, w'.tasks[id]);
      PendingAfter(w, id, w'.tasks[id], w');
      if MayClaim(w.gate, id) {
        assert id in Holders(w'.tasks);
      } else if w.gate.queue.front == Some(id) {
        assert |Holders(w.tasks)| > 0;
      }
    case Wake(id) => HoldersAfter(w.tasks, id, Queued); PendingAfter(w, id, Queued, w');
    case Release(id) => assert OwesNotify(w'.tasks[id]);
    case Notify(id) =>
    case Cancel(id) => assert OwesNotify(w'.tasks[id]);
    case Reprioritise(_, _) =>
    case NotifyReprioritised =>
  }

  /** Every step of every task keeps the gate's invariant. */
  lemma InvStep(w: World, step: Step, w': World)
    requires Inv(w) && Next(w, step, w')
    ensures Inv(w')
  {
    AccountedStep(w, step, w');
    FrontNotLostStep(w, step, w');
  }

  /** The invariant holds throughout every run, in every interleaving. */
  lemma {:induction false} InvRun(trace: seq<World>, steps: seq<Step>, i: nat)
    requires IsRun(trace, steps) && Init(trace[0]) && i < |trace|
    ensures Inv(trace[i])
  {
    if i > 0 {
      InvRun(trace, steps, i - 1);
      InvStep(trace[i - 1], steps[i - 1], trace[i]);
    } else {
      assert Holders(trace[0].tasks) == {};
    }
  }

  /** A task is only ever admitted from the front: no waiter outranks it, and the number of
      permits held stays within capacity. */
  lemma AdmissionByPriority(w: World, id: Id, w': World)
    requires Inv(w) && Next(w, Check(id), w') && w'.tasks[id].Holding?
    ensures forall other <- Waiting(w.tasks) ::
              w.gate.queue.priority[other] <= w.gate.queue.priority[id]
    ensures |Holders(w'.tasks)| == |Holders(w.tasks)| + 1 <= w.capacity
  {
    InvStep(w, Check(id), w');
    HoldersAfter(w.tasks, id, Holding);
    assert id !in Holders(w.tasks);
  }

  // ---------------------------------------------------------------------------------
  // Progress: when nobody arrives, cancels or re-prioritises, every waiter is admitted.

  predicate IsSystem(step: Step) {
    !(step.Arrive? || step.Cancel? || step.Reprioritise?)
  }

  /** How many notifications a task can still cause. */
  function Debt(phase: Phase): nat {
    if IsWaiting(phase) then 3 else if phase.Holding? then 2 else if OwesNotify(phase) then 1 else 0
  }

  /** How many steps a waiting task can still take without being notified again. */
  function Unrest(phase: Phase): nat {
    match phase
    case Armed(notified) => if notified then 4 else 1
    case Asleep(notified) => if notified then 3 else 0
    case Queued => 2
    case _ => 0
  }

  ghost function Owed(w: World): nat { Total(w.tasks, Debt, 3) + w.reprioritising }

  /** Bounds the number of system steps still possible. */
  ghost function Potential(w: World): nat {
    Owed(w) * (4 * |w.tasks| + 1) + Total(w.tasks, Unrest, 4)
  }

  lemma PotentialDrop(w: World, w': World)
    requires |w'.tasks| == |w.tasks|
    requires Owed(w') < Owed(w) || (Owed(w') == Owed(w) && Total(w'.tasks, Unrest, 4) < Total(w.tasks, Unrest, 4))
    ensures Potential(w') < Potential(w)
  {
    TotalBound(w'.tasks, Unrest, 4);
    var n := 4 * |w.tasks| + 1;
    if Owed(w') < Owed(w) {
      ScaleGap(Owed(w'), Owed(w), n);
    }
  }

  lemma ScaleGap(a: nat, b: nat, n: nat)
    requires a < b
    ensures a * n + n <= b * n
  {
    assert b * n == a * n + (b - a) * n;
    assert (b - a) * n >= n by { assert (b - a - 1) * n >= 0; }
  }

  /** One task moves on by itself. */
  lemma MoveDecreases(w: World, id: Id, phase: Phase, w': World)
    requires id in w.tasks && w'.tasks == w.tasks[id := phase] && w'.reprioritising == w.reprioritising
    requires Debt(phase) < Debt(w.tasks[id])
             || (Debt(phase) == Debt(w.tasks[id]) && Unrest(phase) < Unrest(w.tasks[id]))
    ensures Potential(w') < Potential(w) && w'.tasks.Keys == w.tasks.Keys
  {
    TotalAfter(w.tasks, Debt, id, phase, 3);
    TotalAfter(w.tasks, Unrest, id, phase, 4);
    assert w'.tasks.Keys == w.tasks.Keys;
    assert |w'.tasks| == |w'.tasks.Keys| == |w.tasks.Keys| == |w.tasks|;
    PotentialDrop(w, w');
  }

  /** A notification is sent: everybody may stir, but the debt shrinks. */
  lemma NotifyDecreases(w: World, step: Step, w': World)
    requires Next(w, step, w') && (step.Notify? || step.NotifyReprioritised?)
    ensures Potential(w') < Potential(w) && w'.tasks.Keys == w.tasks.Keys
  {
    TotalSame(w.tasks, NotifyAll(w.tasks), Debt, 3);
    if step.Notify? {
      TotalAfter(NotifyAll(w.tasks), Debt, step.id, w'.tasks[step.id], 3);
    }
    assert w'.tasks.Keys == w.tasks.Keys;
    assert |w'.tasks| == |w'.tasks.Keys| == |w.tasks.Keys| == |w.tasks|;
    PotentialDrop(w, w');
  }

  /** Every system step, whichever task takes it, uses up potential. */
  lemma SystemStepDecreases(w: World, step: Step, w': World)
    requires Next(w, step, w') && IsSystem(step)
    ensures Potential(w') < Potential(w) && w'.tasks.Keys == w.tasks.Keys
  {
    match step
    case Listen(id) => MoveDecreases(w, id, w'.tasks[id], w');
    case Check(id) => MoveDecreases(w, id, w'.tasks[id], w');
    case Wake(id) => MoveDecreases(w, id, w'.tasks[id], w');
    case Release(id) => MoveDecreases(w, id, w'.tasks[id], w');
    case Notify(_) => NotifyDecreases(w, step, w');
    case NotifyReprioritised => NotifyDecreases(w, step, w');
  }

  /** Every enabled step can be carried out. */
  lemma StepExists(w: World, step: Step)
    requires Inv(w) && Enabled(w, step)
    ensures exists w' :: Next(w, step, w')
  {
    var queue := w.gate.queue;
    match step
    case Arrive(id, priority) =>
      var front := if queue.front.Some? && queue.priority[queue.front.value] >= priority then queue.front else Some(id);
      var gate := w.gate.(queue := Queue(queue.priority[id := priority], front));
      assert Next(w, step, w.(gate := gate, tasks := w.tasks[id := Queued]));
    case Listen(id) => assert Next(w, step, w.(tasks := w.tasks[id := Armed(false)]));
    case Check(id) =>
      if MayClaim(w.gate, id) {
        FrontExists(queue.priority - {id});
        var front :| Queue(queue.priority - {id}, front).Valid();
        var gate := GateState(w.gate.slots - 1, Queue(queue.priority - {id}, front));
        assert Next(w, step, w.(gate := gate, tasks := w.tasks[id := Holding]));
      } else {
        assert Next(w, step, w.(tasks := w.tasks[id := Asleep(w.tasks[id].notified)]));
      }
    case Wake(id) => assert Next(w, step, w.(tasks := w.tasks[id := Queued]));
    case Release(id) =>
      assert Next(w, step, w.(gate := Released(w.gate, w.capacity), tasks := w.tasks[id := Releasing]));
    case Notify(id) =>
      var last := if w.tasks[id].Releasing? then Finished else Cancelled;
      assert Next(w, step, w.(tasks := NotifyAll(w.tasks)[id := last]));
    case Cancel(id) =>
      FrontExists(queue.priority - {id});
      var front :| Queue(queue.priority - {id}, front).Valid();
      var gate := w.gate.(queue := Queue(queue.priority - {id}, front));
      assert Next(w, step, w.(gate := gate, tasks := w.tasks[id := Cancelling]));
    case Reprioritise(id, priority) =>
      if id in queue.priority {
        FrontExists(queue.priority[id := priority]);
        var front :| Queue(queue.priority[id := priority], front).Valid();
        var gate := w.gate.(queue := Queue(queue.priority[id := priority], front));
        assert Next(w, step, w.(gate := gate, reprioritising := w.reprioritising + 1));
      } else {
        assert Next(w, step, w.(reprioritising := w.reprioritising + 1));
      }
    case NotifyReprioritised =>
      assert Next(w, step, w.(tasks := NotifyAll(w.tasks), reprioritising := w.reprioritising - 1));
  }

  /** No system step is enabled. */
  ghost predicate Quiescent(w: World) {
    forall step | IsSystem(step) :: !Enabled(w, step)
  }

  /** No stuck state: when no task can move, nobody waits and every permit is back. */
  lemma QuiescentIsIdle(w: World)
    requires Inv(w) && Quiescent(w)
    ensures Waiting(w.tasks) == {} && Holders(w.tasks) == {} && w.gate.slots == w.capacity
    ensures forall id <- w.tasks.Keys :: w.tasks[id] in {Finished, Cancelled}
  {
    assert !Enabled(w, NotifyReprioritised);
    forall id <- w.tasks.Keys
      ensures w.tasks[id] in {Asleep(false), Finished, Cancelled}
    {
      assert !Enabled(w, Listen(id)) && !Enabled(w, Check(id)) && !Enabled(w, Wake(id));
      assert !Enabled(w, Release(id)) && !Enabled(w, Notify(id));
    }
    assert Holders(w.tasks) == {} && !NotifyPending(w);
    assert w.gate.queue.front == None;
    forall id <- w.tasks.Keys ensures w.tasks[id] in {Finished, Cancelled} {
      assert id !in Waiting(w.tasks);
    }
  }

  /** Phases in which a task that began waiting was, or still may be, served. */
  predicate Served(phase: Phase) { phase.Holding? || phase.Releasing? || phase.Finished? }

  ghost predicate Engaged(w: World, id: Id) {
    id in w.tasks && (IsWaiting(w.tasks[id]) || Served(w.tasks[id]))
  }

  lemma EngagedStep(w: World, step: Step, w': World, id: Id)
    requires Next(w, step, w') && IsSystem(step) && Engaged(w, id)
    ensures Engaged(w', id)
  {
  }

  lemma {:induction false} SystemRun(trace: seq<World>, steps: seq<Step>, n: nat)
    requires IsRun(trace, steps) && Inv(trace[0]) && (forall step <- steps :: IsSystem(step)) && n <= |steps|
    ensures Inv(trace[n]) && n + Potential(trace[n]) <= Potential(trace[0])
    ensures forall id <- Waiting(trace[0].tasks) :: Engaged(trace[n], id)
  {
    if n > 0 {
      SystemRun(trace, steps, n - 1);
      var w, step, w' := trace[n - 1], steps[n - 1], trace[n];
      assert step in steps;
      InvStep(w, step, w');
      SystemStepDecreases(w, step, w');
      forall id <- Waiting(trace[0].tasks) ensures Engaged(w', id) {
        EngagedStep(w, step, w', id);
      }
    }
  }

  /** Liveness under every scheduler: from any reachable state, a run in which nobody
      arrives, cancels or re-prioritises is finite, and where it can go no further every
      task that waited has been admitted and has returned its permit. */
  lemma EveryWaiterIsAdmitted(past: seq<World>, pastSteps: seq<Step>, trace: seq<World>, steps: seq<Step>)
    requires IsRun(past, pastSteps) && Init(past[0])
    requires IsRun(trace, steps) && trace[0] == past[|pastSteps|] && forall step <- steps :: IsSystem(step)
    ensures |steps| <= Potential(trace[0])
    ensures Quiescent(trace[|steps|]) ==>
              forall id <- Waiting(trace[0].tasks) :: id in trace[|steps|].tasks && trace[|steps|].tasks[id].Finished?
    ensures !Quiescent(trace[|steps|]) ==>
              exists step, w' :: IsSystem(step) && Next(trace[|steps|], step, w')
  {
    InvRun(past, pastSteps, |pastSteps|);
    SystemRun(trace, steps, |steps|);
    var last := trace[|steps|];
    if Quiescent(last) {
      QuiescentIsIdle(last);
    } else {
      var step :| IsSystem(step) && Enabled(last, step);
      StepExists(last, step);
    }
  }
}
