/** The spawn/shutdown protocol of `ClientScope` and `ScopedAbortGuard`.

    Spawners, finishing tasks and any number of `shutdown` callers interleave; the registration
    mutex is explicit, so a step that needs it waits until it is free. */
module ClientScope {

  /** A task of the scope. `Finishing` has ended its body and is dropping its guard, `Dropped` has
      removed its abort handle and is still counted by the tracker, `Gone` is not. */
  datatype Task = Submitted | Running | Finishing | Dropped | Gone

  /** Who holds the registration mutex, and how far it has got. */
  datatype Lock =
    | Free
    | Checking
    | Admitted(id: nat)
    | Tracked(id: nat)
    | Closing
    | Cancelling
    | Removing(id: nat)

  datatype State = State(
    lock: Lock,
    closing: bool,
    trackerClosed: bool,
    tasks: map<nat, Task>,
    aborts: set<nat>,
    aborted: set<nat>,
    nextId: nat,
    drained: bool)

  datatype Step =
    | LockSpawn
    | Refuse
    | Admit
    | Register
    | Insert
    | Poll(id: nat)
    | Done(id: nat)
    | LockDrop(id: nat)
    | Remove
    | Untrack(id: nat)
    | LockClose
    | SetClosing
    | CloseTracker
    | SeeEmpty
    | Abort(id: nat)
    | Kill(id: nat)

  const INIT := State(Free, false, false, map[], {}, {}, 1, false)

  predicate Is(s: State, id: nat, t: Task) { id in s.tasks && s.tasks[id] == t }

  /** The tracker still counts this task. */
  predicate Counted(s: State, id: nat) { id in s.tasks && !s.tasks[id].Gone? }

  /** Its guard has not finished dropping. */
  predicate Guarded(s: State, id: nat) {
    id in s.tasks && (s.tasks[id].Submitted? || s.tasks[id].Running? || s.tasks[id].Finishing?)
  }

  predicate Empty(s: State) { forall id :: id in s.tasks ==> s.tasks[id].Gone? }

  predicate Enabled(s: State, step: Step) {
    match step
    case LockSpawn => s.lock.Free?
    case Refuse => s.lock.Checking? && s.closing
    case Admit => s.lock.Checking? && !s.closing
    case Register => s.lock.Admitted?
    case Insert => s.lock.Tracked?
    case Poll(id) => Is(s, id, Submitted)
    case Done(id) => Is(s, id, Running)
    case LockDrop(id) => s.lock.Free? && Is(s, id, Finishing)
    case Remove => s.lock.Removing?
    case Untrack(id) => Is(s, id, Dropped)
    case LockClose => s.lock.Free?
    case SetClosing => s.lock.Closing?
    case CloseTracker => s.lock.Cancelling?
    case SeeEmpty => s.trackerClosed && Empty(s)
    case Abort(id) => s.trackerClosed && id in s.aborts
    case Kill(id) => id in s.aborted && Is(s, id, Submitted)
  }

  function Apply(s: State, step: Step): State
    requires Enabled(s, step)
  {
    match step
    case LockSpawn => s.(lock := Checking)
    case Refuse => s.(lock := Free)
    case Admit => s.(lock := Admitted(s.nextId), nextId := s.nextId + 1)
    case Register => s.(lock := Tracked(s.lock.id), tasks := s.tasks[s.lock.id := Submitted])
    case Insert => s.(lock := Free, aborts := s.aborts + {s.lock.id})
    case Poll(id) => s.(tasks := s.tasks[id := Running])
    case Done(id) => s.(tasks := s.tasks[id := Finishing])
    case LockDrop(id) => s.(lock := Removing(id))
    case Remove => s.(lock := Free, aborts := s.aborts - {s.lock.id}, tasks := s.tasks[s.lock.id := Dropped])
    case Untrack(id) => s.(tasks := s.tasks[id := Gone])
    case LockClose => s.(lock := Closing)
    case SetClosing => s.(lock := if s.closing then Free else Cancelling, closing := true)
    case CloseTracker => s.(lock := Free, trackerClosed := true)
    case SeeEmpty => s.(drained := true)
    case Abort(id) => s.(aborted := s.aborted + {id})
    case Kill(id) => s.(tasks := s.tasks[id := Dropped])
  }

  predicate Runs(s: State, steps: seq<Step>)
    decreases |steps|
  {
    steps == [] || (Enabled(s, steps[0]) && Runs(Apply(s, steps[0]), steps[1..]))
  }

  function Exec(s: State, steps: seq<Step>): State
    requires Runs(s, steps)
    decreases |steps|
  {
    if steps == [] then s else Exec(Apply(s, steps[0]), steps[1..])
  }

  lemma RunsCons(s: State, step: Step, rest: seq<Step>)
    requires Enabled(s, step) && Runs(Apply(s, step), rest)
    ensures Runs(s, [step] + rest) && Exec(s, [step] + rest) == Exec(Apply(s, step), rest)
  {
  }

  /** What every step keeps. */
  ghost predicate Inv(s: State) {
    && (forall id :: id in s.tasks ==> id < s.nextId)
    && (s.lock.Admitted? ==> !s.closing && s.lock.id !in s.tasks && s.lock.id < s.nextId)
    && (s.lock.Tracked? ==> !s.closing && s.lock.id in s.tasks && s.lock.id !in s.aborts)
    && (s.lock.Tracked? ==> Guarded(s, s.lock.id))
    && (s.lock.Removing? ==> Is(s, s.lock.id, Finishing))
    && (s.lock.Cancelling? <==> s.closing && !s.trackerClosed)
    && (s.trackerClosed ==> s.closing)
    && (forall id :: id in s.aborts ==> Guarded(s, id) || id in s.aborted)
    && (forall id :: Guarded(s, id) ==> id in s.aborts || s.lock == Tracked(id))
    && (s.aborted != {} ==> s.trackerClosed)
    && (s.drained ==> s.closing && Empty(s))
  }

  lemma StepKeepsInv(s: State, step: Step)
    requires Inv(s) && Enabled(s, step)
    ensures Inv(Apply(s, step))
  {
  }

  lemma {:induction false} RunKeepsInv(s: State, steps: seq<Step>)
    requires Inv(s) && Runs(s, steps)
    ensures Inv(Exec(s, steps))
    decreases |steps|
  {
    if steps != [] {
      StepKeepsInv(s, steps[0]);
      RunKeepsInv(Apply(s, steps[0]), steps[1..]);
    }
  }

  /** Once closing is set no task is ever registered: the set of tasks cannot grow. */
  lemma {:induction false} ClosingAdmitsNothing(s: State, steps: seq<Step>)
    requires Inv(s) && s.closing && Runs(s, steps)
    ensures Exec(s, steps).tasks.Keys == s.tasks.Keys && Exec(s, steps).closing
    decreases |steps|
  {
    if steps != [] {
      StepKeepsInv(s, steps[0]);
      ClosingAdmitsNothing(Apply(s, steps[0]), steps[1..]);
    }
  }

  /** The drain is airtight: in every run, once some `shutdown` caller has observed an empty closed
      tracker, the tracker is empty in every later state. */
  lemma DrainIsFinal(steps: seq<Step>, later: seq<Step>)
    requires Runs(INIT, steps) && Runs(Exec(INIT, steps), later)
    requires Exec(INIT, steps).trackerClosed && Empty(Exec(INIT, steps))
    ensures Empty(Exec(Exec(INIT, steps), later))
  {
    RunKeepsInv(INIT, steps);
    var s := Exec(INIT, steps);
    EmptyStaysEmpty(s, later);
  }

  lemma {:induction false} EmptyStaysEmpty(s: State, steps: seq<Step>)
    requires Inv(s) && s.closing && Empty(s) && Runs(s, steps)
    ensures Empty(Exec(s, steps))
    decreases |steps|
  {
    if steps != [] {
      StepKeepsInv(s, steps[0]);
      EmptyStaysEmpty(Apply(s, steps[0]), steps[1..]);
    }
  }

  /** Until an abort is issued the abort map is exact, even when a task ends before its handle is
      inserted: its ids are the tasks whose guard has not finished dropping, but for the one task
      whose spawner still holds the mutex. */
  lemma AbortMapIsExact(steps: seq<Step>, id: nat)
    requires Runs(INIT, steps) && Exec(INIT, steps).aborted == {}
    ensures var s := Exec(INIT, steps);
      && (id in s.aborts ==> Guarded(s, id) && Counted(s, id))
      && (Guarded(s, id) ==> id in s.aborts || s.lock == Tracked(id))
  {
    RunKeepsInv(INIT, steps);
  }

  /** A shutdown that times out holds a handle to every task that has not finished: none is
      registered behind the abort list it collects. */
  lemma AbortReachesEveryTask(steps: seq<Step>, id: nat)
    requires Runs(INIT, steps) && Exec(INIT, steps).closing && Guarded(Exec(INIT, steps), id)
    ensures id in Exec(INIT, steps).aborts
  {
    RunKeepsInv(INIT, steps);
  }

  /** What is known of one id: a handle in the map belongs to a task whose guard is not dropped, or
      to one killed before its first poll, and a killed task keeps its handle for good. */
  ghost predicate Handled(s: State, id: nat, killed: bool) {
    && (id in s.aborts ==> Guarded(s, id) || killed)
    && (killed ==> id in s.aborts && id in s.aborted && (Is(s, id, Dropped) || Is(s, id, Gone)))
  }

  lemma HandledStep(s: State, step: Step, id: nat, killed: bool)
    requires Inv(s) && Handled(s, id, killed) && Enabled(s, step)
    ensures Handled(Apply(s, step), id, killed || step == Kill(id))
  {
  }

  lemma {:induction false} HandledRun(s: State, steps: seq<Step>, id: nat, killed: bool)
    requires Inv(s) && Handled(s, id, killed) && Runs(s, steps)
    ensures Handled(Exec(s, steps), id, killed || Kill(id) in steps)
    decreases |steps|
  {
    if steps != [] {
      assert steps == [steps[0]] + steps[1..];
      StepKeepsInv(s, steps[0]);
      HandledStep(s, steps[0], id, killed);
      HandledRun(Apply(s, steps[0]), steps[1..], id, killed || steps[0] == Kill(id));
    }
  }

  /** Exactly which handles a drained scope keeps: those of the tasks that an abort killed before
      their first poll, so before they built the guard that would have removed the handle. An abort
      of a task that was polled leaves nothing behind. */
  lemma HandleStaysExactly(steps: seq<Step>, id: nat)
    requires Runs(INIT, steps) && Exec(INIT, steps).drained
    ensures id in Exec(INIT, steps).aborts <==> Kill(id) in steps
  {
    RunKeepsInv(INIT, steps);
    HandledRun(INIT, steps, id, false);
  }

  /** A drain with no abort leaves no handle behind. */
  lemma CleanDrainLeavesNoHandle(steps: seq<Step>)
    requires Runs(INIT, steps) && Exec(INIT, steps).drained && Exec(INIT, steps).aborted == {}
    ensures Exec(INIT, steps).aborts == {}
  {
    forall id | id in Exec(INIT, steps).aborts
      ensures false
    {
      HandleStaysExactly(steps, id);
      HandledRun(INIT, steps, id, false);
    }
  }

  /** A timed-out shutdown kills task `id` before its first poll, and then sees the tracker empty. */
  function KillThenDrain(id: nat): seq<Step> {
    [Abort(id)] + ([Kill(id)] + ([Untrack(id)] + ([SeeEmpty] + [])))
  }

  lemma KillThenDrainRuns(s: State, id: nat)
    requires s.trackerClosed && id in s.aborts && s.tasks == map[id := Submitted]
    ensures Runs(s, KillThenDrain(id)) && Exec(s, KillThenDrain(id)).drained
  {
    var aborted := Apply(s, Abort(id));
    var killed := Apply(aborted, Kill(id));
    var gone := Apply(killed, Untrack(id));
    RunsCons(gone, SeeEmpty, []);
    RunsCons(killed, Untrack(id), [SeeEmpty] + []);
    RunsCons(aborted, Kill(id), [Untrack(id)] + ([SeeEmpty] + []));
    RunsCons(s, Abort(id), [Kill(id)] + ([Untrack(id)] + ([SeeEmpty] + [])));
  }

  /** A drained scope that still holds a handle is reachable. */
  lemma AbortedTaskLeavesHandle() returns (steps: seq<Step>)
    ensures Runs(INIT, steps) && Exec(INIT, steps).drained && 1 in Exec(INIT, steps).aborts
  {
    var tail := KillThenDrain(1);
    KillThenDrainRuns(Spawned(INIT, 1).(closing := true, trackerClosed := true), 1);
    CloseRun(Spawned(INIT, 1), tail);
    SpawnRun(INIT, CloseThen(tail));
    steps := SpawnThen(CloseThen(tail));
    KillIsIn(1);
    HandleStaysExactly(steps, 1);
  }

  lemma KillIsIn(id: nat)
    ensures Kill(id) in SpawnThen(CloseThen(KillThenDrain(id)))
  {
    assert SpawnThen(CloseThen(KillThenDrain(id)))[8] == Kill(id);
  }

  // ----- What a run leaves is what its steps did

  /** What happened to one task so far. */
  datatype Past = Past(polled: bool, done: bool, killed: bool, removed: bool, untracked: bool, aborted: bool)

  const UNBORN := Past(false, false, false, false, false, false)

  function PhaseAfter(past: Past): Task {
    if past.untracked then Gone
    else if past.removed || past.killed then Dropped
    else if past.done then Finishing
    else if past.polled then Running
    else Submitted
  }

  /** The past once `step` was taken from `s`; a `Remove` is the mutex holder's. */
  function Extend(past: Past, s: State, step: Step, id: nat): Past {
    Past(past.polled || step == Poll(id), past.done || step == Done(id), past.killed || step == Kill(id),
         past.removed || (step.Remove? && s.lock == Removing(id)), past.untracked || step == Untrack(id),
         past.aborted || step == Abort(id))
  }

  function PastAfter(past: Past, s: State, steps: seq<Step>, id: nat): Past
    requires Runs(s, steps)
    decreases |steps|
  {
    if steps == [] then past
    else PastAfter(Extend(past, s, steps[0], id), Apply(s, steps[0]), steps[1..], id)
  }

  predicate Lived(s: State, id: nat, past: Past) {
    && (id in s.aborted <==> past.aborted)
    && if id in s.tasks then s.tasks[id] == PhaseAfter(past) else past == UNBORN
  }

  lemma LivedStep(s: State, step: Step, id: nat, past: Past)
    requires Inv(s) && Lived(s, id, past) && Enabled(s, step)
    ensures Lived(Apply(s, step), id, Extend(past, s, step, id))
  {
  }

  lemma {:induction false} LivedRun(s: State, steps: seq<Step>, id: nat, past: Past)
    requires Inv(s) && Lived(s, id, past) && Runs(s, steps)
    ensures Lived(Exec(s, steps), id, PastAfter(past, s, steps, id))
    decreases |steps|
  {
    if steps != [] {
      StepKeepsInv(s, steps[0]);
      LivedStep(s, steps[0], id, past);
      LivedRun(Apply(s, steps[0]), steps[1..], id, Extend(past, s, steps[0], id));
    }
  }

  lemma {:induction false} FlagsRun(s: State, steps: seq<Step>)
    requires Runs(s, steps)
    ensures var e := Exec(s, steps);
      && (e.closing <==> s.closing || SetClosing in steps)
      && (e.trackerClosed <==> s.trackerClosed || CloseTracker in steps)
      && (e.drained <==> s.drained || SeeEmpty in steps)
    decreases |steps|
  {
    if steps != [] {
      assert steps == [steps[0]] + steps[1..];
      FlagsRun(Apply(s, steps[0]), steps[1..]);
    }
  }

  /** In every run a task is where its own steps have brought it, is aborted exactly if an abort was
      issued to it, and the scope is closing, closed or seen empty exactly if the step that says so was
      taken. */
  lemma ScopeIsItsHistory(steps: seq<Step>, id: nat)
    requires Runs(INIT, steps)
    ensures var s, past := Exec(INIT, steps), PastAfter(UNBORN, INIT, steps, id);
      && (id in s.tasks ==> s.tasks[id] == PhaseAfter(past)) && (id in s.aborted <==> past.aborted)
      && (s.closing <==> SetClosing in steps) && (s.trackerClosed <==> CloseTracker in steps)
      && (s.drained <==> SeeEmpty in steps)
  {
    LivedRun(INIT, steps, id, UNBORN);
    FlagsRun(INIT, steps);
  }

  /** The steps the holder of the mutex has left. */
  function Holding(s: State): seq<Step> {
    match s.lock
    case Free => []
    case Checking => if s.closing then [Refuse] else [Admit, Register, Insert]
    case Admitted(_) => [Register, Insert]
    case Tracked(_) => [Insert]
    case Closing => if s.closing then [SetClosing] else [SetClosing, CloseTracker]
    case Cancelling => [CloseTracker]
    case Removing(_) => [Remove]
  }

  /** No holder is ever stuck: whoever has the mutex can take its remaining steps, at most three, and
      frees it. */
  lemma {:induction false} HolderFrees(s: State)
    ensures Runs(s, Holding(s)) && Exec(s, Holding(s)).lock.Free? && |Holding(s)| <= 3
    decreases |Holding(s)|
  {
    if !s.lock.Free? {
      var t := Apply(s, Holding(s)[0]);
      assert Holding(s)[1..] == Holding(t);
      HolderFrees(t);
    }
  }

  // ----- The critical sections, uninterrupted

  function SpawnThen(rest: seq<Step>): seq<Step> {
    [LockSpawn] + ([Admit] + ([Register] + ([Insert] + rest)))
  }

  function CloseThen(rest: seq<Step>): seq<Step> {
    [LockClose] + ([SetClosing] + ([CloseTracker] + rest))
  }

  function Spawned(s: State, id: nat): State {
    s.(tasks := s.tasks[id := Submitted], aborts := s.aborts + {id}, nextId := id + 1)
  }

  lemma SpawnRun(s: State, rest: seq<Step>)
    requires s.lock.Free? && !s.closing && Runs(Spawned(s, s.nextId), rest)
    ensures Runs(s, SpawnThen(rest)) && Exec(s, SpawnThen(rest)) == Exec(Spawned(s, s.nextId), rest)
  {
    var s1 := Apply(s, LockSpawn);
    var s2 := Apply(s1, Admit);
    RegisterRun(s2, Spawned(s, s.nextId), rest);
    RunsCons(s1, Admit, [Register] + ([Insert] + rest));
    RunsCons(s, LockSpawn, [Admit] + ([Register] + ([Insert] + rest)));
  }

  lemma RegisterRun(s: State, t: State, rest: seq<Step>)
    requires s.lock.Admitted? && Runs(t, rest)
    requires t == s.(lock := Free, tasks := s.tasks[s.lock.id := Submitted], aborts := s.aborts + {s.lock.id})
    ensures Runs(s, [Register] + ([Insert] + rest)) && Exec(s, [Register] + ([Insert] + rest)) == Exec(t, rest)
  {
    RunsCons(Apply(s, Register), Insert, rest);
    RunsCons(s, Register, [Insert] + rest);
  }

  lemma CloseRun(s: State, rest: seq<Step>)
    requires s.lock.Free? && !s.closing && Runs(s.(closing := true, trackerClosed := true), rest)
    ensures Runs(s, CloseThen(rest))
    ensures Exec(s, CloseThen(rest)) == Exec(s.(closing := true, trackerClosed := true), rest)
  {
    var s1 := Apply(s, LockClose);
    var s2 := Apply(s1, SetClosing);
    RunsCons(s2, CloseTracker, rest);
    RunsCons(s1, SetClosing, [CloseTracker] + rest);
    RunsCons(s, LockClose, [SetClosing] + ([CloseTracker] + rest));
  }

  /** The scope's fields; each method is one section under the registration mutex. */
  class Scope {
    var closing: bool
    var trackerClosed: bool
    var tasks: map<nat, Task>
    var aborts: set<nat>
    var aborted: set<nat>
    var nextId: nat
    var drained: bool

    ghost function View(): State
      reads this
    {
      State(Free, closing, trackerClosed, tasks, aborts, aborted, nextId, drained)
    }

    ghost predicate Valid()
      reads this
    {
      Inv(View())
    }

    constructor ()
      ensures Valid() && View() == INIT
    {
      closing, trackerClosed, tasks, aborts, aborted, nextId, drained := false, false, map[], {}, {}, 1, false;
    }

    /** `spawn`: refused exactly when shutdown won the race. */
    method Spawn() returns (spawned: bool, id: nat)
      requires Valid()
      modifies this
      ensures Valid() && spawned == !old(closing)
      ensures !spawned ==> View() == old(View())
      ensures spawned ==> id !in old(tasks)
      ensures spawned ==> Runs(old(View()), SpawnThen([])) && View() == Exec(old(View()), SpawnThen([]))
    {
      id := nextId;
      if closing {
        return false, id;
      }
      ghost var was := View();
      SpawnRun(was, []);
      RunKeepsInv(was, SpawnThen([]));
      nextId := nextId + 1;
      tasks := tasks[id := Submitted];
      aborts := aborts + {id};
      return true, id;
    }

    /** `begin_shutdown`: idempotent, and the first caller closes the tracker. */
    method BeginShutdown()
      requires Valid()
      modifies this
      ensures Valid() && View() == old(View()).(closing := true, trackerClosed := true)
      ensures !old(closing) ==> Runs(old(View()), CloseThen([])) && View() == Exec(old(View()), CloseThen([]))
    {
      if !closing {
        ghost var was := View();
        CloseRun(was, []);
        RunKeepsInv(was, CloseThen([]));
        closing := true;
        trackerClosed := true;
      }
    }

    /** `ScopedAbortGuard::drop`. */
    method DropGuard(id: nat)
      requires Valid() && id in tasks && tasks[id].Finishing?
      modifies this
      ensures Valid() && View() == Apply(Apply(old(View()), LockDrop(id)), Remove)
      ensures id !in aborts
    {
      StepKeepsInv(View(), LockDrop(id));
      StepKeepsInv(Apply(View(), LockDrop(id)), Remove);
      aborts := aborts - {id};
      tasks := tasks[id := Dropped];
    }
  }
}
