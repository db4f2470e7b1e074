/** The client's pool of extra TCP carriers: the carrier target, the re-dial batch and the carrier
    pumps (`maybe_redial_carriers`, `spawn_carrier_pump_scoped`, `SetCarrierTarget`).

    Every step is one atomic action; a run is any interleaving of the listen loop, the one
    re-dial batch and the pumps. */
module CarrierPool {
  import opened Tally

  /** One carrier's pump: counted in `live`, tracked for liveness, running, forgotten by the
      liveness list, and no longer counted. */
  datatype Pump = Counted | Tracked | Running | Forgotten | Ended

  /** The re-dial task. `Placing` has opened carrier `id` and is handing it to a pump. */
  datatype Batch = NoBatch | Dialing(left: nat) | Placing(left: nat, id: nat)

  /** The listen loop; `Looked` is between reading the pool and claiming the batch. */
  datatype Loop = Idle | Looked(want: nat, current: int) | Stopped

  datatype State = State(
    target: nat,
    live: int,
    pumps: seq<Pump>,
    tracked: set<nat>,
    terminated: set<nat>,
    inflight: bool,
    batch: Batch,
    loop: Loop,
    closing: bool)

  datatype Step =
    | SetTarget(target: nat)
    | Look
    | Claim
    | Open
    | Track
    | Launch
    | GiveUp
    | Finish
    | Exit(i: nat)
    | Uncount(i: nat)
    | Trip
    | BeginClose

  function Counts(p: Pump): nat { if p.Ended? then 0 else 1 }

  /** The ids below `n`. */
  function Below(n: nat): set<nat> { if n == 0 then {} else Below(n - 1) + {n - 1} }

  /** A tunnel that opened `up` of the `extra` carriers the server granted. */
  function Init(extra: nat, up: nat): State {
    State(extra, up, seq(up, _ => Running), Below(up), {}, false, NoBatch, Idle, false)
  }

  predicate Is(s: State, i: nat, p: Pump) { i < |s.pumps| && s.pumps[i] == p }

  predicate Enabled(s: State, step: Step) {
    match step
    case SetTarget(_) => s.loop.Idle?
    case Look => s.loop.Idle?
    case Claim => s.loop.Looked? && s.loop.current < s.loop.want
    case Open => s.batch.Dialing? && s.batch.left > 0
    case Track => s.batch.Placing? && Is(s, s.batch.id, Pump.Counted)
    case Launch => s.batch.Placing? && Is(s, s.batch.id, Tracked)
    case GiveUp => s.batch.Dialing?
    case Finish => s.batch == Dialing(0)
    case Exit(i) => Is(s, i, Running)
    case Uncount(i) => Is(s, i, Forgotten)
    case Trip => s.loop.Idle?
    case BeginClose => !s.closing
  }

  function Apply(s: State, step: Step): State
    requires Enabled(s, step)
  {
    match step
    case SetTarget(target) => s.(target := if target == 0 then 0 else target - 1)
    case Look => if s.live >= s.target then s else s.(loop := Looked(s.target, s.live))
    case Claim =>
      var t := s.(loop := Idle, inflight := true);
      if s.inflight || s.closing then t else t.(batch := Dialing(s.loop.want - s.loop.current))
    case Open =>
      s.(live := s.live + 1, pumps := s.pumps + [Pump.Counted], batch := Placing(s.batch.left - 1, |s.pumps|))
    case Track => s.(pumps := s.pumps[s.batch.id := Tracked], tracked := s.tracked + {s.batch.id})
    case Launch =>
      var t := s.(batch := Dialing(s.batch.left));
      if s.closing then t.(pumps := s.pumps[s.batch.id := Forgotten], tracked := s.tracked - {s.batch.id})
      else t.(pumps := s.pumps[s.batch.id := Running])
    case GiveUp => s.(batch := Dialing(0))
    case Finish => s.(batch := NoBatch, inflight := false)
    case Exit(i) => s.(pumps := s.pumps[i := Forgotten], tracked := s.tracked - {i})
    case Uncount(i) => s.(pumps := s.pumps[i := Ended], live := s.live - 1)
    case Trip => s.(terminated := s.terminated + s.tracked, tracked := {}, loop := Stopped)
    case BeginClose => s.(closing := true)
  }

  predicate Runs(s: State, steps: seq<Step>)
    decreases |steps|
  {
    steps == [] || (Enabled(s, steps[0]) && Runs(Apply(s, steps[0]), steps[1..]))
  }

  function Exec(s: State, steps: seq<Step>): State
    requires Runs(s, steps)
    decreases |steps|
  {
    if steps == [] then s else Exec(Apply(s, steps[0]), steps[1..])
  }

  lemma RunsCons(s: State, step: Step, rest: seq<Step>)
    requires Enabled(s, step) && Runs(Apply(s, step), rest)
    ensures Runs(s, [step] + rest) && Exec(s, [step] + rest) == Exec(Apply(s, step), rest)
  {
  }

  lemma {:induction false} RunsConcat(s: State, a: seq<Step>, b: seq<Step>)
    requires Runs(s, a) && Runs(Exec(s, a), b)
    ensures Runs(s, a + b) && Exec(s, a + b) == Exec(Exec(s, a), b)
    decreases |a|
  {
    if a == [] {
      assert a + b == b;
    } else {
      RunsConcat(Apply(s, a[0]), a[1..], b);
      assert (a + b)[1..] == a[1..] + b;
    }
  }

  // ----- Accounting

  function Left(b: Batch): nat { if b.NoBatch? then 0 else b.left }

  /** Live carriers plus carriers the running batch still has to open. */
  function Width(s: State): int { s.live + Left(s.batch) }

  /** `live` counts the pumps that have not ended, and the batch flag is up while a batch runs. */
  ghost predicate Counted(s: State) {
    && s.live == Total(s.pumps, Counts)
    && (!s.batch.NoBatch? ==> s.inflight)
  }

  /** The liveness list holds exactly the pumps that are tracked or running and not terminated. */
  ghost predicate Listed(s: State) {
    && (forall i :: i in s.terminated ==> i < |s.pumps| && !s.pumps[i].Counted?)
    && (forall i: nat :: i in s.tracked <==> i < |s.pumps| && Alive(s.pumps[i]) && i !in s.terminated)
  }

  predicate Alive(p: Pump) { p.Tracked? || p.Running? }

  ghost predicate Accounted(s: State) { Counted(s) && Listed(s) }

  lemma CountedStep(s: State, step: Step)
    requires Counted(s) && Enabled(s, step)
    ensures Counted(Apply(s, step))
  {
    match step
    case Open => TotalAppend(s.pumps, Pump.Counted, Counts);
    case Track => TotalUpdate(s.pumps, s.batch.id, Tracked, Counts);
    case Launch =>
      TotalUpdate(s.pumps, s.batch.id, Running, Counts);
      TotalUpdate(s.pumps, s.batch.id, Forgotten, Counts);
    case Exit(i) => TotalUpdate(s.pumps, i, Forgotten, Counts);
    case Uncount(i) => TotalUpdate(s.pumps, i, Ended, Counts);
    case _ =>
  }

  lemma ListedStep(s: State, step: Step)
    requires Listed(s) && Enabled(s, step)
    ensures Listed(Apply(s, step))
  {
    var t := Apply(s, step);
    forall i: nat
      ensures i in t.tracked <==> i < |t.pumps| && Alive(t.pumps[i]) && i !in t.terminated
    {
      if i < |s.pumps| {
        assert i in s.tracked <==> Alive(s.pumps[i]) && i !in s.terminated;
      }
    }
  }

  lemma Tallies(s: State, step: Step)
    requires Accounted(s) && Enabled(s, step)
    ensures Accounted(Apply(s, step))
  {
    CountedStep(s, step);
    ListedStep(s, step);
  }

  lemma {:induction false} InitAccounted(extra: nat, up: nat)
    ensures Accounted(Init(extra, up))
    decreases up
  {
    if up > 0 {
      InitAccounted(extra, up - 1);
      assert Init(extra, up).pumps[..up - 1] == Init(extra, up - 1).pumps;
    }
    BelowIs(up);
  }

  lemma {:induction false} BelowIs(n: nat)
    ensures forall i: nat :: i in Below(n) <==> i < n
  {
    if n > 0 {
      BelowIs(n - 1);
    }
  }

  // ----- Pool width

  /** Every carrier target the server sets in this run leaves at most `bound` extra carriers. */
  predicate TargetsWithin(steps: seq<Step>, bound: nat) {
    forall k :: 0 <= k < |steps| && steps[k].SetTarget? ==> steps[k].target <= bound + 1
  }

  /** No carrier is opened between the loop's read of the pool and its claim of the batch, as when
      the re-dial check is one step. */
  predicate RedialUninterrupted(s: State, steps: seq<Step>)
    requires Runs(s, steps)
    decreases |steps|
  {
    steps == [] ||
    ((s.loop.Looked? ==> !steps[0].Open?) && RedialUninterrupted(Apply(s, steps[0]), steps[1..]))
  }

  ghost predicate Narrow(s: State, bound: nat) {
    && Accounted(s) && s.target <= bound && Width(s) <= bound
    && (s.loop.Looked? ==> s.loop.want <= bound && s.live <= s.loop.current)
  }

  lemma NarrowStep(s: State, step: Step, bound: nat)
    requires Narrow(s, bound) && TargetsWithin([step], bound) && Enabled(s, step)
    requires s.loop.Looked? ==> !step.Open?
    ensures Narrow(Apply(s, step), bound)
  {
    assert [step][0] == step;
    Tallies(s, step);
  }

  lemma {:induction false} NarrowRun(s: State, steps: seq<Step>, bound: nat)
    requires Narrow(s, bound) && TargetsWithin(steps, bound)
    requires Runs(s, steps) && RedialUninterrupted(s, steps)
    ensures Narrow(Exec(s, steps), bound)
    decreases |steps|
  {
    if steps != [] {
      NarrowStep(s, steps[0], bound);
      NarrowRun(Apply(s, steps[0]), steps[1..], bound);
    }
  }

  /** With the re-dial check uninterrupted, live carriers plus carriers still to open never exceed
      the largest target set so far, and `live` never underflows. */
  lemma PoolWidth(extra: nat, up: nat, steps: seq<Step>, bound: nat)
    requires up <= extra <= bound && TargetsWithin(steps, bound)
    requires Runs(Init(extra, up), steps) && RedialUninterrupted(Init(extra, up), steps)
    ensures 0 <= Exec(Init(extra, up), steps).live <= Width(Exec(Init(extra, up), steps)) <= bound
  {
    InitAccounted(extra, up);
    NarrowRun(Init(extra, up), steps, bound);
  }

  ghost predicate Wide(s: State, bound: nat) {
    && Accounted(s) && s.target <= bound && Left(s.batch) <= bound && Width(s) <= 2 * bound
    && (s.loop.Looked? ==> 0 <= s.loop.current && s.loop.want <= bound && Width(s) <= s.loop.current + bound)
  }

  lemma WideStep(s: State, step: Step, bound: nat)
    requires Wide(s, bound) && TargetsWithin([step], bound) && Enabled(s, step)
    ensures Wide(Apply(s, step), bound)
  {
    assert [step][0] == step;
    Tallies(s, step);
  }

  lemma {:induction false} WideRun(s: State, steps: seq<Step>, bound: nat)
    requires Wide(s, bound) && TargetsWithin(steps, bound) && Runs(s, steps)
    ensures Wide(Exec(s, steps), bound)
    decreases |steps|
  {
    if steps != [] {
      WideStep(s, steps[0], bound);
      WideRun(Apply(s, steps[0]), steps[1..], bound);
    }
  }

  /** Under every interleaving whatsoever the pool stays within twice the largest target. */
  lemma PoolWidthAnyInterleaving(extra: nat, up: nat, steps: seq<Step>, bound: nat)
    requires up <= extra <= bound && TargetsWithin(steps, bound)
    requires Runs(Init(extra, up), steps)
    ensures 0 <= Exec(Init(extra, up), steps).live <= Width(Exec(Init(extra, up), steps)) <= 2 * bound
  {
    InitAccounted(extra, up);
    WideRun(Init(extra, up), steps, bound);
  }

  predicate LoopStep(step: Step) { step.SetTarget? || step.Look? || step.Claim? || step.Trip? }

  /** Carriers that came up during `w` minus carriers that went away. */
  function Gain(w: seq<Step>): int {
    if w == [] then 0
    else (if w[0].Open? then 1 else if w[0].Uncount? then -1 else 0) + Gain(w[1..])
  }

  lemma {:induction false} WindowRun(s: State, w: seq<Step>)
    requires Runs(s, w) && forall k :: 0 <= k < |w| ==> !LoopStep(w[k])
    ensures Exec(s, w).live == s.live + Gain(w) && Exec(s, w).loop == s.loop
    decreases |w|
  {
    if w != [] {
      WindowRun(Apply(s, w[0]), w[1..]);
    }
  }

  /** Exactly when an interrupted re-dial check overshoots the target it read: when more carriers
      came up than went away between its read and its claim. */
  lemma RedialOvershootsExactly(s: State, w: seq<Step>)
    requires Accounted(s) && s.loop.Idle? && s.live < s.target
    requires Runs(Apply(s, Look), w) && forall k :: 0 <= k < |w| ==> !LoopStep(w[k])
    requires !Exec(Apply(s, Look), w).inflight && !Exec(Apply(s, Look), w).closing
    ensures var e := Exec(Apply(s, Look), w);
      Enabled(e, Claim) && (Width(Apply(e, Claim)) > s.target <==> Gain(w) > 0)
  {
    Tallies(s, Look);
    WindowRun(Apply(s, Look), w);
    AccountedRun(Apply(s, Look), w);
  }

  /** At most one batch is ever in flight: in every run the flag is up while a batch dials or places
      a carrier, and a claim starts a batch exactly when none runs, the flag is down and the scope is
      open. */
  lemma OneBatchAtATime(extra: nat, up: nat, steps: seq<Step>)
    requires Runs(Init(extra, up), steps)
    ensures var s := Exec(Init(extra, up), steps);
      && (!s.batch.NoBatch? ==> s.inflight)
      && (Enabled(s, Claim) && Apply(s, Claim).batch != s.batch ==> s.batch.NoBatch?)
      && (Enabled(s, Claim) ==>
            (Apply(s, Claim).batch != s.batch <==> !s.inflight && !s.closing))
  {
    InitAccounted(extra, up);
    AccountedRun(Init(extra, up), steps);
  }

  // ----- What a run leaves is what its steps did

  /** The target after `steps`, if it was `target` before. */
  function TargetAfter(target: nat, steps: seq<Step>): nat
    decreases |steps|
  {
    if steps == [] then target
    else TargetAfter(if steps[0].SetTarget? then (if steps[0].target == 0 then 0 else steps[0].target - 1) else target,
                     steps[1..])
  }

  /** Nothing but its own step moves a flag: the last target message sets the target, only a trip
      terminates, only `BeginClose` closes. */
  lemma {:induction false} FlagsRun(s: State, steps: seq<Step>)
    requires Runs(s, steps)
    ensures var e := Exec(s, steps);
      && e.target == TargetAfter(s.target, steps)
      && (e.closing <==> s.closing || BeginClose in steps)
      && (e.loop.Stopped? <==> s.loop.Stopped? || Trip in steps)
      && (Trip !in steps ==> e.terminated == s.terminated)
    decreases |steps|
  {
    if steps != [] {
      assert steps == [steps[0]] + steps[1..];
      FlagsRun(Apply(s, steps[0]), steps[1..]);
    }
  }

  /** A pump after its accept loop ended, or that was refused. */
  predicate Over(p: Pump) { p.Forgotten? || p.Ended? }

  lemma PumpStep(s: State, step: Step, i: nat)
    requires Enabled(s, step) && i < |s.pumps|
    ensures var p, q := s.pumps[i], Apply(s, step).pumps[i];
      && (q.Ended? <==> p.Ended? || step == Uncount(i))
      && (step == Exit(i) ==> Over(q))
      && (Over(q) && !Over(p) ==> step == Exit(i) || (step.Launch? && s.closing))
      && (Over(p) ==> Over(q)) && (p.Ended? ==> step != Uncount(i))
  {
  }

  lemma {:induction false} PumpRun(s: State, steps: seq<Step>, i: nat)
    requires Runs(s, steps) && i < |s.pumps|
    ensures i < |Exec(s, steps).pumps|
    ensures var p, q := s.pumps[i], Exec(s, steps).pumps[i];
      && (q.Ended? <==> p.Ended? || Uncount(i) in steps)
      && (Exit(i) in steps || Over(p) ==> Over(q))
      && (Over(q) && !Over(p) ==> Exit(i) in steps || s.closing || BeginClose in steps)
    decreases |steps|
  {
    if steps != [] {
      assert steps == [steps[0]] + steps[1..];
      PumpStep(s, steps[0], i);
      PumpRun(Apply(s, steps[0]), steps[1..], i);
    }
  }

  /** In every run the pool is what its steps made it: the last target message is the target, carriers
      are terminated only by a trip, and a carrier the tunnel started with is no longer counted exactly
      when it was uncounted, and over only if it ended itself or the scope closed. */
  lemma PoolIsItsHistory(extra: nat, up: nat, steps: seq<Step>, i: nat)
    requires Runs(Init(extra, up), steps) && i < up
    ensures var s := Exec(Init(extra, up), steps);
      && s.target == TargetAfter(extra, steps)
      && (s.closing <==> BeginClose in steps) && (s.loop.Stopped? <==> Trip in steps)
      && (s.terminated != {} ==> Trip in steps)
      && i < |s.pumps| && (s.pumps[i].Ended? <==> Uncount(i) in steps)
      && (Exit(i) in steps ==> Over(s.pumps[i]))
      && (Over(s.pumps[i]) ==> Exit(i) in steps || BeginClose in steps)
  {
    FlagsRun(Init(extra, up), steps);
    PumpRun(Init(extra, up), steps, i);
  }

  // ----- The batch

  const OPEN_ONE: seq<Step> := [Open] + ([Track] + ([Launch] + []))

  /** A batch that opens `n` carriers in a row. */
  function OpenSteps(n: nat): seq<Step> {
    if n == 0 then [] else OpenSteps(n - 1) + OPEN_ONE
  }

  function AfterOne(s: State): (t: State)
    requires s.batch.Dialing? && s.batch.left > 0
  {
    s.(live := s.live + 1, pumps := s.pumps + [Running],
       tracked := s.tracked + {|s.pumps|}, batch := Dialing(s.batch.left - 1))
  }

  /** The pool once a batch has opened and launched `n` of its carriers. */
  function AfterOpen(s: State, n: nat): (t: State)
    requires s.batch.Dialing? && n <= s.batch.left
    ensures t.batch == Dialing(s.batch.left - n)
    ensures t == s.(live := s.live + n, pumps := t.pumps, tracked := t.tracked, batch := t.batch)
    decreases n
  {
    if n == 0 then s else AfterOne(AfterOpen(s, n - 1))
  }

  lemma OpenOneRun(s: State)
    requires s.batch.Dialing? && s.batch.left > 0 && !s.closing
    ensures Runs(s, OPEN_ONE) && Exec(s, OPEN_ONE) == AfterOne(s)
  {
    var s1 := Apply(s, Open);
    var s2 := Apply(s1, Track);
    var s3 := Apply(s2, Launch);
    RunsCons(s2, Launch, []);
    RunsCons(s1, Track, [Launch] + []);
    RunsCons(s, Open, [Track] + ([Launch] + []));
    assert s3.pumps == s.pumps + [Running];
  }

  lemma {:induction false} OpenRun(s: State, n: nat)
    requires s.batch.Dialing? && n <= s.batch.left && !s.closing
    ensures Runs(s, OpenSteps(n)) && Exec(s, OpenSteps(n)) == AfterOpen(s, n)
    decreases n
  {
    if n > 0 {
      OpenRun(s, n - 1);
      OpenOneRun(AfterOpen(s, n - 1));
      RunsConcat(s, OpenSteps(n - 1), OPEN_ONE);
    }
  }

  /** A batch that opens `n` carriers and then lowers the flag, done or having given up. */
  function BatchSteps(n: nat): seq<Step> { OpenSteps(n) + ([GiveUp] + ([Finish] + [])) }

  lemma BatchRun(s: State, n: nat)
    requires s.batch.Dialing? && n <= s.batch.left && !s.closing
    ensures Runs(s, BatchSteps(n))
    ensures Exec(s, BatchSteps(n)) == AfterOpen(s, n).(batch := NoBatch, inflight := false)
  {
    OpenRun(s, n);
    var m := AfterOpen(s, n);
    RunsCons(Apply(m, GiveUp), Finish, []);
    RunsCons(m, GiveUp, [Finish] + []);
    RunsConcat(s, OpenSteps(n), [GiveUp] + ([Finish] + []));
  }

  /** A tick below target with no batch running starts exactly the shortfall: if every dial
      succeeds the pool ends at its target. */
  lemma TickRestoresTarget(s: State) returns (steps: seq<Step>)
    requires Accounted(s) && s.loop.Idle? && !s.inflight && !s.closing && s.live < s.target
    ensures Runs(s, steps) && Exec(s, steps).live == s.target
    ensures Apply(Apply(s, Look), Claim).batch == Dialing(s.target - s.live)
  {
    var t := Apply(Apply(s, Look), Claim);
    var batch := BatchSteps(s.target - s.live);
    BatchRun(t, s.target - s.live);
    steps := [Look] + ([Claim] + batch);
    RunsCons(Apply(s, Look), Claim, batch);
    RunsCons(s, Look, [Claim] + batch);
  }

  /** The bound of twice the target is reached: the loop reads an empty pool while a batch runs,
      the batch opens its carriers and finishes, and the claim opens as many again. */
  lemma StaleReadDoublesPool(extra: nat) returns (steps: seq<Step>)
    requires extra > 0
    ensures Runs(Init(extra, 0), steps) && TargetsWithin(steps, extra)
    ensures Exec(Init(extra, 0), steps).live == 2 * extra
  {
    var s0 := Init(extra, 0);
    var s1 := Apply(s0, Look);
    var s2 := Apply(s1, Claim);
    var s3 := Apply(s2, Look);
    var batch := BatchSteps(extra);
    BatchRun(s3, extra);
    var s4 := Exec(s3, batch);
    var s5 := Apply(s4, Claim);
    BatchRun(s5, extra);
    NoTargetInOpen(extra);
    steps := DoubleRun(s0, batch);
  }

  lemma DoubleRun(s: State, batch: seq<Step>) returns (steps: seq<Step>)
    requires s.loop.Idle? && s.live < s.target && !s.inflight && !s.closing
    requires var s3 := Apply(Apply(Apply(s, Look), Claim), Look);
      && Runs(s3, batch) && Enabled(Exec(s3, batch), Claim)
      && Runs(Apply(Exec(s3, batch), Claim), batch)
    requires forall k :: 0 <= k < |batch| ==> !batch[k].SetTarget?
    ensures Runs(s, steps) && forall k :: 0 <= k < |steps| ==> !steps[k].SetTarget?
    ensures Exec(s, steps) ==
      Exec(Apply(Exec(Apply(Apply(Apply(s, Look), Claim), Look), batch), Claim), batch)
  {
    var s1 := Apply(s, Look);
    var s2 := Apply(s1, Claim);
    var s3 := Apply(s2, Look);
    RunsCons(Exec(s3, batch), Claim, batch);
    RunsConcat(s3, batch, [Claim] + batch);
    var tail := batch + ([Claim] + batch);
    RunsCons(s2, Look, tail);
    RunsCons(s1, Claim, [Look] + tail);
    RunsCons(s, Look, [Claim] + ([Look] + tail));
    steps := [Look] + ([Claim] + ([Look] + tail));
  }

  lemma {:induction false} NoTargetInOpen(n: nat)
    ensures forall k :: 0 <= k < |OpenSteps(n)| ==> !OpenSteps(n)[k].SetTarget?
  {
    if n > 0 {
      NoTargetInOpen(n - 1);
    }
  }

  // ----- Carriers are never closed by a target, and never survive a trip unseen

  /** A running carrier keeps running through every run in which it does not itself end, whatever
      targets the server sets. */
  lemma {:induction false} TargetsNeverCloseCarriers(s: State, steps: seq<Step>, i: nat)
    requires Runs(s, steps) && Is(s, i, Running)
    requires forall k :: 0 <= k < |steps| ==> steps[k] != Exit(i)
    ensures Is(Exec(s, steps), i, Running)
    decreases |steps|
  {
    if steps != [] {
      TargetsNeverCloseCarriers(Apply(s, steps[0]), steps[1..], i);
    }
  }

  lemma {:induction false} AccountedRun(s: State, steps: seq<Step>)
    requires Accounted(s) && Runs(s, steps)
    ensures Accounted(Exec(s, steps))
    decreases |steps|
  {
    if steps != [] {
      Tallies(s, steps[0]);
      AccountedRun(Apply(s, steps[0]), steps[1..]);
    }
  }

  lemma AfterTripStep(s: State, step: Step)
    requires s.loop.Stopped? && Enabled(s, step)
    ensures var t := Apply(s, step);
      t.loop.Stopped? && s.terminated <= t.terminated && |t.pumps| + Left(t.batch) <= |s.pumps| + Left(s.batch)
  {
  }

  lemma {:induction false} AfterTrip(s: State, steps: seq<Step>)
    requires s.loop.Stopped? && Runs(s, steps)
    ensures var e := Exec(s, steps);
      e.loop.Stopped? && s.terminated <= e.terminated && |e.pumps| + Left(e.batch) <= |s.pumps| + Left(s.batch)
    decreases |steps|
  {
    if steps != [] {
      AfterTripStep(s, steps[0]);
      AfterTrip(Apply(s, steps[0]), steps[1..]);
    }
  }

  /** A silence trip terminates every carrier whose pump is running or about to start; what can
      still run untouched afterwards are only the carriers a batch in flight had yet to track, at
      most its remaining dials plus the one it was placing. */
  lemma TripReachesEveryCarrier(s: State, steps: seq<Step>)
    requires Accounted(s) && s.loop.Idle? && Runs(s, [Trip] + steps)
    ensures var e := Exec(s, [Trip] + steps);
      && (forall i: nat :: Is(s, i, Running) || Is(s, i, Tracked) ==> i in e.terminated)
      && |e.pumps| <= |s.pumps| + Left(s.batch)
  {
    assert ([Trip] + steps)[1..] == steps;
    var t := Apply(s, Trip);
    Tallies(s, Trip);
    AfterTrip(t, steps);
    forall i: nat | Is(s, i, Running) || Is(s, i, Tracked)
      ensures i in t.terminated
    {
    }
  }
}
