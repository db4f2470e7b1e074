/** The client's pool of direct QUIC carriers (`Client::listen` and `spawn_direct`).

    Every step below is one atomic action of one task: an operation on the shared counter
    `direct_live`, a send or receive on a channel, or a change to the listen loop's own
    variables. A run is any interleaving of them. */
module DirectPool {
  import opened Tally

  /** One carrier task. `Unsignalled` has given its slot back and has not yet asked for a renewal. */
  datatype Carrier = Dialing | Serving | Unsignalled | Gone

  /** What the listen loop is in the middle of. `Reserving(n)` still has `n` carriers of this
      offer to open; `Submitting(n)` has counted a slot for a task it has not spawned yet;
      `Draining` found the pool whole in the `up` arm and is emptying the renew queue. */
  datatype Loop = Idle | Reserving(left: nat) | Submitting(left: nat) | Draining

  datatype State = State(
    target: nat,
    live: int,
    carriers: seq<Carrier>,
    renewQueue: nat,
    upQueue: nat,
    sleeping: bool,
    requests: nat,
    offers: nat,
    loop: Loop,
    offered: bool,
    closing: bool)

  datatype Step =
    | FirstOffer
    | Answer
    | TakeOffer(resolved: bool)
    | Reserve
    | Submit
    | RenewArm
    | SleepFires
    | UpArm
    | DrainOne
    | DrainEnd
    | Fail(i: nat)
    | Connect(i: nat)
    | Close(i: nat)
    | Signal(i: nat)
    | BeginClose

  function Holds(c: Carrier): nat { if c.Dialing? || c.Serving? then 1 else 0 }

  function Owes(c: Carrier): nat { if c.Unsignalled? then 1 else 0 }

  /** Carriers that hold a reserved slot. */
  ghost function Holders(s: State): nat { Total(s.carriers, Holds) }

  /** Carriers that released their slot and still owe the loop a renewal signal. */
  ghost function Owed(s: State): nat { Total(s.carriers, Owes) }

  function Init(target: nat): State {
    State(target, 0, [], 0, 0, false, 0, 0, Idle, false, false)
  }

  /** `direct_renewal_stands_down`. */
  predicate StandsDown(live: int, target: nat) { live >= target }

  predicate Is(s: State, i: nat, c: Carrier) { i < |s.carriers| && s.carriers[i] == c }

  predicate Enabled(s: State, step: Step) {
    match step
    case FirstOffer => !s.offered
    case Answer => s.requests > 0
    case TakeOffer(_) => s.loop.Idle? && s.offers > 0
    case Reserve => s.loop.Reserving? && s.loop.left > 0
    case Submit => s.loop.Submitting?
    case RenewArm => s.loop.Idle? && s.renewQueue > 0
    case SleepFires => s.loop.Idle? && s.sleeping
    case UpArm => s.loop.Idle? && s.upQueue > 0
    case DrainOne => s.loop.Draining? && s.renewQueue > 0
    case DrainEnd => s.loop.Draining? && s.renewQueue == 0
    case Fail(i) => Is(s, i, Dialing)
    case Connect(i) => Is(s, i, Dialing)
    case Close(i) => Is(s, i, Serving)
    case Signal(i) => Is(s, i, Unsignalled)
    case BeginClose => !s.closing
  }

  /** The loop's control state once `n` carriers are left to open. */
  function Opening(n: nat): Loop { if n == 0 then Idle else Reserving(n) }

  function Apply(s: State, step: Step): State
    requires Enabled(s, step)
  {
    match step
    case FirstOffer => s.(offered := true, offers := s.offers + 1)
    case Answer => s.(requests := s.requests - 1, offers := s.offers + 1)
    case TakeOffer(resolved) =>
      var t := s.(offers := s.offers - 1);
      if !resolved then t.(renewQueue := s.renewQueue + 1)
      else t.(loop := Opening(if s.live < s.target then s.target - s.live else 0))
    case Reserve => s.(live := s.live + 1, loop := Submitting(s.loop.left - 1))
    case Submit =>
      var t := s.(loop := Opening(s.loop.left));
      if s.closing then t.(live := s.live - 1) else t.(carriers := s.carriers + [Dialing])
    case RenewArm => s.(renewQueue := s.renewQueue - 1, sleeping := true)
    case SleepFires => s.(sleeping := false, requests := s.requests + 1)
    case UpArm =>
      var t := s.(upQueue := s.upQueue - 1);
      if StandsDown(s.live, s.target) then t.(sleeping := false, loop := Draining) else t
    case DrainOne => s.(renewQueue := s.renewQueue - 1)
    case DrainEnd => s.(loop := Idle)
    case Fail(i) => s.(live := s.live - 1, carriers := s.carriers[i := Unsignalled])
    case Connect(i) => s.(upQueue := s.upQueue + 1, carriers := s.carriers[i := Serving])
    case Close(i) => s.(live := s.live - 1, carriers := s.carriers[i := Unsignalled])
    case Signal(i) => s.(renewQueue := s.renewQueue + 1, carriers := s.carriers[i := Gone])
    case BeginClose => s.(closing := true)
  }

  /** `steps` can be taken one after another from `s`. */
  predicate Runs(s: State, steps: seq<Step>)
    decreases |steps|
  {
    steps == [] || (Enabled(s, steps[0]) && Runs(Apply(s, steps[0]), steps[1..]))
  }

  function Exec(s: State, steps: seq<Step>): State
    requires Runs(s, steps)
    decreases |steps|
  {
    if steps == [] then s else Exec(Apply(s, steps[0]), steps[1..])
  }

  lemma {:induction false} RunsConcat(s: State, a: seq<Step>, b: seq<Step>)
    requires Runs(s, a) && Runs(Exec(s, a), b)
    ensures Runs(s, a + b) && Exec(s, a + b) == Exec(Exec(s, a), b)
    decreases |a|
  {
    if a == [] {
      assert a + b == b;
    } else {
      RunsConcat(Apply(s, a[0]), a[1..], b);
      assert (a + b)[1..] == a[1..] + b;
    }
  }

  lemma RunsCons(s: State, step: Step, rest: seq<Step>)
    requires Enabled(s, step) && Runs(Apply(s, step), rest)
    ensures Runs(s, [step] + rest) && Exec(s, [step] + rest) == Exec(Apply(s, step), rest)
  {
  }

  // ----- Slot accounting

  function Left(l: Loop): nat { if l.Reserving? || l.Submitting? then l.left else 0 }

  /** `direct_live` is exactly the number of reserved slots that were not given back. */
  ghost predicate Accounted(s: State) {
    && s.live == Holders(s) + (if s.loop.Submitting? then 1 else 0)
    && s.live + Left(s.loop) <= s.target
  }

  /** One step's effect on the two tallies. */
  lemma Tallies(s: State, step: Step)
    requires Enabled(s, step)
    ensures var t := Apply(s, step);
      && Holders(t) == Holders(s)
                       + (if step.Submit? && !s.closing then 1 else 0)
                       - (if step.Fail? || step.Close? then 1 else 0)
      && Owed(t) == Owed(s)
                    + (if step.Fail? || step.Close? then 1 else 0)
                    - (if step.Signal? then 1 else 0)
  {
    if step.Submit? {
      SubmitTallies(s);
    } else if step.Fail? || step.Close? || step.Connect? || step.Signal? {
      CarrierTallies(s, step);
    } else {
      OtherSteps(s, step);
    }
  }

  lemma SubmitTallies(s: State)
    requires Enabled(s, Submit)
    ensures Holders(Apply(s, Submit)) == Holders(s) + (if s.closing then 0 else 1)
    ensures Owed(Apply(s, Submit)) == Owed(s)
  {
    TotalAppend(s.carriers, Dialing, Holds);
    TotalAppend(s.carriers, Dialing, Owes);
  }

  lemma CarrierTallies(s: State, step: Step)
    requires Enabled(s, step) && (step.Fail? || step.Close? || step.Connect? || step.Signal?)
    ensures var t := Apply(s, step);
      && Holders(t) == Holders(s) - (if step.Fail? || step.Close? then 1 else 0)
      && Owed(t) == Owed(s) + (if step.Fail? || step.Close? then 1 else 0) - (if step.Signal? then 1 else 0)
  {
    Moved(s.carriers, step.i, After(step));
  }

  lemma OtherSteps(s: State, step: Step)
    requires Enabled(s, step) && !(step.Fail? || step.Close? || step.Connect? || step.Signal? || step.Submit?)
    ensures Apply(s, step).carriers == s.carriers
  {
  }

  /** What a carrier's own step makes of it. */
  function After(step: Step): Carrier {
    match step
    case Connect(_) => Serving
    case Signal(_) => Gone
    case _ => Unsignalled
  }

  lemma Moved(cs: seq<Carrier>, i: nat, c: Carrier)
    requires i < |cs|
    ensures Total(cs[i := c], Holds) + Holds(cs[i]) == Total(cs, Holds) + Holds(c)
    ensures Total(cs[i := c], Owes) + Owes(cs[i]) == Total(cs, Owes) + Owes(c)
  {
    TotalUpdate(cs, i, c, Holds);
    TotalUpdate(cs, i, c, Owes);
  }

  /** One step's effect on the counter and on what the loop has left to open. */
  lemma CounterStep(s: State, step: Step)
    requires Enabled(s, step)
    ensures var t := Apply(s, step);
      && t.live == s.live + (if step.Reserve? then 1 else 0)
                   - (if step.Fail? || step.Close? || (step.Submit? && s.closing) then 1 else 0)
      && t.target == s.target
      && (t.loop.Submitting? <==> step.Reserve? || (s.loop.Submitting? && !step.Submit?))
  {
  }

  lemma LeftStep(s: State, step: Step)
    requires Enabled(s, step) && s.live + Left(s.loop) <= s.target
    ensures Apply(s, step).live + Left(Apply(s, step).loop) <= s.target
  {
  }

  lemma AccountedStep(s: State, step: Step)
    requires Accounted(s) && Enabled(s, step)
    ensures Accounted(Apply(s, step)) && Apply(s, step).target == s.target
  {
    Tallies(s, step);
    CounterStep(s, step);
    LeftStep(s, step);
  }

  lemma {:induction false} AccountedRun(s: State, steps: seq<Step>)
    requires Accounted(s) && Runs(s, steps)
    ensures Accounted(Exec(s, steps)) && Exec(s, steps).target == s.target
    decreases |steps|
  {
    if steps != [] {
      AccountedStep(s, steps[0]);
      AccountedRun(Apply(s, steps[0]), steps[1..]);
    }
  }

  /** Under every interleaving the shared counter equals the slots held by carriers, plus the one
      the loop is submitting, never underflows and never exceeds the target. */
  lemma SlotAccounting(target: nat, steps: seq<Step>)
    requires Runs(Init(target), steps)
    ensures var s := Exec(Init(target), steps);
      && s.live == Holders(s) + (if s.loop.Submitting? then 1 else 0)
      && 0 <= s.live <= target
  {
    AccountedRun(Init(target), steps);
  }

  // ----- Nothing is asked for twice

  function One(b: bool): nat { if b then 1 else 0 }

  datatype Kind = First | Answered | Taken | Unresolved | Renewed | Drained | Slept | Up | Connected | Signalled

  /** Whether a step counts as one of `kind`; an offer that could not be resolved is taken as well. */
  predicate Counts(step: Step, kind: Kind) {
    match kind
    case First => step.FirstOffer?
    case Answered => step.Answer?
    case Taken => step.TakeOffer?
    case Unresolved => step == TakeOffer(false)
    case Renewed => step.RenewArm?
    case Drained => step.DrainOne?
    case Slept => step.SleepFires?
    case Up => step.UpArm?
    case Connected => step.Connect?
    case Signalled => step.Signal?
  }

  /** How often a kind of step was taken. */
  function Times(steps: seq<Step>, kind: Kind): nat {
    if steps == [] then 0 else One(Counts(steps[0], kind)) + Times(steps[1..], kind)
  }

  lemma {:induction false} RequestsRun(s: State, steps: seq<Step>)
    requires Runs(s, steps)
    ensures Exec(s, steps).requests + Times(steps, Answered) == s.requests + Times(steps, Slept)
    decreases |steps|
  {
    if steps != [] {
      RequestsRun(Apply(s, steps[0]), steps[1..]);
    }
  }

  lemma {:induction false} OffersRun(s: State, steps: seq<Step>)
    requires Runs(s, steps)
    ensures Exec(s, steps).offers + Times(steps, Taken) == s.offers + Times(steps, First) + Times(steps, Answered)
    decreases |steps|
  {
    if steps != [] {
      OffersRun(Apply(s, steps[0]), steps[1..]);
    }
  }

  lemma {:induction false} UpsRun(s: State, steps: seq<Step>)
    requires Runs(s, steps)
    ensures Exec(s, steps).upQueue + Times(steps, Up) == s.upQueue + Times(steps, Connected)
    decreases |steps|
  {
    if steps != [] {
      UpsRun(Apply(s, steps[0]), steps[1..]);
    }
  }

  lemma {:induction false} RenewalsRun(s: State, steps: seq<Step>)
    requires Runs(s, steps)
    ensures Exec(s, steps).renewQueue + Times(steps, Renewed) + Times(steps, Drained)
            == s.renewQueue + Times(steps, Signalled) + Times(steps, Unresolved)
    decreases |steps|
  {
    if steps != [] {
      RenewalsRun(Apply(s, steps[0]), steps[1..]);
    }
  }

  /** Each scheduled sleep comes from one renewal of its own. */
  lemma {:induction false} SleepsRun(s: State, steps: seq<Step>)
    requires Runs(s, steps)
    ensures Times(steps, Slept) + One(Exec(s, steps).sleeping) <= Times(steps, Renewed) + One(s.sleeping)
    decreases |steps|
  {
    if steps != [] {
      SleepsRun(Apply(s, steps[0]), steps[1..]);
    }
  }

  /** In every run each queue holds exactly what was put in and not taken out, and the server is asked
      at most once for every release that was signalled or offer that could not be resolved. */
  lemma NothingIsAskedTwice(target: nat, steps: seq<Step>)
    requires Runs(Init(target), steps)
    ensures var s := Exec(Init(target), steps);
      && s.requests + Times(steps, Answered) == Times(steps, Slept)
      && s.offers + Times(steps, Taken) == Times(steps, First) + Times(steps, Answered)
      && s.upQueue + Times(steps, Up) == Times(steps, Connected)
      && s.renewQueue + Times(steps, Renewed) + Times(steps, Drained)
         == Times(steps, Signalled) + Times(steps, Unresolved)
      && Times(steps, Slept) + One(s.sleeping) <= Times(steps, Renewed)
         <= Times(steps, Signalled) + Times(steps, Unresolved)
  {
    RequestsRun(Init(target), steps);
    OffersRun(Init(target), steps);
    UpsRun(Init(target), steps);
    RenewalsRun(Init(target), steps);
    SleepsRun(Init(target), steps);
  }

  // ----- A carrier's life

  /** What happened to one carrier so far. */
  datatype Past = Past(connected: bool, released: bool, signalled: bool)

  function PhaseAfter(past: Past): Carrier {
    if past.signalled then Gone
    else if past.released then Unsignalled
    else if past.connected then Serving
    else Dialing
  }

  function Extend(past: Past, i: nat, steps: seq<Step>): Past {
    Past(past.connected || Connect(i) in steps,
         past.released || Fail(i) in steps || Close(i) in steps,
         past.signalled || Signal(i) in steps)
  }

  predicate Lived(s: State, i: nat, past: Past) {
    if i < |s.carriers| then s.carriers[i] == PhaseAfter(past) else past == Past(false, false, false)
  }

  function ExtendOne(past: Past, i: nat, step: Step): Past {
    match step
    case Connect(j) => if j == i then past.(connected := true) else past
    case Fail(j) => if j == i then past.(released := true) else past
    case Close(j) => if j == i then past.(released := true) else past
    case Signal(j) => if j == i then past.(signalled := true) else past
    case _ => past
  }

  lemma ExtendFront(past: Past, i: nat, steps: seq<Step>)
    requires steps != []
    ensures Extend(past, i, steps) == Extend(ExtendOne(past, i, steps[0]), i, steps[1..])
  {
    assert steps == [steps[0]] + steps[1..];
  }

  lemma LivedStep(s: State, step: Step, i: nat, past: Past)
    requires Lived(s, i, past) && Enabled(s, step)
    ensures Lived(Apply(s, step), i, ExtendOne(past, i, step))
    ensures past.released ==> step != Fail(i) && step != Close(i)
  {
  }

  /** How often carrier `i` gave its slot back. */
  function ReleasesOf(steps: seq<Step>, i: nat): nat {
    if steps == [] then 0 else One(steps[0] == Fail(i) || steps[0] == Close(i)) + ReleasesOf(steps[1..], i)
  }

  lemma {:induction false} LivedRun(s: State, steps: seq<Step>, i: nat, past: Past)
    requires Lived(s, i, past) && Runs(s, steps)
    ensures Lived(Exec(s, steps), i, Extend(past, i, steps))
    ensures One(past.released) + ReleasesOf(steps, i) <= 1
    decreases |steps|
  {
    if steps != [] {
      ExtendFront(past, i, steps);
      LivedStep(s, steps[0], i, past);
      LivedRun(Apply(s, steps[0]), steps[1..], i, ExtendOne(past, i, steps[0]));
    }
  }

  /** In every run a carrier is where its own steps have brought it, and gives its slot back at most
      once, on whichever path it leaves. */
  lemma CarrierLife(target: nat, steps: seq<Step>, i: nat)
    requires Runs(Init(target), steps) && i < |Exec(Init(target), steps).carriers|
    ensures var c := Exec(Init(target), steps).carriers[i];
      && (c.Gone? <==> Signal(i) in steps)
      && (c.Gone? || c.Unsignalled? <==> Fail(i) in steps || Close(i) in steps || Signal(i) in steps)
      && (c.Serving? ==> Connect(i) in steps) && (c.Dialing? ==> Connect(i) !in steps)
    ensures ReleasesOf(steps, i) <= 1
  {
    LivedRun(Init(target), steps, i, Past(false, false, false));
  }

  // ----- No lost top-up

  /** A recovery is on its way: a release not yet signalled, a queued renewal, a scheduled
      sleep, a request to the server, or an offer from it. */
  ghost predicate Recovering(s: State) {
    Owed(s) > 0 || s.renewQueue > 0 || s.sleeping || s.requests > 0 || s.offers > 0
  }

  /** The pool is at its target, or will be once this offer is opened, or is recovering. */
  ghost predicate Covered(s: State) {
    s.live + Left(s.loop) >= s.target || Recovering(s)
  }

  predicate Releases(step: Step) { step.Fail? || step.Close? }

  /** No carrier gives its slot back while the `up` arm is between its load and the end of
      its drain: the runs in which that arm is one step. */
  predicate UpArmUninterrupted(s: State, steps: seq<Step>)
    requires Runs(s, steps)
    decreases |steps|
  {
    steps == [] ||
    ((s.loop.Draining? ==> !Releases(steps[0])) && UpArmUninterrupted(Apply(s, steps[0]), steps[1..]))
  }

  ghost predicate Watched(s: State) {
    && (!s.offered ==> s == Init(s.target).(closing := s.closing))
    && (s.offered && !s.closing ==> Covered(s) && (s.loop.Draining? ==> s.live >= s.target))
  }

  lemma WatchedStep(s: State, step: Step)
    requires Accounted(s) && Watched(s) && Enabled(s, step) && (s.loop.Draining? ==> !Releases(step))
    ensures Watched(Apply(s, step))
  {
    Tallies(s, step);
  }

  lemma {:induction false} WatchedRun(s: State, steps: seq<Step>)
    requires Accounted(s) && Watched(s)
    requires Runs(s, steps) && UpArmUninterrupted(s, steps)
    ensures Watched(Exec(s, steps))
    decreases |steps|
  {
    if steps != [] {
      AccountedStep(s, steps[0]);
      WatchedStep(s, steps[0]);
      WatchedRun(Apply(s, steps[0]), steps[1..]);
    }
  }

  /** After the first offer every state of every run whose `up` arms are uninterrupted has a whole
      pool or a recovery outstanding, until the client's scope starts closing. */
  lemma NoLostTopUp(target: nat, steps: seq<Step>)
    requires Runs(Init(target), steps) && UpArmUninterrupted(Init(target), steps)
    requires Exec(Init(target), steps).offered && !Exec(Init(target), steps).closing
    ensures Covered(Exec(Init(target), steps))
  {
    WatchedRun(Init(target), steps);
  }

  /** Below target with nothing left that would ever top the pool up. */
  ghost predicate Lost(s: State) {
    s.offered && !s.closing && s.loop.Idle? && s.live < s.target && !Recovering(s)
  }

  /** Conversely, a run that ends with a lost pool has a carrier giving its slot back inside the
      window of an `up` arm. */
  lemma LostNeedsInterruption(target: nat, steps: seq<Step>) returns (k: nat)
    requires Runs(Init(target), steps) && Lost(Exec(Init(target), steps))
    ensures k < |steps| && Runs(Init(target), steps[..k])
    ensures Exec(Init(target), steps[..k]).loop.Draining? && Releases(steps[k])
  {
    if UpArmUninterrupted(Init(target), steps) {
      NoLostTopUp(target, steps);
      assert false;
    }
    k := Interruption(Init(target), steps);
  }

  lemma {:induction false} Interruption(s: State, steps: seq<Step>) returns (k: nat)
    requires Runs(s, steps) && !UpArmUninterrupted(s, steps)
    ensures k < |steps| && Runs(s, steps[..k])
    ensures Exec(s, steps[..k]).loop.Draining? && Releases(steps[k])
    decreases |steps|
  {
    if s.loop.Draining? && Releases(steps[0]) {
      k := 0;
    } else {
      var t := Apply(s, steps[0]);
      var j := Interruption(t, steps[1..]);
      k := j + 1;
      RunsCons(s, steps[0], steps[1..][..j]);
      assert steps[..k] == [steps[0]] + steps[1..][..j];
    }
  }

  lemma LostStep(s: State, step: Step)
    requires Lost(s) && Enabled(s, step) && !Releases(step) && !step.BeginClose?
    ensures Lost(Apply(s, step)) && Apply(s, step).live == s.live
  {
    Tallies(s, step);
  }

  /** A lost pool stays lost: nothing but a further carrier going down, or the scope closing,
      can end it. */
  lemma {:induction false} LostIsStuck(s: State, steps: seq<Step>)
    requires Lost(s) && Runs(s, steps)
    requires forall k :: 0 <= k < |steps| ==> !Releases(steps[k]) && !steps[k].BeginClose?
    ensures Lost(Exec(s, steps)) && Exec(s, steps).live == s.live
    decreases |steps|
  {
    if steps != [] {
      LostStep(s, steps[0]);
      LostIsStuck(Apply(s, steps[0]), steps[1..]);
    }
  }

  /** How many carriers gave their slot back. */
  function ReleaseCount(steps: seq<Step>): nat {
    if steps == [] then 0
    else (if Releases(steps[0]) then 1 else 0) + ReleaseCount(steps[1..])
  }

  /** How many releases were signalled. */
  function SignalCount(steps: seq<Step>): nat {
    if steps == [] then 0
    else (if steps[0].Signal? then 1 else 0) + SignalCount(steps[1..])
  }

  /** What the steps of other tasks change while the `up` arm drains, and what they cannot. */
  lemma WindowStep(s: State, step: Step)
    requires s.loop.Draining? && s.offered && !s.sleeping && Enabled(s, step) && !step.DrainEnd?
    ensures var t := Apply(s, step);
      && t.loop.Draining? && t.offered && !t.sleeping && t.target == s.target
      && t.closing == (s.closing || step.BeginClose?)
      && t.requests + t.offers == s.requests + s.offers
      && t.live == s.live - (if Releases(step) then 1 else 0)
      && Owed(t) == Owed(s) + (if Releases(step) then 1 else 0) - (if step.Signal? then 1 else 0)
  {
    Tallies(s, step);
  }

  lemma {:induction false} WindowRun(s: State, w: seq<Step>)
    requires s.loop.Draining? && s.offered && !s.sleeping && Runs(s, w) && DrainEnd !in w
    ensures var e := Exec(s, w);
      && e.loop.Draining? && e.offered && !e.sleeping && e.target == s.target
      && e.closing == (s.closing || BeginClose in w)
      && e.requests + e.offers == s.requests + s.offers
      && e.live == s.live - ReleaseCount(w)
      && Owed(e) == Owed(s) + ReleaseCount(w) - SignalCount(w)
    decreases |w|
  {
    if w != [] {
      assert w == [w[0]] + w[1..];
      WindowStep(s, w[0]);
      WindowRun(Apply(s, w[0]), w[1..]);
    }
  }

  /** Exactly when the `up` arm loses a top-up, from what it found and what the other tasks did before
      its drain ended: the pool was whole, some carrier released its slot, every release owed before
      or made in the window was signalled in it, and no request or offer was in flight. */
  lemma UpArmLosesExactly(s: State, w: seq<Step>)
    requires Accounted(s) && s.offered && !s.closing
    requires s.loop.Idle? && s.upQueue > 0 && StandsDown(s.live, s.target)
    requires Runs(Apply(s, UpArm), w) && DrainEnd !in w
    requires Enabled(Exec(Apply(s, UpArm), w), DrainEnd)
    ensures Lost(Apply(Exec(Apply(s, UpArm), w), DrainEnd)) <==>
      && ReleaseCount(w) > 0 && SignalCount(w) == Owed(s) + ReleaseCount(w)
      && s.requests == 0 && s.offers == 0 && BeginClose !in w
  {
    var t := Apply(s, UpArm);
    WindowRun(t, w);
    Tallies(Exec(t, w), DrainEnd);
  }

  /** The `up` arm with one carrier going down inside its window. */
  function Race(i: nat): seq<Step> { [UpArm] + ([Close(i)] + RaceTail(i)) }

  function RaceTail(i: nat): seq<Step> { [Signal(i)] + ([DrainOne] + ([DrainEnd] + [])) }

  lemma RaceTailRuns(s: State, i: nat)
    requires s.loop.Draining? && Is(s, i, Unsignalled) && s.renewQueue == 0
    ensures Runs(s, RaceTail(i))
    ensures Exec(s, RaceTail(i)) == s.(loop := Idle, carriers := s.carriers[i := Gone])
  {
    var t := Apply(s, Signal(i));
    var u := Apply(t, DrainOne);
    RunsCons(u, DrainEnd, []);
    RunsCons(t, DrainOne, [DrainEnd] + []);
    RunsCons(s, Signal(i), [DrainOne] + ([DrainEnd] + []));
  }

  lemma RaceRuns(s: State, i: nat)
    requires s.loop.Idle? && s.live == s.target && s.upQueue > 0 && Is(s, i, Serving) && s.renewQueue == 0
    ensures Runs(s, Race(i))
    ensures Exec(s, Race(i)) == s.(upQueue := s.upQueue - 1, sleeping := false, live := s.live - 1,
                                   carriers := s.carriers[i := Unsignalled][i := Gone])
  {
    var t := Apply(s, UpArm);
    var u := Apply(t, Close(i));
    RaceTailRuns(u, i);
    RunsCons(t, Close(i), RaceTail(i));
    RunsCons(s, UpArm, [Close(i)] + RaceTail(i));
  }

  lemma RaceLoses(s: State, i: nat)
    requires s.offered && !s.closing && s.loop.Idle?
    requires s.live == s.target && s.upQueue > 0 && Is(s, i, Serving)
    requires !Recovering(s)
    ensures Runs(s, Race(i)) && Lost(Exec(s, Race(i)))
  {
    RaceRuns(s, i);
    Moved(s.carriers, i, Unsignalled);
    Moved(s.carriers[i := Unsignalled], i, Gone);
  }

  // ----- Healing

  /** `n` turns of the offer arm's loop. */
  function OpenSteps(n: nat): seq<Step> {
    if n == 0 then [] else [Reserve, Submit] + OpenSteps(n - 1)
  }

  function Fresh(n: nat): seq<Carrier> { seq(n, _ => Dialing) }

  lemma {:induction false} OpenRun(s: State, n: nat)
    requires !s.closing && s.loop == Opening(n)
    ensures Runs(s, OpenSteps(n))
    ensures Exec(s, OpenSteps(n)) == s.(live := s.live + n, carriers := s.carriers + Fresh(n), loop := Idle)
    decreases n
  {
    if n == 0 {
      assert s.carriers + Fresh(0) == s.carriers;
    } else {
      var s1 := Apply(s, Reserve);
      var s2 := Apply(s1, Submit);
      OpenRun(s2, n - 1);
      assert OpenSteps(n)[1..] == [Submit] + OpenSteps(n - 1);
      assert OpenSteps(n)[1..][1..] == OpenSteps(n - 1);
      assert s.carriers + [Dialing] + Fresh(n - 1) == s.carriers + Fresh(n);
    }
  }

  /** The whole offer arm, uninterrupted: one entry of the select loop. */
  function OfferArm(s: State): seq<Step> {
    [TakeOffer(true)] + OpenSteps(if s.live < s.target then s.target - s.live else 0)
  }

  lemma OfferArmRun(s: State)
    requires !s.closing && s.loop.Idle? && s.offers > 0 && s.live <= s.target
    ensures Runs(s, OfferArm(s))
    ensures Exec(s, OfferArm(s)) ==
      s.(offers := s.offers - 1, live := s.target, carriers := s.carriers + Fresh(s.target - s.live))
  {
    OpenRun(Apply(s, TakeOffer(true)), s.target - s.live);
    assert OfferArm(s)[1..] == OpenSteps(s.target - s.live);
  }

  /** How far a recovery is from an offer the loop can open. */
  ghost function Distance(s: State): nat {
    if s.offers > 0 then 0
    else if s.requests > 0 then 1
    else if s.sleeping then 2
    else if s.renewQueue > 0 then 3
    else 4
  }

  /** What `Recovering` is worth: from any state in which a recovery is outstanding there is a
      continuation, at most four steps and one offer arm long, that restores the whole pool. */
  lemma {:induction false} RecoveryHeals(s: State) returns (steps: seq<Step>)
    requires Accounted(s) && s.loop.Idle? && !s.closing && Recovering(s)
    ensures Runs(s, steps) && Exec(s, steps).live == s.target
    ensures forall k :: 0 <= k < |steps| ==> !Releases(steps[k])
    decreases Distance(s)
  {
    if s.offers > 0 {
      steps := OfferArm(s);
      OfferArmRun(s);
      NoReleaseInOpen(if s.live < s.target then s.target - s.live else 0);
    } else {
      var step: Step;
      if s.requests > 0 {
        step := Answer;
      } else if s.sleeping {
        step := SleepFires;
      } else if s.renewQueue > 0 {
        step := RenewArm;
      } else {
        var i := TotalWitness(s.carriers, Owes);
        step := Signal(i);
      }
      Tallies(s, step);
      var rest := RecoveryHeals(Apply(s, step));
      steps := [step] + rest;
      assert steps[1..] == rest;
    }
  }

  lemma {:induction false} NoReleaseInOpen(n: nat)
    ensures forall k :: 0 <= k < |OpenSteps(n)| ==> !Releases(OpenSteps(n)[k])
  {
    if n > 0 {
      NoReleaseInOpen(n - 1);
    }
  }

  /** The property needs the uninterrupted arm: for every target there is a run, from the start,
      in which one carrier closes and signals inside the window, and the pool is lost. */
  lemma UpArmRaceReachable(target: nat) returns (steps: seq<Step>)
    requires target > 0
    ensures Runs(Init(target), steps) && Lost(Exec(Init(target), steps))
  {
    var s0 := Init(target);
    var s1 := Apply(s0, FirstOffer);
    OfferArmRun(s1);
    var s2 := Exec(s1, OfferArm(s1));
    AccountedRun(s1, OfferArm(s1));
    NoneOwed(target);
    assert s2.carriers == Fresh(target);
    var s3 := Apply(s2, Connect(0));
    Tallies(s2, Connect(0));
    RaceLoses(s3, 0);
    RunsCons(s2, Connect(0), Race(0));
    RunsConcat(s1, OfferArm(s1), [Connect(0)] + Race(0));
    RunsCons(s0, FirstOffer, OfferArm(s1) + ([Connect(0)] + Race(0)));
    steps := [FirstOffer] + (OfferArm(s1) + ([Connect(0)] + Race(0)));
  }

  lemma {:induction false} NoneOwed(n: nat)
    ensures Total(Fresh(n), Owes) == 0
  {
    if n > 0 {
      assert Fresh(n)[..n - 1] == Fresh(n - 1);
      NoneOwed(n - 1);
    }
  }
}
