/** The provider's direct QUIC listener (`provider_direct`) and the moment its control connection
    goes away: a lost server lets the listener linger, any other exit closes it at once. */
module Linger {
  import opened Tally

  datatype Conn = Held | Ended

  /** The listen task that owns the punch channel. `Tripped` has set the linger flag and not yet
      dropped the channel. */
  datatype Control = Attached | Tripped | Gone

  datatype Phase = Serving | Lingering | Closed

  datatype State = State(
    phase: Phase,
    live: int,
    conns: seq<Conn>,
    control: Control,
    linger: bool,
    cancelled: bool)

  datatype Step =
    | Accept
    | End(i: nat)
    | Punch
    | SilenceTrip
    | DropFrame
    | CleanExit
    | Cancel
    | SeeCancel
    | SeeGone
    | Poll

  const INIT := State(Serving, 0, [], Attached, false, false)

  function Held1(c: Conn): nat { if c.Held? then 1 else 0 }

  predicate Enabled(s: State, step: Step) {
    match step
    case Accept => s.phase.Serving?
    case End(i) => i < |s.conns| && s.conns[i].Held?
    case Punch => s.phase.Serving? && s.control.Attached?
    case SilenceTrip => s.control.Attached?
    case DropFrame => s.control.Tripped?
    case CleanExit => s.control.Attached?
    case Cancel => !s.cancelled
    case SeeCancel => !s.phase.Closed? && s.cancelled
    case SeeGone => s.phase.Serving? && s.control.Gone?
    case Poll => s.phase.Lingering?
  }

  function Apply(s: State, step: Step): State
    requires Enabled(s, step)
  {
    match step
    case Accept => s.(live := s.live + 1, conns := s.conns + [Held])
    case End(i) => s.(live := s.live - 1, conns := s.conns[i := Ended])
    case Punch => s
    case SilenceTrip => s.(linger := true, control := Tripped)
    case DropFrame => s.(control := Gone)
    case CleanExit => s.(control := Gone)
    case Cancel => s.(cancelled := true)
    case SeeCancel => s.(phase := Closed)
    case SeeGone => s.(phase := if s.linger && s.live > 0 then Lingering else Closed)
    case Poll => if s.live > 0 then s else s.(phase := Closed)
  }

  predicate Runs(s: State, steps: seq<Step>)
    decreases |steps|
  {
    steps == [] || (Enabled(s, steps[0]) && Runs(Apply(s, steps[0]), steps[1..]))
  }

  function Exec(s: State, steps: seq<Step>): State
    requires Runs(s, steps)
    decreases |steps|
  {
    if steps == [] then s else Exec(Apply(s, steps[0]), steps[1..])
  }

  /** `live` is the number of connection tasks still holding their guard; only a silence trip, with
      its flag set before the channel goes, ever leads to lingering. */
  ghost predicate Inv(s: State) {
    && s.live == Total(s.conns, Held1)
    && (s.linger ==> !s.control.Attached?)
    && (s.control.Tripped? ==> s.linger)
    && (s.phase.Lingering? ==> s.linger && s.control.Gone?)
  }

  lemma StepKeepsInv(s: State, step: Step)
    requires Inv(s) && Enabled(s, step)
    ensures Inv(Apply(s, step))
  {
    match step
    case Accept => TotalAppend(s.conns, Held, Held1);
    case End(i) => TotalUpdate(s.conns, i, Ended, Held1);
    case _ =>
  }

  lemma {:induction false} RunKeepsInv(s: State, steps: seq<Step>)
    requires Inv(s) && Runs(s, steps)
    ensures Inv(Exec(s, steps))
    decreases |steps|
  {
    if steps != [] {
      StepKeepsInv(s, steps[0]);
      RunKeepsInv(Apply(s, steps[0]), steps[1..]);
    }
  }

  lemma {:induction false} NoneHeld(conns: seq<Conn>, i: nat)
    requires Total(conns, Held1) == 0 && i < |conns|
    ensures conns[i].Ended?
  {
    if i < |conns| - 1 {
      NoneHeld(conns[..|conns| - 1], i);
    }
  }

  /** After a silence trip, in every run, the listener is closed only once every direct connection
      has ended, or because the scope was cancelled. */
  lemma LostServerClosesOnlyWhenIdle(steps: seq<Step>, step: Step)
    requires Runs(INIT, steps)
    requires var s := Exec(INIT, steps);
      s.linger && !s.phase.Closed? && Enabled(s, step) && Apply(s, step).phase.Closed?
    ensures var s := Exec(INIT, steps);
      s.cancelled || (s.live == 0 && forall i :: 0 <= i < |s.conns| ==> s.conns[i].Ended?)
  {
    RunKeepsInv(INIT, steps);
    var s := Exec(INIT, steps);
    if !s.cancelled {
      forall i | 0 <= i < |s.conns|
        ensures s.conns[i].Ended?
      {
        NoneHeld(s.conns, i);
      }
    }
  }

  /** While lingering no connection is added and the live count never grows, until it closes. */
  lemma {:induction false} LingeringOnlyShrinks(s: State, steps: seq<Step>)
    requires Inv(s) && !s.phase.Serving? && Runs(s, steps)
    ensures var e := Exec(s, steps);
      && !e.phase.Serving? && e.live <= s.live && |e.conns| == |s.conns|
      && (forall i :: 0 <= i < |s.conns| && s.conns[i].Ended? ==> e.conns[i].Ended?)
    decreases |steps|
  {
    if steps != [] {
      StepKeepsInv(s, steps[0]);
      LingeringOnlyShrinks(Apply(s, steps[0]), steps[1..]);
    }
  }

  /** A control exit without a trip never lingers: as soon as the provider sees the channel gone it
      closes, whatever is still being served. */
  lemma CleanExitClosesAtOnce(steps: seq<Step>)
    requires Runs(INIT, steps) && (forall k :: 0 <= k < |steps| ==> !steps[k].SilenceTrip?)
    ensures var s := Exec(INIT, steps);
      !s.phase.Lingering? && (Enabled(s, SeeGone) ==> Apply(s, SeeGone).phase.Closed?)
  {
    RunKeepsInv(INIT, steps);
    NoTripNoFlag(INIT, steps);
  }

  lemma {:induction false} NoTripNoFlag(s: State, steps: seq<Step>)
    requires Runs(s, steps) && !s.linger && (forall k :: 0 <= k < |steps| ==> !steps[k].SilenceTrip?)
    ensures !Exec(s, steps).linger
    decreases |steps|
  {
    if steps != [] {
      NoTripNoFlag(Apply(s, steps[0]), steps[1..]);
    }
  }

  /** A lingering provider never gets stuck: ending the connections it still serves and one more
      poll closes it. */
  lemma {:induction false} LingeringDrains(s: State) returns (steps: seq<Step>)
    requires Inv(s) && s.phase.Lingering?
    ensures Runs(s, steps) && Exec(s, steps).phase.Closed? && |steps| == s.live + 1
    decreases s.live
  {
    if s.live == 0 {
      steps := [Poll];
      assert steps[1..] == [];
    } else {
      var i := TotalWitness(s.conns, Held1);
      StepKeepsInv(s, End(i));
      var rest := LingeringDrains(Apply(s, End(i)));
      steps := [End(i)] + rest;
      assert steps[1..] == rest;
    }
  }

  // ----- What a run leaves is what its steps did

  function AcceptCount(steps: seq<Step>): nat {
    if steps == [] then 0 else (if steps[0].Accept? then 1 else 0) + AcceptCount(steps[1..])
  }

  lemma {:induction false} HistoryRun(s: State, steps: seq<Step>)
    requires Inv(s) && Runs(s, steps)
    ensures var e := Exec(s, steps);
      && |e.conns| == |s.conns| + AcceptCount(steps)
      && (e.linger <==> s.linger || SilenceTrip in steps)
      && (e.cancelled <==> s.cancelled || Cancel in steps)
      && (e.control.Gone? <==> s.control.Gone? || DropFrame in steps || CleanExit in steps)
      && (!e.phase.Serving? <==> !s.phase.Serving? || SeeGone in steps || SeeCancel in steps)
    decreases |steps|
  {
    if steps != [] {
      assert steps == [steps[0]] + steps[1..];
      StepKeepsInv(s, steps[0]);
      HistoryRun(Apply(s, steps[0]), steps[1..]);
    }
  }

  lemma {:induction false} ConnRun(s: State, steps: seq<Step>, i: nat, ended: bool)
    requires Runs(s, steps) && (if i < |s.conns| then s.conns[i].Ended? == ended else !ended)
    ensures i < |Exec(s, steps).conns| ==> (Exec(s, steps).conns[i].Ended? <==> ended || End(i) in steps)
    decreases |steps|
  {
    if steps != [] {
      assert steps == [steps[0]] + steps[1..];
      ConnRun(Apply(s, steps[0]), steps[1..], i, ended || steps[0] == End(i));
    }
  }

  /** In every run the provider's state is what its steps made it: one connection for every accept, each
      ended exactly by its own end; it lingers only after a trip, is cancelled only by a cancellation,
      and stops serving exactly on seeing the channel gone or the cancellation. */
  lemma ProviderIsItsHistory(steps: seq<Step>, i: nat)
    requires Runs(INIT, steps)
    ensures var s := Exec(INIT, steps);
      && |s.conns| == AcceptCount(steps)
      && (i < |s.conns| ==> (s.conns[i].Ended? <==> End(i) in steps))
      && (s.linger <==> SilenceTrip in steps) && (s.cancelled <==> Cancel in steps)
      && (s.control.Gone? <==> DropFrame in steps || CleanExit in steps)
      && (!s.phase.Serving? <==> SeeGone in steps || SeeCancel in steps)
  {
    HistoryRun(INIT, steps);
    ConnRun(INIT, steps, i, false);
  }

  // ----- The provider's task

  /** What other tasks do while the provider lingers: connections end, the scope is cancelled. */
  predicate Elsewhere(step: Step) { step.End? || step.Cancel? }

  lemma {:induction false} RunsSnoc(s: State, steps: seq<Step>, step: Step)
    requires Runs(s, steps) && Enabled(Exec(s, steps), step)
    ensures Runs(s, steps + [step]) && Exec(s, steps + [step]) == Apply(Exec(s, steps), step)
    decreases |steps|
  {
    if steps == [] {
      assert steps + [step] == [step];
      assert [step][1..] == [];
    } else {
      RunsSnoc(Apply(s, steps[0]), steps[1..], step);
      assert (steps + [step])[1..] == steps[1..] + [step];
    }
  }

  /** The state `provider_direct` shares with its connection tasks and the listen task. */
  class Provider {
    var phase: Phase
    var live: int
    var conns: seq<Conn>
    var control: Control
    var linger: bool
    var cancelled: bool

    ghost function View(): State
      reads this
    {
      State(phase, live, conns, control, linger, cancelled)
    }

    ghost predicate Valid()
      reads this
    {
      Inv(View())
    }

    constructor ()
      ensures Valid() && View() == INIT
    {
      phase, live, conns, control, linger, cancelled := Serving, 0, [], Attached, false, false;
    }

    /** A step of another task. */
    method Happen(step: Step)
      requires Valid() && Elsewhere(step) && Enabled(View(), step)
      modifies this
      ensures Valid() && View() == Apply(old(View()), step)
    {
      StepKeepsInv(View(), step);
      if step.End? {
        live := live - 1;
        conns := conns[step.i := Ended];
      } else {
        cancelled := true;
      }
    }

    /** The `None` arm of the punch channel: close at once, or, after a lost server, poll the live count
        until it is zero or the scope is cancelled, while the other tasks take the steps `meanwhile`.
        The task's own steps and those of the others it waited for are a run of the protocol. */
    method OnControlGone(meanwhile: seq<Step>) returns (ghost steps: seq<Step>, taken: nat)
      requires Valid() && phase.Serving? && control.Gone?
      requires forall k :: 0 <= k < |meanwhile| ==> Elsewhere(meanwhile[k])
      requires Runs(Apply(View(), SeeGone), meanwhile)
      modifies this
      ensures Valid() && Runs(old(View()), steps) && View() == Exec(old(View()), steps)
      ensures taken <= |meanwhile| && [SeeGone] + meanwhile[..taken] <= steps
      ensures !old(linger) || old(live) == 0 ==> phase.Closed? && taken == 0 && conns == old(conns)
      ensures old(linger) && phase.Closed? ==> live == 0 || cancelled
      ensures !phase.Closed? ==> phase.Lingering? && taken == |meanwhile| && live > 0 && !cancelled
    {
      ghost var was := View();
      StepKeepsInv(was, SeeGone);
      steps, taken := [] + [SeeGone], 0;
      RunsSnoc(was, [], SeeGone);
      if !(linger && live > 0) {
        phase := Closed;
        return;
      }
      phase := Lingering;
      while live > 0 && !cancelled && taken < |meanwhile|
        invariant Valid() && phase.Lingering? && taken <= |meanwhile|
        invariant steps == [SeeGone] + meanwhile[..taken]
        invariant Runs(was, steps) && View() == Exec(was, steps)
        invariant Runs(View(), meanwhile[taken..])
      {
        assert meanwhile[taken..][1..] == meanwhile[taken + 1..];
        RunsSnoc(was, steps, meanwhile[taken]);
        assert meanwhile[..taken + 1] == meanwhile[..taken] + [meanwhile[taken]];
        steps := steps + [meanwhile[taken]];
        Happen(meanwhile[taken]);
        taken := taken + 1;
      }
      if live == 0 || cancelled {
        ghost var last := if live == 0 then Poll else SeeCancel;
        StepKeepsInv(View(), last);
        RunsSnoc(was, steps, last);
        steps := steps + [last];
        phase := Closed;
      }
    }
  }
}
