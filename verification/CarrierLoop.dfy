/** The carrier-target arm, the re-dial check and the re-dial batch as imperative code, each tied to
    the steps of `CarrierPool` it takes when no other task runs in between. */
module CarrierLoop {
  import opened CarrierPool

  /** The steps of one uninterrupted `maybe_redial_carriers`. */
  function RedialSteps(s: State): seq<Step> {
    [Look] + (if s.live >= s.target then [] else [Claim] + [])
  }

  lemma RedialRun(s: State)
    requires s.loop.Idle?
    ensures Runs(s, RedialSteps(s))
    ensures Exec(s, RedialSteps(s)) ==
      if s.live >= s.target then s
      else if s.inflight || s.closing then s.(inflight := true)
      else s.(inflight := true, batch := Dialing(s.target - s.live))
  {
    if s.live >= s.target {
      RunsCons(s, Look, []);
    } else {
      RunsCons(Apply(s, Look), Claim, []);
      RunsCons(s, Look, [Claim] + []);
    }
  }

  // ----- The re-dial task, with the scope open or closing

  /** A dial that opened a carrier; `closed` says that the scope is closing by the time its pump is
      to be launched. */
  datatype Dial = Dial(closed: bool)

  /** The steps of one dial: a scope that refuses the pump makes the batch forget and uncount it. */
  function DialSteps(s: State, d: Dial): seq<Step> {
    var closing := s.closing || d.closed;
    (if d.closed && !s.closing then [BeginClose] + [] else [])
    + (OPEN_ONE + (if closing then [Uncount(|s.pumps|)] + [] else []))
  }

  function AfterDial(s: State, d: Dial): (t: State)
    requires s.batch.Dialing? && s.batch.left > 0
    ensures t.batch == Dialing(s.batch.left - 1) && |t.pumps| == |s.pumps| + 1
    ensures t.closing == (s.closing || d.closed)
    ensures t.live == if t.closing then s.live else s.live + 1
  {
    if s.closing || d.closed
    then s.(closing := true, pumps := s.pumps + [Ended], batch := Dialing(s.batch.left - 1))
    else AfterOne(s)
  }

  lemma RefusedOneRun(s: State)
    requires s.batch.Dialing? && s.batch.left > 0 && s.closing && |s.pumps| !in s.tracked
    ensures Runs(s, OPEN_ONE)
    ensures Exec(s, OPEN_ONE) ==
      s.(live := s.live + 1, pumps := s.pumps + [Forgotten], batch := Dialing(s.batch.left - 1))
  {
    var s1 := Apply(s, Open);
    var s2 := Apply(s1, Track);
    var s3 := Apply(s2, Launch);
    RunsCons(s2, Launch, []);
    RunsCons(s1, Track, [Launch] + []);
    RunsCons(s, Open, [Track] + ([Launch] + []));
    assert s3.pumps == s.pumps + [Forgotten];
    assert s3.tracked == s.tracked;
  }

  lemma RefusedDialRun(s: State)
    requires s.batch.Dialing? && s.batch.left > 0 && s.closing && |s.pumps| !in s.tracked
    ensures var steps := OPEN_ONE + ([Uncount(|s.pumps|)] + []);
      Runs(s, steps) && Exec(s, steps) == s.(pumps := s.pumps + [Ended], batch := Dialing(s.batch.left - 1))
  {
    RefusedOneRun(s);
    var t := Exec(s, OPEN_ONE);
    RunsCons(t, Uncount(|s.pumps|), []);
    RunsConcat(s, OPEN_ONE, [Uncount(|s.pumps|)] + []);
    assert t.pumps[|s.pumps| := Ended] == s.pumps + [Ended];
  }

  lemma DialRun(s: State, d: Dial)
    requires Accounted(s) && s.batch.Dialing? && s.batch.left > 0
    ensures Runs(s, DialSteps(s, d)) && Exec(s, DialSteps(s, d)) == AfterDial(s, d)
  {
    if s.closing {
      RefusedDialRun(s);
      assert [] + (OPEN_ONE + ([Uncount(|s.pumps|)] + [])) == OPEN_ONE + ([Uncount(|s.pumps|)] + []);
    } else if d.closed {
      var t := Apply(s, BeginClose);
      var rest := OPEN_ONE + ([Uncount(|s.pumps|)] + []);
      RefusedDialRun(t);
      RunsCons(s, BeginClose, rest);
      assert DialSteps(s, d) == [BeginClose] + rest;
    } else {
      OpenOneRun(s);
      assert DialSteps(s, d) == OPEN_ONE;
    }
  }

  function DialsSteps(s: State, ds: seq<Dial>): seq<Step>
    requires s.batch.Dialing? && |ds| <= s.batch.left
  {
    if ds == [] then []
    else DialsSteps(s, ds[..|ds| - 1]) + DialSteps(AfterDials(s, ds[..|ds| - 1]), ds[|ds| - 1])
  }

  function AfterDials(s: State, ds: seq<Dial>): (t: State)
    requires s.batch.Dialing? && |ds| <= s.batch.left
    ensures t.batch == Dialing(s.batch.left - |ds|)
    ensures s.live <= t.live <= s.live + |ds| && (s.closing ==> t.live == s.live)
    ensures s.closing ==> t.closing
    ensures !t.closing ==> t.live == s.live + |ds|
  {
    if ds == [] then s else AfterDial(AfterDials(s, ds[..|ds| - 1]), ds[|ds| - 1])
  }

  lemma {:induction false} DialsRun(s: State, ds: seq<Dial>)
    requires Accounted(s) && s.batch.Dialing? && |ds| <= s.batch.left
    ensures Runs(s, DialsSteps(s, ds)) && Exec(s, DialsSteps(s, ds)) == AfterDials(s, ds)
    ensures Accounted(AfterDials(s, ds))
  {
    if ds != [] {
      var front, d := ds[..|ds| - 1], ds[|ds| - 1];
      DialsRun(s, front);
      var t := AfterDials(s, front);
      DialRun(t, d);
      AccountedRun(t, DialSteps(t, d));
      RunsConcat(s, DialsSteps(s, front), DialSteps(t, d));
    }
  }

  /** The whole batch: `ds` are the dials that succeed before the first failure or the cancellation. */
  function WholeBatch(s: State, ds: seq<Dial>): seq<Step>
    requires s.batch.Dialing? && |ds| <= s.batch.left
  {
    DialsSteps(s, ds) + ([GiveUp] + ([Finish] + []))
  }

  lemma WholeBatchRun(s: State, ds: seq<Dial>)
    requires Accounted(s) && s.batch.Dialing? && |ds| <= s.batch.left
    ensures Runs(s, WholeBatch(s, ds))
    ensures Exec(s, WholeBatch(s, ds)) == AfterDials(s, ds).(batch := NoBatch, inflight := false)
    ensures Accounted(Exec(s, WholeBatch(s, ds)))
  {
    DialsRun(s, ds);
    var m := AfterDials(s, ds);
    RunsCons(Apply(m, GiveUp), Finish, []);
    RunsCons(m, GiveUp, [Finish] + []);
    RunsConcat(s, DialsSteps(s, ds), [GiveUp] + ([Finish] + []));
    AccountedRun(m, [GiveUp] + ([Finish] + []));
  }

  /** The carrier pool's shared variables. */
  class Dialer {
    var target: nat
    var live: int
    var pumps: seq<Pump>
    var tracked: set<nat>
    var terminated: set<nat>
    var inflight: bool
    var batch: Batch
    var closing: bool

    ghost function View(): State
      reads this
    {
      State(target, live, pumps, tracked, terminated, inflight, batch, Idle, closing)
    }

    ghost predicate Valid()
      reads this
    {
      Accounted(View())
    }

    constructor (extra: nat, up: nat)
      requires up <= extra
      ensures Valid() && View() == Init(extra, up)
    {
      target, live, pumps, tracked := extra, up, seq(up, _ => Running), Below(up);
      terminated, inflight, batch, closing := {}, false, NoBatch, false;
      InitAccounted(extra, up);
    }

    /** `maybe_redial_carriers`. */
    method MaybeRedial()
      requires Valid()
      modifies this
      ensures Valid()
      ensures Runs(old(View()), RedialSteps(old(View()))) && View() == Exec(old(View()), RedialSteps(old(View())))
      ensures !old(inflight) && !closing && live < target ==> Width(View()) == target
    {
      ghost var was := View();
      RedialRun(was);
      var want, current := target, live;
      if current >= want {
        return;
      }
      var running := inflight;
      inflight := true;
      if running || closing {
        return;
      }
      batch := Dialing(want - current);
    }

    /** `SetCarrierTarget`: raising the target tops the pool up now, lowering it only stops
        future top-ups. */
    method SetCarrierTarget(wanted: nat)
      requires Valid()
      modifies this
      ensures Valid() && live == old(live) && pumps == old(pumps) && tracked == old(tracked)
      ensures target == (if wanted == 0 then 0 else wanted - 1)
      ensures target <= old(target) ==> View() == Apply(old(View()), SetTarget(wanted))
      ensures target > old(target) ==>
        var t := Apply(old(View()), SetTarget(wanted));
        Runs(t, RedialSteps(t)) && View() == Exec(t, RedialSteps(t))
    {
      ghost var was := View();
      var extra := if wanted == 0 then 0 else wanted - 1;
      var previous := target;
      target := extra;
      assert View() == Apply(was, SetTarget(wanted));
      RedialRun(View());
      if extra > previous {
        MaybeRedial();
      }
    }

    /** The re-dial task: `dials` are the dials that would succeed, in order, up to the first failure or
        the cancellation. The flag comes down whatever happens, and a scope that closes on the way leaves
        only the carriers launched before. */
    method RunBatch(dials: seq<Dial>)
      requires Valid() && batch.Dialing?
      modifies this
      ensures Valid() && !inflight && batch.NoBatch?
      ensures var ds := if |dials| <= old(batch).left then dials else dials[..old(batch).left];
        && Runs(old(View()), WholeBatch(old(View()), ds)) && View() == Exec(old(View()), WholeBatch(old(View()), ds))
        && (!closing ==> live == old(live) + |ds|)
        && (old(closing) ==> live == old(live))
    {
      var ds := if |dials| <= batch.left then dials else dials[..batch.left];
      WholeBatchRun(View(), ds);
      OpenCarriers(ds);
      batch := NoBatch;
      inflight := false;
    }

    /** The batch's loop: dial, count, track and launch, or forget and uncount. */
    method OpenCarriers(ds: seq<Dial>)
      requires batch.Dialing? && |ds| <= batch.left && forall i :: i in tracked ==> i < |pumps|
      modifies `live, `tracked, `pumps, `batch, `closing
      ensures View() == AfterDials(old(View()), ds)
    {
      ghost var was := View();
      for k := 0 to |ds|
        invariant batch == Dialing(was.batch.left - k) && View() == AfterDials(was, ds[..k])
        invariant forall i :: i in tracked ==> i < |pumps|
      {
        assert ds[..k + 1][..k] == ds[..k];
        PlaceCarrier(ds[k]);
      }
      assert ds[..|ds|] == ds;
    }

    /** One carrier: counted, tracked, and launched unless the scope refuses it. */
    method PlaceCarrier(d: Dial)
      requires batch.Dialing? && batch.left > 0 && |pumps| !in tracked
      modifies `live, `tracked, `pumps, `batch, `closing
      ensures View() == AfterDial(old(View()), d)
      ensures tracked <= old(tracked) + {|old(pumps)|}
    {
      var id := |pumps|;
      closing := closing || d.closed;
      live := live + 1;
      tracked := tracked + {id};
      if closing {
        tracked := tracked - {id};
        live := live - 1;
        pumps := pumps + [Ended];
      } else {
        pumps := pumps + [Running];
      }
      batch := Dialing(batch.left - 1);
    }
  }
}
