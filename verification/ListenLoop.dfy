/** The listen loop's direct-carrier arms as the imperative code they are, each tied to the
    steps of `DirectPool` it takes when no task runs in between. */
module ListenLoop {
  import opened DirectPool

  /** The drain loop of the `up` arm over `n` queued renewals. */
  function DrainSteps(n: nat): seq<Step> {
    if n == 0 then [DrainEnd] else [DrainOne] + DrainSteps(n - 1)
  }

  /** The whole `up` arm, uninterrupted. */
  function UpSteps(s: State): seq<Step> {
    [UpArm] + (if StandsDown(s.live, s.target) then DrainSteps(s.renewQueue) else [])
  }

  /** What the `up` arm leaves behind: a whole pool cancels every pending renewal, a short one
      keeps them all. */
  function AfterUp(s: State): State
    requires s.upQueue > 0
  {
    var t := s.(upQueue := s.upQueue - 1);
    if StandsDown(s.live, s.target) then t.(sleeping := false, renewQueue := 0) else t
  }

  lemma {:induction false} DrainRun(s: State, n: nat)
    requires s.loop.Draining? && s.renewQueue == n
    ensures Runs(s, DrainSteps(n))
    ensures Exec(s, DrainSteps(n)) == s.(renewQueue := 0, loop := Idle)
    decreases n
  {
    if n == 0 {
      RunsCons(s, DrainEnd, []);
      assert DrainSteps(0) == [DrainEnd] + [];
    } else {
      DrainRun(Apply(s, DrainOne), n - 1);
      RunsCons(s, DrainOne, DrainSteps(n - 1));
    }
  }

  lemma UpRun(s: State)
    requires s.loop.Idle? && s.upQueue > 0
    ensures Runs(s, UpSteps(s)) && Exec(s, UpSteps(s)) == AfterUp(s)
  {
    var t := Apply(s, UpArm);
    if StandsDown(s.live, s.target) {
      DrainRun(t, s.renewQueue);
      RunsCons(s, UpArm, DrainSteps(s.renewQueue));
    } else {
      RunsCons(s, UpArm, []);
    }
  }

  /** The whole offer arm, uninterrupted. */
  function OfferSteps(s: State, resolved: bool): seq<Step> {
    if resolved then OfferArm(s) else [TakeOffer(false)] + []
  }

  /** What the offer arm leaves behind: a failed resolution is a queued renewal, a good one a pool
      at its target with every missing carrier dialing, or, once the scope is closing and refuses
      every spawn, a pool as it was. */
  function AfterOffer(s: State, resolved: bool): State
    requires s.offers > 0 && s.live <= s.target
  {
    var t := s.(offers := s.offers - 1);
    if !resolved then t.(renewQueue := s.renewQueue + 1)
    else if s.closing then t
    else t.(live := s.target, carriers := s.carriers + Fresh(s.target - s.live))
  }

  /** Every slot reserved for a refused spawn is given back at once. */
  lemma {:induction false} RefusedRun(s: State, n: nat)
    requires s.closing && s.loop == Opening(n)
    ensures Runs(s, OpenSteps(n)) && Exec(s, OpenSteps(n)) == s.(loop := Idle)
    decreases n
  {
    if n > 0 {
      RefusedRun(s.(loop := Opening(n - 1)), n - 1);
      assert OpenSteps(n)[1..] == [Submit] + OpenSteps(n - 1);
      assert OpenSteps(n)[1..][1..] == OpenSteps(n - 1);
    }
  }

  lemma RefusedOfferRun(s: State)
    requires s.closing && s.loop.Idle? && s.offers > 0 && s.live <= s.target
    ensures Runs(s, OfferArm(s)) && Exec(s, OfferArm(s)) == s.(offers := s.offers - 1)
  {
    RefusedRun(Apply(s, TakeOffer(true)), s.target - s.live);
    assert OfferArm(s)[1..] == OpenSteps(s.target - s.live);
  }

  lemma OfferRun(s: State, resolved: bool)
    requires Accounted(s) && s.loop.Idle? && s.offers > 0
    ensures Runs(s, OfferSteps(s, resolved)) && Exec(s, OfferSteps(s, resolved)) == AfterOffer(s, resolved)
  {
    if !resolved {
      RunsCons(s, TakeOffer(false), []);
    } else if s.closing {
      RefusedOfferRun(s);
    } else {
      OfferArmRun(s);
    }
  }

  lemma OfferAccounted(s: State, resolved: bool)
    requires Accounted(s) && s.loop.Idle? && s.offers > 0
    ensures Accounted(AfterOffer(s, resolved))
  {
    OfferRun(s, resolved);
    AccountedRun(s, OfferSteps(s, resolved));
  }

  /** The variables of `Client::listen` and of its carrier tasks that the pool depends on. */
  class Listener {
    const target: nat
    var live: int
    var carriers: seq<Carrier>
    var renewQueue: nat
    var upQueue: nat
    var sleeping: bool
    var requests: nat
    var offers: nat
    var offered: bool
    var closing: bool

    ghost function View(): State
      reads this
    {
      State(target, live, carriers, renewQueue, upQueue, sleeping, requests, offers, Idle, offered, closing)
    }

    ghost predicate Valid()
      reads this
    {
      Accounted(View())
    }

    constructor (carriers: nat)
      ensures Valid() && View() == Init(if carriers == 0 then 1 else carriers)
    {
      target := if carriers == 0 then 1 else carriers;
      live, this.carriers, renewQueue, upQueue := 0, [], 0, 0;
      sleeping, requests, offers, offered, closing := false, 0, 0, false, false;
    }

    /** The offer arm. A failed resolution asks for another renewal; otherwise the shortfall is
        opened, one reserved slot at a time. */
    method OnOffer(resolved: bool)
      requires Valid() && offers > 0
      modifies this
      ensures Valid() && View() == AfterOffer(old(View()), resolved)
    {
      OfferAccounted(View(), resolved);
      offers := offers - 1;
      if !resolved {
        renewQueue := renewQueue + 1;
      } else {
        OpenShortfall();
      }
    }

    /** The loop of the offer arm: reserve a slot, then spawn the carrier that holds it, or give the
        slot back if the scope refuses the spawn. */
    method OpenShortfall()
      requires live <= target
      modifies `live, `carriers
      ensures closing ==> live == old(live) && carriers == old(carriers)
      ensures !closing ==> live == target && carriers == old(carriers) + Fresh(target - old(live))
    {
      var need := if live < target then target - live else 0;
      for k := 0 to need
        invariant closing ==> live == old(live) && carriers == old(carriers)
        invariant !closing ==> live == old(live) + k && carriers == old(carriers) + Fresh(k)
      {
        live := live + 1;
        if closing {
          live := live - 1;
        } else {
          carriers := carriers + [Dialing];
          assert old(carriers) + Fresh(k) + [Dialing] == old(carriers) + Fresh(k + 1);
        }
      }
    }

    /** The renew arm: schedule one sleep, however many renewals are queued. */
    method OnRenew()
      requires Valid() && renewQueue > 0
      modifies this
      ensures Valid() && View() == Apply(old(View()), RenewArm)
    {
      renewQueue := renewQueue - 1;
      if !sleeping {
        sleeping := true;
      }
    }

    /** The sleep arm: the backoff is over, ask the server for an offer. */
    method OnSleep()
      requires Valid() && sleeping
      modifies this
      ensures Valid() && View() == Apply(old(View()), SleepFires)
    {
      sleeping := false;
      requests := requests + 1;
    }

    /** The `up` arm. */
    method OnUp()
      requires Valid() && upQueue > 0
      modifies this
      ensures Valid()
      ensures Runs(old(View()), UpSteps(old(View()))) && View() == Exec(old(View()), UpSteps(old(View())))
      ensures old(offered) && !old(closing) && old(Covered(View())) ==> Covered(View())
    {
      ghost var was := View();
      UpRun(was);
      upQueue := upQueue - 1;
      if StandsDown(live, target) {
        sleeping := false;
        while renewQueue > 0
          invariant View() == was.(upQueue := was.upQueue - 1, sleeping := false, renewQueue := renewQueue)
        {
          renewQueue := renewQueue - 1;
        }
      }
    }

    /** The `release` closure run to its end by carrier `i`, on every one of its exit paths. */
    method Release(i: nat)
      requires Valid() && i < |carriers| && (carriers[i].Dialing? || carriers[i].Serving?)
      modifies this
      ensures Valid() && live == old(live) - 1 && renewQueue == old(renewQueue) + 1
      ensures carriers == old(carriers)[i := Gone]
      ensures old(offered) && !old(closing) ==> Covered(View())
      ensures View() == Apply(Apply(old(View()), if old(carriers[i]).Dialing? then Fail(i) else Close(i)), Signal(i))
    {
      ghost var was := View();
      ghost var step := if carriers[i].Dialing? then Fail(i) else Close(i);
      Tallies(was, step);
      Tallies(Apply(was, step), Signal(i));
      live := live - 1;
      carriers := carriers[i := Unsignalled];
      renewQueue := renewQueue + 1;
      carriers := carriers[i := Gone];
    }
  }
}
