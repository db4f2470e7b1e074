/** The planner's verdicts, held against the packet model. */
module NatSoundness {
  import P = NatPlanner
  import N = NatPackets

  /** `p` is a truthful, classified profile of the NAT `n`: what was measured of its filter is so, and
      it may not have been measured. */
  predicate Describes(p: P.Profile, n: N.Nat) {
    && (p.mapping.Symmetric? || P.DirectFriendly(p.mapping))
    && (p.mapping.Symmetric? <==> n.symmetric)
    && (P.MeasuredStrict(p) ==> n.filter.AddressAndPortDependent?)
    && (P.MeasuredOpen(p) ==> !n.filter.AddressAndPortDependent?)
  }

  /** Two peers with truthful profiles that exchanged offers, each naming the port STUN saw. */
  predicate Setting(local: P.Profile, peer: P.Profile, s: N.State) {
    && Describes(local, s.a.nat_) && Describes(peer, s.b.nat_)
    && N.Fresh(s) && N.Offered(s)
    && !(local.candidateCount == 0 && peer.candidateCount == 0)
  }

  /** The reasons that rest on a filtering argument. */
  predicate SaysUnreachable(reason: string) {
    reason == "peer-port-restricted" || reason == "symmetric-strict-filtering"
  }

  predicate SaysReachable(reason: string) {
    reason == "both-direct-friendly" || reason == "symmetric-vs-open-filter"
  }

  /** Every verdict that rests on mapping and filtering is right: where the planner says a
      measured filter cannot be passed no run ever gets both peers to hear each other, and where it
      says the pair is direct-friendly or the filter open enough there is a run that does. */
  lemma VerdictsAreSound(local: P.Profile, peer: P.Profile, s: N.State)
    requires Setting(local, peer, s)
    ensures SaysUnreachable(P.PlanForPair(local, peer).reason) ==> !N.CanExchange(s)
    ensures SaysReachable(P.PlanForPair(local, peer).reason) ==> N.CanExchange(s)
  {
    N.PunchableExactly(s);
  }

  predicate Measured(p: P.Profile) { P.MeasuredStrict(p) || P.MeasuredOpen(p) }

  /** With exactly one symmetric side and the other side's filter measured, the mode is exact: the
      relay leads if and only if the pair cannot be punched, and the symmetric side's own filter,
      measured or not, plays no part. */
  lemma OneSymmetricSideIsExact(local: P.Profile, peer: P.Profile, s: N.State)
    requires Setting(local, peer, s) && local.mapping.Symmetric? != peer.mapping.Symmetric?
    requires Measured(if local.mapping.Symmetric? then peer else local)
    ensures P.PlanForPair(local, peer).mode.RelayFirst? <==> !N.CanExchange(s)
    ensures P.PlanForPair(local, peer).mode.DirectWithRetry? <==> N.CanExchange(s)
  {
    N.PunchableExactly(s);
  }

  /** No measured filter decides a pair with a symmetric side. */
  predicate FilterUndecided(local: P.Profile, peer: P.Profile) {
    if local.mapping.Symmetric? && peer.mapping.Symmetric?
    then !P.MeasuredStrict(local) && !P.MeasuredStrict(peer)
    else !Measured(if local.mapping.Symmetric? then peer else local)
  }

  /** Where the relay leads although the pair could be punched, exactly: a side is symmetric, no
      measured filter decides, neither side reported an escape, and in fact no port filter faces a
      symmetric NAT and one side can be heard at the port STUN saw. */
  lemma NeedlessRelayExactly(local: P.Profile, peer: P.Profile, s: N.State)
    requires Setting(local, peer, s)
    ensures P.PlanForPair(local, peer).mode.RelayFirst? && N.CanExchange(s) <==>
      && (local.mapping.Symmetric? || peer.mapping.Symmetric?)
      && FilterUndecided(local, peer) && P.NoEscape(local, peer)
      && !N.Blocked(s, N.A) && !N.Blocked(s, N.B) && (N.HearsAtStable(s.a) || N.HearsAtStable(s.b))
  {
    N.PunchableExactly(s);
  }
}
