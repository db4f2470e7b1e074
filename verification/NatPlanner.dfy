/** The adaptive NAT-traversal planner of src/adaptive_nat.rs. */
module NatPlanner {
  import opened Basics

  datatype MappingClass = Open | Cone | Symmetric | Blocked | Inconclusive

  datatype Kind = Reflexive | Local | RouterMapped | Predicted | RelayFallback

  datatype Mode = DirectFirst | DirectWithRetry | RelayFirst | RelayOnly

  datatype Filtering = Unknown | Eif | AddressDependent

  datatype Probe = AddressDependentOrOpen | AddressAndPortDependent

  datatype Role = Easy | Hard

  datatype Profile = Profile(
    mapping: MappingClass,
    filtering: Filtering,
    probe: Option<Probe>,
    observations: nat,
    localUdp: string,
    selectedStun: Option<string>,
    kinds: seq<Kind>,
    candidateCount: nat,
    reflexiveCount: nat,
    portPreserved: Option<bool>)

  predicate DirectFriendly(m: MappingClass) { m.Open? || m.Cone? }

  /** `port_restricted`: whether this side's filter keys on address and port, if it was measured. */
  function PortRestricted(p: Profile): Option<bool> {
    match p.probe
    case Some(AddressAndPortDependent) => Some(true)
    case Some(AddressDependentOrOpen) => Some(false)
    case None => if p.filtering.AddressDependent? then Some(true) else None
  }

  /** A probe, or lacking one the older observation, found the filter to key on address and port. */
  predicate MeasuredStrict(p: Profile) {
    p.probe == Some(AddressAndPortDependent) || (p.probe.None? && p.filtering.AddressDependent?)
  }

  /** A probe found the filter to let in an unsolicited port. */
  predicate MeasuredOpen(p: Profile) { p.probe == Some(AddressDependentOrOpen) }

  /** An unmeasured filter is neither: it is never taken for a strict one, and the probe outranks the
      older observation. */
  lemma RestrictedAsMeasured(p: Profile)
    ensures PortRestricted(p) == Some(true) <==> MeasuredStrict(p)
    ensures PortRestricted(p) == Some(false) <==> MeasuredOpen(p)
    ensures !(MeasuredStrict(p) && MeasuredOpen(p))
  {
  }

  // ----- Profiles from the wire

  datatype WireMapping = Eim | WireSymmetric | WireUnknown

  /** What a live offer carries: the observed profile and the typed candidates. */
  datatype Wire = Wire(
    mapping: WireMapping,
    filtering: Filtering,
    probe: Option<Probe>,
    observations: nat,
    portPreserved: Option<bool>,
    selectedStun: Option<string>,
    typed: seq<Kind>,
    candidateCount: nat)

  function CountKind(kinds: seq<Kind>, k: Kind): nat {
    if kinds == [] then 0 else CountKind(kinds[..|kinds| - 1], k) + (if kinds[|kinds| - 1] == k then 1 else 0)
  }

  /** `NatProfile::from_wire`. */
  function FromWire(w: Wire): Profile {
    var reflexive := CountKind(w.typed, Reflexive);
    var mapping := match w.mapping
      case Eim => Cone
      case WireSymmetric => Symmetric
      case WireUnknown =>
        if w.observations == 0 && reflexive == 0 && RouterMapped !in w.typed then Blocked else Inconclusive;
    Profile(mapping, w.filtering, w.probe, w.observations, "", w.selectedStun, w.typed,
            w.candidateCount, reflexive, w.portPreserved)
  }

  lemma {:induction false} CountKindZero(kinds: seq<Kind>, k: Kind)
    ensures CountKind(kinds, k) == 0 <==> k !in kinds
  {
    if kinds != [] {
      CountKindZero(kinds[..|kinds| - 1], k);
      assert kinds == kinds[..|kinds| - 1] + [kinds[|kinds| - 1]];
    }
  }

  /** The wire's own classification is kept; a peer is classified as blocked only when nothing at all
      speaks for it: no classified mapping, no observation, no reflexive and no router-mapped
      candidate. */
  lemma BlockedNeedsTotalSilence(w: Wire)
    ensures FromWire(w).mapping.Blocked? <==>
      w.mapping.WireUnknown? && w.observations == 0 && Reflexive !in w.typed && RouterMapped !in w.typed
    ensures FromWire(w).mapping.Symmetric? <==> w.mapping.WireSymmetric?
    ensures DirectFriendly(FromWire(w).mapping) <==> w.mapping.Eim?
    ensures FromWire(w).reflexiveCount > 0 <==> Reflexive in w.typed
    ensures var p := FromWire(w);
      && MeasuredStrict(p) == (w.probe == Some(AddressAndPortDependent)
                               || (w.probe.None? && w.filtering.AddressDependent?))
      && MeasuredOpen(p) == (w.probe == Some(AddressDependentOrOpen))
      && p.kinds == w.typed && p.candidateCount == w.candidateCount && p.localUdp == ""
      && p.selectedStun == w.selectedStun && p.portPreserved == w.portPreserved && p.observations == w.observations
  {
    CountKindZero(w.typed, Reflexive);
  }

  // ----- Mode

  /** `select_mode`, without the human sentence. */
  function SelectMode(local: Profile, peer: Profile): (Mode, string) {
    var restrictedLocal, restrictedPeer := PortRestricted(local), PortRestricted(peer);
    if local.candidateCount == 0 && peer.candidateCount == 0 then
      (RelayOnly, "no-candidates")
    else if DirectFriendly(local.mapping) && DirectFriendly(peer.mapping) then
      (DirectFirst, "both-direct-friendly")
    else if local.mapping.Blocked? || peer.mapping.Blocked? then
      (RelayFirst, "peer-blocked")
    else if local.mapping.Symmetric? || peer.mapping.Symmetric? then
      var both := local.mapping.Symmetric? && peer.mapping.Symmetric?;
      var other := if local.mapping.Symmetric? then peer else local;
      if !both && PortRestricted(other) == Some(true) then
        (RelayFirst, "peer-port-restricted")
      else if !both && PortRestricted(other) == Some(false) then
        (DirectWithRetry, "symmetric-vs-open-filter")
      else if both && (restrictedLocal == Some(true) || restrictedPeer == Some(true)) then
        (RelayFirst, "symmetric-strict-filtering")
      else if local.portPreserved == Some(true) || peer.portPreserved == Some(true)
              || local.selectedStun.Some? || peer.selectedStun.Some? then
        (DirectWithRetry, "symmetric-escape")
      else
        (RelayFirst, "symmetric-relay")
    else if local.mapping.Inconclusive? || peer.mapping.Inconclusive? then
      (DirectWithRetry, "inconclusive")
    else
      (DirectWithRetry, "default")
  }

  /** `spray_role_for`. */
  function SprayRole(local: Profile, reason: string): Option<Role> {
    if reason != "peer-port-restricted" then None
    else if local.mapping.Symmetric? then Some(Hard)
    else Some(Easy)
  }

  // ----- Candidate order

  const PRIORITY: seq<Kind> := [Local, Reflexive, RouterMapped, Predicted]

  predicate Typed(local: Profile, peer: Profile) { local.kinds != [] || peer.kinds != [] }

  /** Whether a direct kind is worth trying, in the absence of typed candidates from what the two
      sides revealed about themselves. */
  predicate Usable(local: Profile, peer: Profile, k: Kind) {
    if Typed(local, peer) then k in local.kinds || k in peer.kinds
    else match k
      case Local => local.localUdp != "" || peer.localUdp != ""
      case Reflexive => local.reflexiveCount > 0 || peer.reflexiveCount > 0
      case Predicted =>
        !DirectFriendly(local.mapping) || !DirectFriendly(peer.mapping)
        || local.portPreserved == Some(false) || peer.portPreserved == Some(false)
      case _ => false
  }

  function Chosen(local: Profile, peer: Profile, ks: seq<Kind>): seq<Kind> {
    if ks == [] then []
    else Chosen(local, peer, ks[..|ks| - 1]) + (if Usable(local, peer, ks[|ks| - 1]) then [ks[|ks| - 1]] else [])
  }

  /** The order a plan carries: the usable direct kinds by priority, the relay where the mode wants it. */
  function Order(local: Profile, peer: Profile, mode: Mode): seq<Kind> {
    match mode
    case DirectFirst => Chosen(local, peer, PRIORITY) + [RelayFallback]
    case DirectWithRetry => Chosen(local, peer, PRIORITY) + [RelayFallback]
    case RelayFirst => [RelayFallback] + Chosen(local, peer, PRIORITY)
    case RelayOnly => [RelayFallback]
  }

  function Rank(k: Kind): nat {
    match k
    case Local => 0
    case Reflexive => 1
    case RouterMapped => 2
    case Predicted => 3
    case RelayFallback => 4
  }

  predicate Distinct(ks: seq<Kind>) {
    forall i, j :: 0 <= i < j < |ks| ==> ks[i] != ks[j]
  }

  predicate Ascending(ks: seq<Kind>) {
    forall i, j :: 0 <= i < j < |ks| ==> Rank(ks[i]) < Rank(ks[j])
  }

  lemma {:induction false} ChosenMembers(local: Profile, peer: Profile, ks: seq<Kind>)
    ensures forall k :: k in Chosen(local, peer, ks) <==> k in ks && Usable(local, peer, k)
  {
    if ks != [] {
      ChosenMembers(local, peer, ks[..|ks| - 1]);
      assert ks == ks[..|ks| - 1] + [ks[|ks| - 1]];
    }
  }

  lemma {:induction false} ChosenAscends(local: Profile, peer: Profile, ks: seq<Kind>)
    requires Ascending(ks)
    ensures Ascending(Chosen(local, peer, ks))
  {
    if ks != [] {
      var front, last := ks[..|ks| - 1], ks[|ks| - 1];
      ChosenAscends(local, peer, front);
      ChosenMembers(local, peer, front);
      var c := Chosen(local, peer, front);
      forall i | 0 <= i < |c|
        ensures Rank(c[i]) < Rank(last)
      {
        assert c[i] in front;
        var j :| 0 <= j < |front| && front[j] == c[i];
        assert ks[j] == c[i];
      }
    }
  }

  lemma ChosenIs(local: Profile, peer: Profile)
    ensures var c := Chosen(local, peer, PRIORITY);
      && Ascending(c) && RelayFallback !in c
      && (forall k: Kind :: !k.RelayFallback? ==> (k in c <==> Usable(local, peer, k)))
  {
    ChosenAscends(local, peer, PRIORITY);
    ChosenMembers(local, peer, PRIORITY);
    forall k: Kind | !k.RelayFallback?
      ensures k in PRIORITY
    {
      assert PRIORITY[Rank(k)] == k;
    }
  }

  lemma AscendingIsDistinct(ks: seq<Kind>)
    requires Ascending(ks)
    ensures Distinct(ks)
  {
  }

  /** Every plan's order is duplicate-free and names the relay exactly once, last when the direct
      path leads and first when the relay does; its direct part holds exactly the usable kinds, in
      priority order. */
  lemma OrderWellFormed(local: Profile, peer: Profile, mode: Mode)
    ensures var o := Order(local, peer, mode);
      && Distinct(o)
      && (mode.DirectFirst? || mode.DirectWithRetry? ==> Ascending(o) && o[|o| - 1] == RelayFallback)
      && (mode.RelayFirst? || mode.RelayOnly? ==> o[0] == RelayFallback && Ascending(o[1..]))
      && (forall k: Kind :: !k.RelayFallback? ==> (k in o <==> !mode.RelayOnly? && Usable(local, peer, k)))
  {
    ChosenIs(local, peer);
    RelayLast(Chosen(local, peer, PRIORITY));
    RelayFirstInOrder(Chosen(local, peer, PRIORITY));
  }

  lemma RelayLast(c: seq<Kind>)
    requires Ascending(c) && RelayFallback !in c
    ensures Ascending(c + [RelayFallback]) && Distinct(c + [RelayFallback])
  {
    assert forall i :: 0 <= i < |c| ==> c[i] in c;
    AscendingIsDistinct(c + [RelayFallback]);
  }

  lemma RelayFirstInOrder(c: seq<Kind>)
    requires Ascending(c) && RelayFallback !in c
    ensures Distinct([RelayFallback] + c) && ([RelayFallback] + c)[1..] == c
  {
    assert forall i :: 0 <= i < |c| ==> c[i] in c;
    AscendingIsDistinct(c);
  }

  /** With typed candidates the direct part is exactly the union of the kinds both sides offered. */
  lemma TypedOrderIsTheUnion(local: Profile, peer: Profile, mode: Mode, k: Kind)
    requires Typed(local, peer) && !mode.RelayOnly? && !k.RelayFallback?
    ensures k in Order(local, peer, mode) <==> k in local.kinds || k in peer.kinds
  {
    OrderWellFormed(local, peer, mode);
  }

  /** Without typed candidates it is what the two sides revealed of themselves: a local address, a
      reflexive candidate, or a mapping that calls for prediction. */
  lemma UntypedOrderIsRevealed(local: Profile, peer: Profile, mode: Mode)
    requires local.kinds == [] && peer.kinds == [] && !mode.RelayOnly?
    ensures var o := Order(local, peer, mode);
      && (Local in o <==> local.localUdp != "" || peer.localUdp != "")
      && (Reflexive in o <==> local.reflexiveCount > 0 || peer.reflexiveCount > 0)
      && RouterMapped !in o
      && (Predicted in o <==> !(DirectFriendly(local.mapping) && DirectFriendly(peer.mapping)
                                && local.portPreserved != Some(false) && peer.portPreserved != Some(false)))
  {
    OrderWellFormed(local, peer, mode);
  }

  function Dedup(ks: seq<Kind>): seq<Kind> {
    if |ks| <= 1 then ks
    else if ks[|ks| - 2] == ks[|ks| - 1] then Dedup(ks[..|ks| - 1])
    else Dedup(ks[..|ks| - 1]) + [ks[|ks| - 1]]
  }

  lemma {:induction false} DedupKeepsDistinct(ks: seq<Kind>)
    requires Distinct(ks)
    ensures Dedup(ks) == ks
  {
    if |ks| > 1 {
      DedupKeepsDistinct(ks[..|ks| - 1]);
    }
  }

  /** A kind as the order lists it, if it is usable. */
  function Maybe(local: Profile, peer: Profile, k: Kind): seq<Kind> {
    if Usable(local, peer, k) then [k] else []
  }

  lemma ChosenInFull(local: Profile, peer: Profile)
    ensures Chosen(local, peer, PRIORITY) ==
      Maybe(local, peer, Local) + Maybe(local, peer, Reflexive)
      + Maybe(local, peer, RouterMapped) + Maybe(local, peer, Predicted)
  {
    var p0: seq<Kind> := [];
    var p1 := p0 + [Local];
    var p2 := p1 + [Reflexive];
    var p3 := p2 + [RouterMapped];
    ChosenSnoc(local, peer, p0, Local);
    ChosenSnoc(local, peer, p1, Reflexive);
    ChosenSnoc(local, peer, p2, RouterMapped);
    ChosenSnoc(local, peer, p3, Predicted);
    assert PRIORITY == p3 + [Predicted];
  }

  lemma ChosenSnoc(local: Profile, peer: Profile, ks: seq<Kind>, k: Kind)
    ensures Chosen(local, peer, ks + [k]) == Chosen(local, peer, ks) + Maybe(local, peer, k)
  {
  }

  /** The pushes of `candidate_order`: over the fixed priority list when kinds were reported, by
      what each side revealed otherwise. */
  method DirectKinds(local: Profile, peer: Profile) returns (direct: seq<Kind>)
    ensures direct == Chosen(local, peer, PRIORITY)
  {
    direct := [];
    if local.kinds != [] || peer.kinds != [] {
      for i := 0 to |PRIORITY|
        invariant direct == Chosen(local, peer, PRIORITY[..i])
      {
        ChosenSnoc(local, peer, PRIORITY[..i], PRIORITY[i]);
        assert PRIORITY[..i + 1] == PRIORITY[..i] + [PRIORITY[i]];
        var kind := PRIORITY[i];
        if kind in local.kinds || kind in peer.kinds {
          direct := direct + [kind];
        }
      }
      assert PRIORITY[..|PRIORITY|] == PRIORITY;
    } else {
      ChosenInFull(local, peer);
      if local.localUdp != "" || peer.localUdp != "" {
        direct := direct + [Local];
      }
      if local.reflexiveCount > 0 || peer.reflexiveCount > 0 {
        direct := direct + [Reflexive];
      }
      if local.mapping in {Symmetric, Blocked, Inconclusive} || peer.mapping in {Symmetric, Blocked, Inconclusive}
         || local.portPreserved == Some(false) || peer.portPreserved == Some(false) {
        direct := direct + [Predicted];
      }
    }
  }

  function WithoutRelay(ks: seq<Kind>): seq<Kind> {
    if ks == [] then []
    else WithoutRelay(ks[..|ks| - 1]) + (if ks[|ks| - 1].RelayFallback? then [] else [ks[|ks| - 1]])
  }

  lemma {:induction false} WithoutRelayKeeps(ks: seq<Kind>)
    requires RelayFallback !in ks
    ensures WithoutRelay(ks) == ks && WithoutRelay(ks + [RelayFallback]) == ks
  {
    assert (ks + [RelayFallback])[..|ks|] == ks;
    if ks != [] {
      WithoutRelayKeeps(ks[..|ks| - 1]);
    }
  }

  /** `candidate_order`, with its dedup and the relay placement. */
  method CandidateOrder(local: Profile, peer: Profile, mode: Mode) returns (order: seq<Kind>)
    ensures order == Order(local, peer, mode)
  {
    var direct := DirectKinds(local, peer);
    assert Distinct(direct + [RelayFallback]) && RelayFallback !in direct by {
      ChosenIs(local, peer);
    }
    DedupKeepsDistinct(direct + [RelayFallback]);
    WithoutRelayKeeps(direct);
    direct := direct + [RelayFallback];
    direct := Dedup(direct);
    match mode {
      case RelayFirst => order := [RelayFallback] + WithoutRelay(direct);
      case RelayOnly => order := [RelayFallback];
      case _ => order := direct;
    }
  }

  // ----- The plan

  datatype Plan = Plan(
    mode: Mode,
    order: seq<Kind>,
    retryBudget: nat,
    readTimeoutMs: nat,
    sendDelayMs: nat,
    reason: string,
    role: Option<Role>)

  /** `plan_for_pair`. */
  function PlanForPair(local: Profile, peer: Profile): Plan {
    var (mode, reason) := SelectMode(local, peer);
    var (retry, read, delay) := match mode
      case DirectFirst => (1, 750, 0)
      case DirectWithRetry => (2, 500, 25)
      case RelayFirst => (1, 250, 0)
      case RelayOnly => (0, 0, 0);
    Plan(mode, Order(local, peer, mode), retry, read, delay, reason, SprayRole(local, reason))
  }

  lemma {:induction false} ChosenSymmetric(local: Profile, peer: Profile, ks: seq<Kind>)
    ensures Chosen(local, peer, ks) == Chosen(peer, local, ks)
  {
    if ks != [] {
      ChosenSymmetric(local, peer, ks[..|ks| - 1]);
    }
  }

  /** Both sides compute the same plan but for their spray roles, and those are both absent or one
      of each, the symmetric side playing the hard one; they appear exactly for the cell that needs the
      escape. */
  lemma PlansAgree(local: Profile, peer: Profile)
    ensures var mine, theirs := PlanForPair(local, peer), PlanForPair(peer, local);
      && theirs == mine.(role := theirs.role)
      && (mine.role.None? <==> theirs.role.None?)
      && (mine.role.Some? <==> mine.reason == "peer-port-restricted")
      && (mine.role.Some? ==>
            if local.mapping.Symmetric? then mine.role == Some(Hard) && theirs.role == Some(Easy)
            else mine.role == Some(Easy) && theirs.role == Some(Hard))
  {
    ChosenSymmetric(local, peer, PRIORITY);
    if SelectMode(local, peer).1 == "peer-port-restricted" {
      ReasonOfRole(local, peer);
    }
  }

  /** The escape's cell has exactly one symmetric side, and the other side's filter was measured to key
      on address and port. */
  lemma ReasonOfRole(local: Profile, peer: Profile)
    requires SelectMode(local, peer).1 == "peer-port-restricted"
    ensures local.mapping.Symmetric? != peer.mapping.Symmetric?
    ensures MeasuredStrict(if local.mapping.Symmetric? then peer else local)
    ensures SelectMode(local, peer).0 == RelayFirst
  {
  }

  /** Missing or partial metadata never makes a pair relay-only: that takes two empty offers. The
      last arm of the decision is unreachable. */
  lemma RelayOnlyNeedsEmptyOffers(local: Profile, peer: Profile)
    ensures PlanForPair(local, peer).mode.RelayOnly? <==> local.candidateCount == 0 && peer.candidateCount == 0
    ensures PlanForPair(local, peer).reason != "default"
  {
  }

  predicate DirectLed(m: Mode) { m.DirectFirst? || m.DirectWithRetry? }

  /** How much a filter measurement restricts: open, unmeasured, per address and port. */
  function Strictness(p: Profile): nat {
    if MeasuredOpen(p) then 0 else if MeasuredStrict(p) then 2 else 1
  }

  /** The decision is monotone in what is known about a filter: loosening one side's measurement, or
      replacing a strict one by none, never moves a pair from the direct path to the relay. */
  lemma LooserFilterNeverHurts(strict: Profile, loose: Profile, peer: Profile)
    requires loose == strict.(filtering := loose.filtering, probe := loose.probe)
    requires Strictness(loose) <= Strictness(strict)
    ensures DirectLed(SelectMode(strict, peer).0) ==> DirectLed(SelectMode(loose, peer).0)
    ensures DirectLed(SelectMode(peer, strict).0) ==> DirectLed(SelectMode(peer, loose).0)
  {
    PlansAgree(strict, peer);
    PlansAgree(loose, peer);
  }

  /** Nothing a pair reported speaks for an escape. */
  predicate NoEscape(local: Profile, peer: Profile) {
    && local.portPreserved != Some(true) && peer.portPreserved != Some(true)
    && local.selectedStun.None? && peer.selectedStun.None?
  }

  /** A measured filter stands in a symmetric peer's way. */
  predicate FilterInTheWay(local: Profile, peer: Profile) {
    || (peer.mapping.Symmetric? && MeasuredStrict(local))
    || (local.mapping.Symmetric? && MeasuredStrict(peer))
  }

  /** The one filter that decides, facing the only symmetric side, was measured to be open. */
  predicate FilterLetsIn(local: Profile, peer: Profile) {
    || (local.mapping.Symmetric? && !peer.mapping.Symmetric? && MeasuredOpen(peer))
    || (peer.mapping.Symmetric? && !local.mapping.Symmetric? && MeasuredOpen(local))
  }

  /** Exactly when each mode leads, for pairs with a candidate. The relay leads when a side is blocked,
      when a measured filter stands in a symmetric peer's way, or when a side is symmetric, no open
      filter was measured and nothing speaks for an escape; missing metadata alone never sends a pair
      there. The direct path leads outright exactly for two direct-friendly sides. */
  lemma ModeExactly(local: Profile, peer: Profile)
    requires local.candidateCount > 0 || peer.candidateCount > 0
    ensures var mode := PlanForPair(local, peer).mode;
      && (mode.RelayFirst? <==>
            || local.mapping.Blocked? || peer.mapping.Blocked?
            || FilterInTheWay(local, peer)
            || ((local.mapping.Symmetric? || peer.mapping.Symmetric?)
                && !FilterLetsIn(local, peer) && NoEscape(local, peer)))
      && (mode.DirectFirst? <==> DirectFriendly(local.mapping) && DirectFriendly(peer.mapping))
  {
  }

  /** Where the relay leads, a side is blocked or symmetric: nothing else about a profile, or its
      absence, sends a pair there. */
  lemma RelayNeedsAReason(local: Profile, peer: Profile)
    requires SelectMode(local, peer).0.RelayFirst?
    ensures local.mapping.Blocked? || peer.mapping.Blocked? || local.mapping.Symmetric? || peer.mapping.Symmetric?
  {
  }

  /** The budgets each mode gets: attempts, milliseconds to wait for an answer, milliseconds between
      packets. */
  lemma BudgetsOfModes(local: Profile, peer: Profile)
    ensures var plan := PlanForPair(local, peer);
      (plan.retryBudget, plan.readTimeoutMs, plan.sendDelayMs) ==
        if plan.mode.RelayOnly? then (0, 0, 0)
        else if plan.mode.RelayFirst? then (1, 250, 0)
        else if plan.mode.DirectWithRetry? then (2, 500, 25)
        else (1, 750, 0)
  {
  }
}
