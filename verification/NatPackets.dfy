/** Two peers punching through their NATs, packet by packet, after sections 4.1 (mapping) and 5
    (filtering) of RFC 4787.

    Each peer sends from one socket behind one NAT with one public address, so a remote endpoint
    is named by its port. */
module NatPackets {

  datatype Filter = EndpointIndependent | AddressDependent | AddressAndPortDependent

  /** `symmetric` draws an external port per destination, otherwise the mapping is
      endpoint-independent. `perMapping` keys the filter of a symmetric NAT on the one destination
      of the mapping a packet arrives at, which is stricter than the RFC's per-socket wording. */
  datatype Nat = Nat(symmetric: bool, filter: Filter, perMapping: bool)

  /** One peer: the external port the STUN server saw, the ports of the other peer it was offered,
      its per-destination mappings, and the other peer's ports it has written to or heard from. */
  datatype Peer = Peer(
    nat_: Nat,
    stable: nat,
    offered: set<nat>,
    mappings: map<nat, nat>,
    written: set<nat>,
    heard: set<nat>)

  datatype Side = A | B

  datatype State = State(a: Peer, b: Peer)

  /** `from` writes to the other peer's external port `to`; `draw` is the port its NAT would pick if
      this destination needs a new mapping. */
  datatype Send = Send(from: Side, to: nat, draw: nat)

  function Of(s: State, side: Side): Peer { if side.A? then s.a else s.b }

  function Other(side: Side): Side { if side.A? then B else A }

  function With(s: State, side: Side, p: Peer): State {
    if side.A? then s.(a := p) else s.(b := p)
  }

  /** Two peers that have exchanged offers and nothing else. */
  predicate Fresh(s: State) {
    && s.a.mappings == map[] == s.b.mappings
    && s.a.written == {} == s.b.written && s.a.heard == {} == s.b.heard
  }

  /** The source port of a packet from `p` to the remote port `to`. */
  function Source(p: Peer, to: nat, draw: nat): nat {
    if !p.nat_.symmetric then p.stable
    else if to in p.mappings then p.mappings[to]
    else draw
  }

  /** The remote ports the filter in front of the external port `dest` has seen written to. */
  function Opened(p: Peer, dest: nat): set<nat> {
    if p.nat_.symmetric && p.nat_.perMapping
    then set d | d in p.mappings && p.mappings[d] == dest && d in p.written
    else p.written
  }

  predicate Admits(p: Peer, dest: nat, source: nat) {
    && (dest == p.stable || dest in p.mappings.Values)
    && match p.nat_.filter
       case EndpointIndependent => true
       case AddressDependent => Opened(p, dest) != {}
       case AddressAndPortDependent => source in Opened(p, dest)
  }

  /** A peer writes only to ports it was offered or has heard from, and a new mapping gets a port
      that is in use nowhere and that the other peer was not offered and has not written to. */
  predicate Enabled(s: State, m: Send) {
    var p, q := Of(s, m.from), Of(s, Other(m.from));
    && (m.to in p.offered || m.to in p.heard)
    && (p.nat_.symmetric && m.to !in p.mappings ==>
          m.draw != p.stable && m.draw !in p.mappings.Values
          && m.draw !in q.offered && m.draw !in q.written)
  }

  function Apply(s: State, m: Send): State
    requires Enabled(s, m)
  {
    var p, q := Of(s, m.from), Of(s, Other(m.from));
    var source := Source(p, m.to, m.draw);
    var p' := p.(written := p.written + {m.to},
                 mappings := if p.nat_.symmetric then p.mappings[m.to := source] else p.mappings);
    var q' := if Admits(q, m.to, source) then q.(heard := q.heard + {source}) else q;
    With(With(s, m.from, p'), Other(m.from), q')
  }

  predicate Runs(s: State, sends: seq<Send>)
    decreases |sends|
  {
    sends == [] || (Enabled(s, sends[0]) && Runs(Apply(s, sends[0]), sends[1..]))
  }

  function Exec(s: State, sends: seq<Send>): State
    requires Runs(s, sends)
    decreases |sends|
  {
    if sends == [] then s else Exec(Apply(s, sends[0]), sends[1..])
  }

  lemma RunsCons(s: State, m: Send, rest: seq<Send>)
    requires Enabled(s, m) && Runs(Apply(s, m), rest)
    ensures Runs(s, [m] + rest) && Exec(s, [m] + rest) == Exec(Apply(s, m), rest)
  {
  }

  /** Both peers have heard each other. */
  predicate TwoWay(s: State) { s.a.heard != {} && s.b.heard != {} }

  /** A run of `sends` after which both peers have heard each other. */
  predicate Exchange(s: State, sends: seq<Send>) { Runs(s, sends) && TwoWay(Exec(s, sends)) }

  ghost predicate CanExchange(s: State) { exists sends :: Exchange(s, sends) }

  // ----- What a port filter blocks

  /** `deaf` filters per address and port and faces a peer whose every packet leaves from a port it
      drew afresh. */
  predicate Blocked(s: State, deaf: Side) {
    Of(s, Other(deaf)).nat_.symmetric && Of(s, deaf).nat_.filter.AddressAndPortDependent?
  }

  predicate StillDeaf(s: State, deaf: Side) {
    var p, q := Of(s, deaf), Of(s, Other(deaf));
    && Blocked(s, deaf) && p.heard == {} && p.written <= p.offered
    && forall d :: d in q.mappings ==> q.mappings[d] !in p.offered
  }

  lemma {:induction false} DeafRun(s: State, sends: seq<Send>, deaf: Side)
    requires StillDeaf(s, deaf) && Runs(s, sends)
    ensures StillDeaf(Exec(s, sends), deaf)
    decreases |sends|
  {
    if sends != [] {
      DeafStep(s, sends[0], deaf);
      DeafRun(Apply(s, sends[0]), sends[1..], deaf);
    }
  }

  lemma DeafStep(s: State, m: Send, deaf: Side)
    requires StillDeaf(s, deaf) && Enabled(s, m)
    ensures StillDeaf(Apply(s, m), deaf)
  {
  }

  /** In every run the filter admits no packet from the symmetric side, whatever the symmetric side's
      own filter, and whatever the mapping behind the port filter. */
  lemma PortFilterNeverHears(s: State, sends: seq<Send>, deaf: Side)
    requires Fresh(s) && Blocked(s, deaf) && Runs(s, sends)
    ensures Of(Exec(s, sends), deaf).heard == {}
  {
    DeafRun(s, sends, deaf);
  }

  // ----- What still punches

  /** Each peer was offered the port STUN saw of the other. */
  predicate Offered(s: State) { s.b.stable in s.a.offered && s.a.stable in s.b.offered }

  lemma {:induction false} Unused(ports: set<nat>) returns (p: nat)
    ensures p !in ports && forall x :: x in ports ==> x < p
  {
    if ports == {} {
      p := 0;
    } else {
      var x :| x in ports;
      var q := Unused(ports - {x});
      p := if x < q then q else x + 1;
      forall y | y in ports
        ensures y < p
      {
        assert y == x || y in ports - {x};
      }
    }
  }

  /** The punching schedule: `a` opens its own filter and mapping, `b` opens its filter, `a` is
      heard, and `b` answers the port it heard. */
  function Schedule(s: State, drawA: nat, drawB: nat, drawB': nat): seq<Send> {
    var reply := Source(s.a, s.b.stable, drawA);
    [Send(A, s.b.stable, drawA)] + ([Send(B, s.a.stable, drawB)] +
    ([Send(A, s.b.stable, drawA)] + ([Send(B, reply, drawB')] + [])))
  }

  /** The filter lets a packet in at the port STUN saw, once the peer has written at all: always, but
      for a symmetric NAT whose filter is keyed per mapping, where no mapping ever has that port. */
  predicate HearsAtStable(p: Peer) {
    !(p.nat_.symmetric && p.nat_.perMapping) || p.nat_.filter.EndpointIndependent?
  }

  /** The pairs the schedule works for, from `a`'s side: neither port filter faces a symmetric peer,
      and `b` can be heard first. */
  predicate Punchable(s: State) { !Blocked(s, A) && !Blocked(s, B) && HearsAtStable(s.b) }

  lemma ScheduleRuns(s: State, drawA: nat, drawB: nat, drawB': nat)
    requires Fresh(s) && Offered(s) && Punchable(s)
    requires s.a.stable < drawA && (forall x :: x in s.b.offered ==> x < drawA)
    requires s.b.stable < drawB < drawB' && (forall x :: x in s.a.offered ==> x < drawB)
    ensures Runs(s, Schedule(s, drawA, drawB, drawB')) && TwoWay(Exec(s, Schedule(s, drawA, drawB, drawB')))
  {
    var m1, m2 := Send(A, s.b.stable, drawA), Send(B, s.a.stable, drawB);
    var reply := Source(s.a, s.b.stable, drawA);
    var m4 := Send(B, reply, drawB');
    var s1 := Apply(s, m1);
    var s2 := Apply(s1, m2);
    FirstIsHeard(s, drawA, drawB);
    var s3 := Apply(s2, m1);
    var s4 := Apply(s3, m4);
    assert s.b.stable in Opened(s3.a, reply);
    RunsCons(s3, m4, []);
    RunsCons(s2, m1, [m4] + []);
    RunsCons(s1, m2, [m1] + ([m4] + []));
    RunsCons(s, m1, [m2] + ([m1] + ([m4] + [])));
  }

  /** After both peers have written once, `a`'s next packet is heard. */
  lemma FirstIsHeard(s: State, drawA: nat, drawB: nat)
    requires Fresh(s) && Offered(s) && Punchable(s)
    requires s.a.stable < drawA && (forall x :: x in s.b.offered ==> x < drawA)
    requires s.b.stable < drawB && (forall x :: x in s.a.offered ==> x < drawB)
    ensures var m1, m2 := Send(A, s.b.stable, drawA), Send(B, s.a.stable, drawB);
      && Enabled(s, m1) && Enabled(Apply(s, m1), m2) && Enabled(Apply(Apply(s, m1), m2), m1)
      && Source(s.a, s.b.stable, drawA) in Apply(Apply(Apply(s, m1), m2), m1).b.heard
  {
  }

  function Swap(s: State): State { State(s.b, s.a) }

  function SwapSends(sends: seq<Send>): seq<Send> {
    if sends == [] then []
    else [sends[0].(from := Other(sends[0].from))] + SwapSends(sends[1..])
  }

  lemma {:induction false} SwapRun(s: State, sends: seq<Send>)
    requires Runs(s, sends)
    ensures Runs(Swap(s), SwapSends(sends)) && Exec(Swap(s), SwapSends(sends)) == Swap(Exec(s, sends))
    decreases |sends|
  {
    if sends != [] {
      var m := sends[0].(from := Other(sends[0].from));
      SwapRun(Apply(s, sends[0]), sends[1..]);
      assert Apply(Swap(s), m) == Swap(Apply(s, sends[0]));
      RunsCons(Swap(s), m, SwapSends(sends[1..]));
    }
  }

  lemma ScheduleFrom(s: State) returns (sends: seq<Send>)
    requires Fresh(s) && Offered(s) && Punchable(s)
    ensures Runs(s, sends) && TwoWay(Exec(s, sends))
  {
    var drawA := Unused(s.b.offered + {s.a.stable});
    var drawB := Unused(s.a.offered + {s.b.stable});
    ScheduleRuns(s, drawA, drawB, drawB + 1);
    sends := Schedule(s, drawA, drawB, drawB + 1);
  }

  // ----- What nobody can start

  /** Neither peer can be heard at the only port the other knows. */
  predicate Mute(s: State) { !HearsAtStable(s.a) && !HearsAtStable(s.b) }

  /** Nobody has heard anything, so everybody writes to offered ports, and no mapping is one. */
  predicate Closed(p: Peer, q: Peer) {
    && p.heard == {}
    && forall d :: d in p.mappings ==> p.mappings[d] != p.stable && p.mappings[d] !in q.offered
  }

  lemma NotAdmitted(p: Peer, dest: nat, source: nat)
    requires !HearsAtStable(p) && (forall d :: d in p.mappings ==> p.mappings[d] != p.stable && p.mappings[d] != dest)
    ensures !Admits(p, dest, source)
  {
    if dest == p.stable {
      assert Opened(p, dest) == {};
    }
  }

  lemma MuteStep(s: State, m: Send)
    requires Mute(s) && Closed(s.a, s.b) && Closed(s.b, s.a) && Enabled(s, m)
    ensures Mute(Apply(s, m)) && Closed(Apply(s, m).a, Apply(s, m).b) && Closed(Apply(s, m).b, Apply(s, m).a)
  {
    var p, q := Of(s, m.from), Of(s, Other(m.from));
    NotAdmitted(q, m.to, Source(p, m.to, m.draw));
  }

  lemma {:induction false} MuteRun(s: State, sends: seq<Send>)
    requires Mute(s) && Closed(s.a, s.b) && Closed(s.b, s.a) && Runs(s, sends)
    ensures Exec(s, sends).a.heard == {} && Exec(s, sends).b.heard == {}
    decreases |sends|
  {
    if sends != [] {
      MuteStep(s, sends[0]);
      MuteRun(Apply(s, sends[0]), sends[1..]);
    }
  }

  /** Exactly which pairs can be punched, for every pair of NATs: two peers that exchanged offers have
      a run in which each hears the other if and only if no address-and-port filter faces a symmetric
      NAT and one of them can be heard at the port STUN saw. */
  lemma PunchableExactly(s: State)
    requires Fresh(s) && Offered(s)
    ensures CanExchange(s) <==>
      !Blocked(s, A) && !Blocked(s, B) && (HearsAtStable(s.a) || HearsAtStable(s.b))
  {
    if Blocked(s, A) || Blocked(s, B) {
      var deaf := if Blocked(s, A) then A else B;
      forall sends | Runs(s, sends)
        ensures !Exchange(s, sends)
      {
        PortFilterNeverHears(s, sends, deaf);
      }
    } else if Mute(s) {
      forall sends | Runs(s, sends)
        ensures !Exchange(s, sends)
      {
        MuteRun(s, sends);
      }
    } else if Punchable(s) {
      var sends := ScheduleFrom(s);
      assert Exchange(s, sends);
    } else {
      var sends := ScheduleFrom(Swap(s));
      SwapRun(Swap(s), sends);
      assert Swap(Swap(s)) == s;
      assert Exchange(s, SwapSends(sends));
    }
  }
}
