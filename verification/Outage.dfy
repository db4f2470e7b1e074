/** What the shipped liveness constants buy: names are released before the client redials, and a
    flick of the path that TCP recovers from disconnects nothing. */
module Outage {
  import opened Basics
  import opened Liveness
  import Backoff

  /** The first delay of the default reconnect backoff (1 s doubling up to 8 s). */
  const RECONNECT_BACKOFF: nat := Backoff.New(1, 8).next * 1_000

  /** The server's deadline for a client that declares the interval `beat`. */
  function ServerDeadline(beat: nat): nat {
    TransportReapDeadline(DeclaredMsFor(beat * NANOS_PER_MS), TRANSPORT_REAP_FLOOR).value
  }

  /** The server's deadline for the shipped heartbeat. */
  const SERVER_DEADLINE: nat := ServerDeadline(CTRL_CLIENT_HEARTBEAT)

  const SERVER_TICK: real := SERVER_HEARTBEAT as real

  const CLIENT_TICK: real := LivenessTick(CLIENT_SILENCE_DEADLINE)

  lemma ShippedDeadlinesAgree()
    ensures SERVER_DEADLINE == CLIENT_SILENCE_DEADLINE == 15_000
    ensures SERVER_TICK == 500.0 && CLIENT_TICK == 1_000.0 && CTRL_CLIENT_HEARTBEAT == 2_000
  {
  }

  // ----- Histories

  lemma {:induction false} RunConcat(w: Watch, a: seq<Event>, b: seq<Event>, deadline: nat)
    ensures Run(w, a + b, deadline) == Run(Run(w, a, deadline), b, deadline)
    decreases |a|
  {
    if a == [] {
      assert a + b == b;
    } else {
      assert (a + b)[1..] == a[1..] + b;
      RunConcat(Observe(w, a[0], deadline), a[1..], b, deadline);
    }
  }

  lemma {:induction false} OrderedConcat(a: seq<Event>, b: seq<Event>, from: real, mid: real)
    requires Ordered(a, from) && Ordered(b, mid) && from <= mid
    requires forall i :: 0 <= i < |a| ==> a[i].at <= mid
    ensures Ordered(a + b, from)
    decreases |a|
  {
    if a == [] {
      assert a + b == b;
    } else {
      assert (a + b)[1..] == a[1..] + b;
      OrderedConcat(a[1..], b, a[0].at, mid);
    }
  }

  /** The checks of a ticker, `n` of them from `phase` on. */
  function Checks(phase: real, period: real, n: nat): seq<Event> {
    seq(n, (k: nat) => Tick(GridTick(phase, period, k)))
  }

  lemma {:induction false} GridAt(phase: real, period: real, k: nat)
    ensures GridTick(phase, period, k) == phase + k as real * period
  {
    if k > 0 {
      GridAt(phase, period, k - 1);
      Distribute(k as real, period);
    }
  }

  lemma {:induction false} ChecksOrdered(phase: real, period: real, n: nat, from: real)
    requires from <= phase && period > 0.0
    ensures Ordered(Checks(phase, period, n), from)
    decreases n
  {
    if n > 0 {
      ChecksOrdered(phase + period, period, n - 1, phase);
      forall k | 0 <= k < n - 1
        ensures Checks(phase, period, n)[1..][k] == Checks(phase + period, period, n - 1)[k]
      {
        GridShift(phase, period, k);
      }
      assert Checks(phase, period, n)[1..] == Checks(phase + period, period, n - 1);
    }
  }

  lemma {:induction false} EarlyTicksKeep(w: Watch, events: seq<Event>, deadline: nat)
    requires !w.terminated
    requires forall i :: 0 <= i < |events| ==> events[i].Tick? && Idle(w, events[i].at) < deadline as real
    ensures Run(w, events, deadline) == w
    decreases |events|
  {
    if events != [] {
      EarlyTicksKeep(w, events[1..], deadline);
    }
  }

  // ----- Names are free before the redial

  /** A path that is cut for good at `cut`: what was sent before arrives after the one-way latency
      `up` (client to server) or `down`, what is sent later never does.

      `client` is what the client's watch sees until its check number `checks`, at `trip`, ends it.
      `server` is what the server's watch sees by the instant `claim` at which the redialled
      connection's hello arrives: after the backoff, a TCP handshake and the hello itself. */
  datatype Cut = Cut(
    cut: real, up: real, down: real,
    clientBase: real, client: seq<Event>, clientPhase: real, checks: nat, trip: real,
    serverBase: real, server: seq<Event>, serverPhase: real, claim: real)

  /** The client hears nothing sent after the cut, checks on its own ticks, and gives up at the check
      `trip`. */
  ghost predicate ClientGivesUp(c: Cut) {
    && Ordered(c.client, c.clientBase)
    && (forall i :: 0 <= i < |c.client| && c.client[i].Bytes? ==> c.client[i].at < c.cut + c.down)
    && (forall i :: 0 <= i < |c.client| ==> c.client[i].at <= c.trip)
    && c.trip == GridTick(c.clientPhase, CLIENT_TICK, c.checks)
    && (forall k: nat :: k < c.checks ==> Tick(GridTick(c.clientPhase, CLIENT_TICK, k)) in c.client)
    && (var w := Run(Start(c.clientBase), c.client, CLIENT_SILENCE_DEADLINE);
        !w.terminated && Observe(w, Tick(c.trip), CLIENT_SILENCE_DEADLINE).terminated)
  }

  /** The server hears nothing sent after the cut, and checks on every tick of its loop. */
  ghost predicate ServerWatches(c: Cut) {
    && c.serverBase <= c.serverPhase < c.cut && Ordered(c.server, c.serverBase)
    && (forall i :: 0 <= i < |c.server| && c.server[i].Bytes? ==> c.server[i].at < c.cut + c.up)
    && (forall i :: 0 <= i < |c.server| ==> c.server[i].at <= c.claim)
    && ServesGrid(c.server, c.serverPhase, SERVER_TICK, c.claim)
  }

  /** The same tick sends the beat: every one before the cut reaches the client. */
  ghost predicate BeatsArrive(c: Cut) {
    forall k: nat :: GridTick(c.serverPhase, SERVER_TICK, k) < c.cut
      ==> Bytes(GridTick(c.serverPhase, SERVER_TICK, k) + c.down) in c.client
  }

  ghost predicate Happens(c: Cut) {
    && c.up >= 0.0 && c.down >= 0.0
    && ClientGivesUp(c) && ServerWatches(c) && BeatsArrive(c)
    && c.claim >= c.trip + RECONNECT_BACKOFF as real + c.up + c.down + c.up
  }

  /** The server has reaped the dead connection, and so released its name, when the hello arrives. */
  ghost predicate NameIsFree(c: Cut) { Run(Start(c.serverBase), c.server, SERVER_DEADLINE).terminated }

  lemma StampForward(w: Watch, e: Event, from: real, deadline: nat)
    requires w.base + w.lastMs as real <= from <= e.at
    ensures var v := Observe(w, e, deadline);
      && v.base == w.base && v.lastMs >= w.lastMs && v.base + v.lastMs as real <= e.at
      && (e.Bytes? && !v.terminated ==> v.base + v.lastMs as real > e.at - 1.0)
  {
  }

  /** Stamps only move forward along an ordered history. */
  lemma {:induction false} StampKeeps(w: Watch, events: seq<Event>, from: real, heard: real, deadline: nat)
    requires Ordered(events, from) && w.base + w.lastMs as real <= from
    requires Bytes(heard) in events || w.base + w.lastMs as real > heard - 1.0
    ensures var e := Run(w, events, deadline);
      e.base == w.base && (e.terminated || e.base + e.lastMs as real > heard - 1.0)
    decreases |events|
  {
    if events != [] {
      var v := Observe(w, events[0], deadline);
      StampForward(w, events[0], from, deadline);
      if v.terminated {
        TerminatedForGood(v, events[1..], deadline);
        BaseKept(v, events[1..], deadline);
      } else {
        StampKeeps(v, events[1..], events[0].at, heard, deadline);
      }
    }
  }

  lemma {:induction false} BaseKept(w: Watch, events: seq<Event>, deadline: nat)
    ensures Run(w, events, deadline).base == w.base
    decreases |events|
  {
    if events != [] {
      BaseKept(Observe(w, events[0], deadline), events[1..], deadline);
    }
  }

  /** The last beat before the cut, and how long after it the hello can arrive at the earliest. */
  lemma LastBeat(c: Cut) returns (k: nat)
    requires Happens(c)
    ensures var b := GridTick(c.serverPhase, SERVER_TICK, k);
      b < c.cut <= b + 500.0 && c.claim > b + 15_999.0 + 2.0 * c.up + 2.0 * c.down
  {
    var j := FirstTick(c.serverPhase, SERVER_TICK, c.cut);
    k := j - 1;
    var b := GridTick(c.serverPhase, SERVER_TICK, k);
    StampKeeps(Start(c.clientBase), c.client, c.clientBase, b + c.down, CLIENT_SILENCE_DEADLINE);
  }

  /** A latency at which every cut leaves the server enough time. */
  predicate SlowEnough(up: real, down: real) { up == 0.0 || up + down >= 0.5 }

  /** For every cut, phase and history: when the two latencies add up to half a millisecond, or the
      client's way up takes no time at all, the name is free by the time the redialled hello arrives. */
  lemma NamesAreFreeBeforeTheRedial(c: Cut)
    requires Happens(c) && SlowEnough(c.up, c.down)
    ensures NameIsFree(c)
  {
    var k := LastBeat(c);
    var b := GridTick(c.serverPhase, SERVER_TICK, k);
    GridAt(c.serverPhase, SERVER_TICK, k);
    GridAt(c.serverPhase, SERVER_TICK, k + 31);
    GridAt(c.serverPhase, SERVER_TICK, k + 32);
    if c.up == 0.0 {
      LateTickReaps(Start(c.serverBase), c.server, b + 500.0, b + 15_500.0, SERVER_DEADLINE);
    } else if c.up <= 500.0 {
      LateTickReaps(Start(c.serverBase), c.server, b + 1_000.0, b + 16_000.0, SERVER_DEADLINE);
    } else {
      SilenceIsDetected(c.serverBase, c.server, b + 500.0 + c.up, SERVER_DEADLINE, c.serverPhase, SERVER_TICK);
    }
  }

  /** The client's half of the fastest redial: one beat, `part` of a millisecond past a whole one, and
      fifteen checks. */
  function FastClient(part: real): seq<Event> {
    [Tick(1_000.0), Bytes(1_000.0 + part)] + Checks(2_000.0, CLIENT_TICK, 14)
  }

  lemma FastClientGivesUp(part: real)
    requires 0.0 < part < 1.0
    ensures var w := Run(Start(0.0), FastClient(part), CLIENT_SILENCE_DEADLINE);
      !w.terminated && Observe(w, Tick(16_000.0), CLIENT_SILENCE_DEADLINE).terminated
    ensures Ordered(FastClient(part), 0.0)
  {
    var first := [Tick(1_000.0), Bytes(1_000.0 + part)];
    var w := Watch(0.0, 1_000, false);
    assert first[1..] == [Bytes(1_000.0 + part)] && first[1..][1..] == [];
    assert (1_000.0 + part - 0.0).Floor == 1_000;
    assert Run(Start(0.0), first, CLIENT_SILENCE_DEADLINE) == Run(Start(0.0), first[1..], CLIENT_SILENCE_DEADLINE);
    assert Run(Start(0.0), first[1..], CLIENT_SILENCE_DEADLINE) == w;
    var rest := Checks(2_000.0, CLIENT_TICK, 14);
    forall k | 0 <= k < 14
      ensures rest[k].at == 2_000.0 + k as real * 1_000.0
    {
      GridAt(2_000.0, CLIENT_TICK, k);
    }
    RunConcat(Start(0.0), first, rest, CLIENT_SILENCE_DEADLINE);
    EarlyTicksKeep(w, rest, CLIENT_SILENCE_DEADLINE);
    ChecksOrdered(2_000.0, CLIENT_TICK, 14, 2_000.0);
    OrderedConcat(first, rest, 0.0, 2_000.0);
  }

  lemma FastClientEvents(part: real)
    requires 0.0 < part < 1.0
    ensures forall i :: 0 <= i < |FastClient(part)| ==>
      FastClient(part)[i].at <= 16_000.0 && (FastClient(part)[i].Bytes? ==> FastClient(part)[i].at == 1_000.0 + part)
  {
    forall i | 2 <= i < 16
      ensures FastClient(part)[i] == Tick(i as real * 1_000.0)
    {
      GridAt(2_000.0, CLIENT_TICK, i - 2);
    }
  }

  lemma FastClientChecks(part: real)
    ensures forall k: nat :: k < 15 ==> Tick(GridTick(1_000.0, CLIENT_TICK, k)) in FastClient(part)
    ensures GridTick(1_000.0, CLIENT_TICK, 15) == 16_000.0
  {
    GridAt(1_000.0, CLIENT_TICK, 15);
    forall k: nat | k < 15
      ensures Tick(GridTick(1_000.0, CLIENT_TICK, k)) in FastClient(part)
    {
      if k == 0 {
        assert FastClient(part)[0] == Tick(1_000.0);
      } else {
        GridShift(1_000.0, CLIENT_TICK, k - 1);
        assert FastClient(part)[k + 1] == Tick(GridTick(2_000.0, CLIENT_TICK, k - 1));
      }
    }
  }

  /** The server's half of the slowest reap: two ticks from `b` on, the client's last byte just after
      the second, and thirty more ticks. */
  function SlowServer(b: real, last: real): seq<Event> {
    Checks(b, SERVER_TICK, 2) + ([Bytes(last)] + Checks(b + 1_000.0, SERVER_TICK, 30))
  }

  lemma SlowServerTicks(b: real, last: real, k: nat)
    requires k < 32
    ensures GridTick(b, SERVER_TICK, k) == b + k as real * 500.0
    ensures SlowServer(b, last)[if k < 2 then k else k + 1] == Tick(GridTick(b, SERVER_TICK, k))
  {
    GridAt(b, SERVER_TICK, k);
    if k >= 2 {
      GridAt(b + 1_000.0, SERVER_TICK, k - 2);
    }
  }

  lemma SlowServerOrdered(b: real, last: real)
    requires b + 500.0 < last < b + 501.0
    ensures Ordered(SlowServer(b, last), last - 1_000.0)
    ensures forall i :: 0 <= i < |SlowServer(b, last)| ==>
      && SlowServer(b, last)[i].at <= b + 15_500.0
      && (SlowServer(b, last)[i].Bytes? ==> SlowServer(b, last)[i].at == last)
  {
    var s := SlowServer(b, last);
    forall i | 0 <= i < |s|
      ensures s[i].at <= b + 15_500.0 && (s[i].Bytes? ==> s[i].at == last)
    {
      if i != 2 {
        SlowServerTicks(b, last, if i < 2 then i else i - 1);
      }
    }
    var rest := Checks(b + 1_000.0, SERVER_TICK, 30);
    ChecksOrdered(b + 1_000.0, SERVER_TICK, 30, last);
    assert ([Bytes(last)] + rest)[1..] == rest;
    ChecksOrdered(b, SERVER_TICK, 2, last - 1_000.0);
    GridAt(b, SERVER_TICK, 1);
    OrderedConcat(Checks(b, SERVER_TICK, 2), [Bytes(last)] + rest, last - 1_000.0, b + 500.0);
  }

  lemma SlowServerKeeps(b: real, last: real)
    requires b + 500.0 < last < b + 501.0
    ensures !Run(Start(last - 1_000.0), SlowServer(b, last), SERVER_DEADLINE).terminated
  {
    var two, rest := Checks(b, SERVER_TICK, 2), Checks(b + 1_000.0, SERVER_TICK, 30);
    var w := Start(last - 1_000.0);
    GridAt(b, SERVER_TICK, 1);
    EarlyTicksKeep(w, two, SERVER_DEADLINE);
    RunConcat(w, two, [Bytes(last)] + rest, SERVER_DEADLINE);
    assert ([Bytes(last)] + rest)[1..] == rest;
    assert (last - (last - 1_000.0)).Floor == 1_000;
    forall k | 0 <= k < 30
      ensures rest[k].at <= b + 15_500.0
    {
      GridAt(b + 1_000.0, SERVER_TICK, k);
    }
    EarlyTicksKeep(Stamp(w, last), rest, SERVER_DEADLINE);
  }

  /** On any faster path the constants leave no slack: some cut, beat phase and stamp rounding let the
      hello arrive before the server's check. */
  lemma FasterPathsCanRaceTheReaper(up: real, down: real) returns (c: Cut)
    requires up >= 0.0 && down >= 0.0 && !SlowEnough(up, down)
    ensures Happens(c) && c.up == up && c.down == down && !NameIsFree(c)
  {
    var part := up + down + 0.5;
    var b := 1_000.0 + part - down;
    var last := b + 500.0 + up / 2.0;
    var claim := 17_000.0 + up + down + up;
    c := Cut(b + 500.0, up, down,
             0.0, FastClient(part), 1_000.0, 15, 16_000.0,
             last - 1_000.0, SlowServer(b, last), b, claim);
    RaceClient(c, part);
    RaceServer(c, b, last);
    FastBeats(c, b);
  }

  lemma RaceClient(c: Cut, part: real)
    requires 0.0 < part < 1.0 && 1_000.0 + part < c.cut + c.down
    requires c.clientBase == 0.0 && c.client == FastClient(part)
    requires c.clientPhase == 1_000.0 && c.checks == 15 && c.trip == 16_000.0
    ensures ClientGivesUp(c)
  {
    FastClientGivesUp(part);
    FastClientEvents(part);
    FastClientChecks(part);
  }

  lemma RaceServer(c: Cut, b: real, last: real)
    requires b + 500.0 < last < b + 501.0 && last < c.cut + c.up
    requires b < c.cut && c.serverPhase == b && c.serverBase == last - 1_000.0 && c.server == SlowServer(b, last)
    requires b + 15_500.0 <= c.claim < b + 16_000.0
    ensures ServerWatches(c) && !NameIsFree(c)
  {
    SlowServerOrdered(b, last);
    SlowServerKeeps(b, last);
    SlowGrid(c, b, last);
  }

  /** The one beat before that cut is heard. */
  lemma FastBeats(c: Cut, b: real)
    requires c.serverPhase == b && c.cut == b + 500.0 && |c.client| > 1 && c.client[1] == Bytes(b + c.down)
    ensures BeatsArrive(c)
  {
    forall k: nat | GridTick(b, SERVER_TICK, k) < c.cut
      ensures Bytes(GridTick(b, SERVER_TICK, k) + c.down) in c.client
    {
      GridAt(b, SERVER_TICK, k);
      assert k == 0;
      assert c.client[1] in c.client;
    }
  }

  lemma SlowGrid(c: Cut, b: real, last: real)
    requires c.serverPhase == b && c.server == SlowServer(b, last) && c.claim < b + 16_000.0
    ensures ServesGrid(c.server, c.serverPhase, SERVER_TICK, c.claim)
  {
    forall k: nat | GridTick(b, SERVER_TICK, k) <= c.claim
      ensures Tick(GridTick(b, SERVER_TICK, k)) in c.server
    {
      GridAt(b, SERVER_TICK, k);
      assert k < 32;
      SlowServerTicks(b, last, k);
    }
  }

  /** Exactly which paths are safe: the name is free in every cut with these latencies if and only if
      they add up to half a millisecond or the way up takes no time. */
  lemma NamesAreFreeExactly(up: real, down: real)
    requires up >= 0.0 && down >= 0.0
    ensures (forall c: Cut :: Happens(c) && c.up == up && c.down == down ==> NameIsFree(c)) <==> SlowEnough(up, down)
  {
    if SlowEnough(up, down) {
      forall c: Cut | Happens(c) && c.up == up && c.down == down
        ensures NameIsFree(c)
      {
        NamesAreFreeBeforeTheRedial(c);
      }
    } else {
      var c := FasterPathsCanRaceTheReaper(up, down);
    }
  }

  // ----- Flick tolerance

  const RTO: nat := 200

  /** When the `k`-th retransmission of a segment goes out, counted from its first transmission: each
      timeout is twice the one before. */
  function Ladder(k: nat): nat { if k == 0 then 0 else Ladder(k - 1) + RTO * Pow2(k - 1) }

  lemma {:induction false} LadderClosedForm(k: nat)
    ensures Ladder(k) == RTO * (Pow2(k) - 1)
  {
    if k > 0 {
      LadderClosedForm(k - 1);
    }
  }

  lemma {:induction false} LadderGrows(j: nat, k: nat)
    requires j <= k
    ensures Ladder(j) <= Ladder(k)
    decreases k
  {
    if j < k {
      LadderGrows(j, k - 1);
    }
  }

  lemma LadderSteps()
    ensures Ladder(5) == 6_200 && Ladder(6) == 12_600 && Ladder(7) == 25_400
  {
    LadderClosedForm(5);
    LadderClosedForm(6);
    LadderClosedForm(7);
  }

  /** Retransmission `k` of a beat first sent at `sent` is the first one the path, back at `back`,
      lets through. */
  ghost predicate GetsThrough(sent: real, back: real, k: nat) {
    sent + Ladder(k) as real >= back && forall j: nat :: j < k ==> sent + Ladder(j) as real < back
  }

  /** The receiver's silence around a flick: one beat interval, then the retransmission. */
  function FlickGap(beat: nat, k: nat): real { (beat + Ladder(k)) as real }

  lemma SixthStepOrNever(sent: real, back: real, k: nat)
    requires GetsThrough(sent, back, k)
    ensures back <= sent + Ladder(6) as real <==> k <= 6
    ensures k <= 6 ==> Ladder(k) <= 12_600
    ensures k > 6 ==> Ladder(k) >= 25_400
  {
    LadderSteps();
    if k <= 6 {
      LadderGrows(k, 6);
    } else {
      LadderGrows(7, k);
    }
  }

  /** A receiver's history around a flick: bytes at least every `beat`, except from the arrival of the
      last beat before the flick, `from`, to the arrival of the retransmission, `to`. */
  predicate BeatsExceptFlick(events: seq<Event>, last: real, beat: nat, from: real, to: real)
    decreases |events|
  {
    events == [] ||
    ((events[0].at - last <= beat as real || (from <= last && events[0].at <= to)) &&
     BeatsExceptFlick(events[1..], if events[0].Bytes? then events[0].at else last, beat, from, to))
  }

  lemma {:induction false} FlickBoundsGaps(events: seq<Event>, last: real, beat: nat, from: real, to: real)
    requires BeatsExceptFlick(events, last, beat, from, to) && to - from >= beat as real
    ensures GapsWithin(events, last, to - from)
    decreases |events|
  {
    if events != [] {
      FlickBoundsGaps(events[1..], if events[0].Bytes? then events[0].at else last, beat, from, to);
    }
  }

  /** One end of a flick: the beat first sent at `sent` is the first one the flick swallows, the path
      is back at `back`, and the segment gets through on its `k`-th retransmission. */
  ghost predicate Flicked(events: seq<Event>, base: real, beat: nat, latency: real, sent: real, back: real, k: nat) {
    && GetsThrough(sent, back, k)
    && BeatsExceptFlick(events, base, beat, sent - beat as real + latency, sent + Ladder(k) as real + latency)
  }

  /** A flick is tolerated at both ends if the path is back by the sixth step of the ladder after the
      first lost beat in each direction: neither end terminates the connection. */
  lemma FlickIsTolerated(base: real, back: real, latency: real,
                         atServer: seq<Event>, sentUp: real, k: nat,
                         atClient: seq<Event>, sentDown: real, m: nat)
    requires Flicked(atServer, base, CTRL_CLIENT_HEARTBEAT, latency, sentUp, back, k)
    requires Flicked(atClient, base, SERVER_HEARTBEAT, latency, sentDown, back, m)
    requires back <= sentUp + Ladder(6) as real && back <= sentDown + Ladder(6) as real
    ensures !Run(Start(base), atServer, SERVER_DEADLINE).terminated
    ensures !Run(Start(base), atClient, CLIENT_SILENCE_DEADLINE).terminated
  {
    FlickKeepsOneEnd(base, atServer, CTRL_CLIENT_HEARTBEAT, latency, sentUp, back, k, SERVER_DEADLINE);
    FlickKeepsOneEnd(base, atClient, SERVER_HEARTBEAT, latency, sentDown, back, m, CLIENT_SILENCE_DEADLINE);
  }

  lemma FlickKeepsOneEnd(base: real, events: seq<Event>, beat: nat, latency: real,
                         sent: real, back: real, k: nat, deadline: nat)
    requires Flicked(events, base, beat, latency, sent, back, k)
    requires back <= sent + Ladder(6) as real && beat + 12_600 < deadline
    ensures !Run(Start(base), events, deadline).terminated
  {
    SixthStepOrNever(sent, back, k);
    FlickBoundsGaps(events, base, beat, sent - beat as real + latency, sent + Ladder(k) as real + latency);
    NoFalseReap(base, events, FlickGap(beat, k), deadline);
  }

  /** A flick of at most 12.6 s is tolerated whatever the phase of the beats: the first lost beat is
      sent no earlier than the flick begins. */
  lemma ShortFlicksReachTheSixthStep(start: real, back: real, sent: real)
    requires start <= sent && back - start <= 12_600.0
    ensures back <= sent + Ladder(6) as real
  {
    LadderSteps();
  }

  /** One end's ordered history of a flick: nothing arrives between the last beat before it and the
      retransmission that gets through, and every check of the grid is served. */
  ghost predicate Silenced(events: seq<Event>, base: real, beat: nat, latency: real,
                           sent: real, back: real, k: nat, phase: real, period: real) {
    var from, to := sent - beat as real + latency, sent + Ladder(k) as real + latency;
    && GetsThrough(sent, back, k) && base <= from && phase <= from
    && Ordered(events, base) && Quiet(events, from, to) && ServesGrid(events, phase, period, to)
  }

  lemma LongFlickEndsOneEnd(events: seq<Event>, base: real, beat: nat, latency: real,
                            sent: real, back: real, k: nat, phase: real, period: real)
    requires Silenced(events, base, beat, latency, sent, back, k, phase, period)
    requires back > sent + Ladder(6) as real && 0.0 < period <= 1_000.0
    ensures Run(Start(base), events, 15_000).terminated
  {
    var from, to := sent - beat as real + latency, sent + Ladder(k) as real + latency;
    SixthStepOrNever(sent, back, k);
    var i := FirstTick(phase, period, from + 15_000.0);
    QuietTickReaps(Start(base), events, base, from, to, GridTick(phase, period, i), 15_000);
  }

  /** And a path that is back any later in both directions is given up at both ends, whatever arrives
      once it is back. */
  lemma LongerFlickDisconnects(base: real, back: real, latency: real,
                               atServer: seq<Event>, sentUp: real, k: nat, serverPhase: real,
                               atClient: seq<Event>, sentDown: real, m: nat, clientPhase: real)
    requires Silenced(atServer, base, CTRL_CLIENT_HEARTBEAT, latency, sentUp, back, k, serverPhase, SERVER_TICK)
    requires Silenced(atClient, base, SERVER_HEARTBEAT, latency, sentDown, back, m, clientPhase, CLIENT_TICK)
    requires back > sentUp + Ladder(6) as real && back > sentDown + Ladder(6) as real
    ensures Run(Start(base), atServer, SERVER_DEADLINE).terminated
    ensures Run(Start(base), atClient, CLIENT_SILENCE_DEADLINE).terminated
  {
    LongFlickEndsOneEnd(atServer, base, CTRL_CLIENT_HEARTBEAT, latency, sentUp, back, k, serverPhase, SERVER_TICK);
    LongFlickEndsOneEnd(atClient, base, SERVER_HEARTBEAT, latency, sentDown, back, m, clientPhase, CLIENT_TICK);
  }

  // ----- Which beats tolerate it

  /** Under the deadline the server derives from a declared beat, no history of a flick whose path is
      back by the sixth step is terminated. */
  ghost predicate Tolerates(beat: nat) {
    forall base: real, events: seq<Event>, latency: real, sent: real, back: real, k: nat ::
      Flicked(events, base, beat, latency, sent, back, k) && Ordered(events, base) && back <= sent + Ladder(6) as real
      ==> !Run(Start(base), events, ServerDeadline(beat)).terminated
  }

  /** Below 5 s the floor is the deadline and leaves 2.4 s for the beat; above it three beats are, up
      to the cap of an hour. */
  predicate Fits(beat: nat) { beat <= 2_399 || 6_301 <= beat <= 3_587_399 }

  lemma FitsIsTheSlack(beat: nat)
    ensures Fits(beat) <==> beat + 12_600 < ServerDeadline(beat)
    ensures ServerDeadline(beat) >= 15_000
  {
  }

  lemma {:induction false} TicksInFlick(events: seq<Event>, last: real, beat: nat, from: real, to: real)
    requires from <= last && forall i :: 0 <= i < |events| ==> events[i].Tick? && events[i].at <= to
    ensures BeatsExceptFlick(events, last, beat, from, to)
    decreases |events|
  {
    if events != [] {
      TicksInFlick(events[1..], last, beat, from, to);
    }
  }

  /** Checks every 500 ms that end at `check`, the first no earlier than `first`. */
  lemma GridEndingAt(first: real, gap: nat) returns (phase: real, n: nat)
    ensures first <= phase && GridTick(phase, SERVER_TICK, n) == first + gap as real
    ensures forall k: nat :: k <= n ==> GridTick(phase, SERVER_TICK, k) <= first + gap as real
    ensures forall k: nat :: GridTick(phase, SERVER_TICK, k) <= first + gap as real ==> k <= n
  {
    n := gap / 500;
    phase := first + (gap % 500) as real;
    forall k: nat
      ensures GridTick(phase, SERVER_TICK, k) == phase + k as real * 500.0
    {
      GridAt(phase, SERVER_TICK, k);
    }
  }

  /** For every other beat there is a flick, with the path back at the sixth step and every check
      served, that the server does not survive. */
  lemma FlickReaps(beat: nat) returns (events: seq<Event>, sent: real, phase: real)
    requires !Fits(beat)
    ensures var back := sent + Ladder(6) as real;
      && Ordered(events, 0.0) && Flicked(events, 0.0, beat, 0.0, sent, back, 6)
      && ServesGrid(events, phase, SERVER_TICK, back)
      && Run(Start(0.0), events, ServerDeadline(beat)).terminated
  {
    FitsIsTheSlack(beat);
    LadderSteps();
    var gap, deadline := beat + 12_600, ServerDeadline(beat);
    var first := Fraction(gap as real, deadline);
    var n: nat;
    phase, n := GridEndingAt(first, gap);
    sent := first + beat as real;
    var check := first + gap as real;
    var ticks := Checks(phase, SERVER_TICK, n + 1);
    events := [Bytes(first)] + ticks;
    assert events[1..] == ticks;
    ChecksOrdered(phase, SERVER_TICK, n + 1, first);
    TicksInFlick(ticks, first, beat, first, check);
    assert (first - 0.0).Floor == 0;
    assert ticks[n] == Tick(check);
    LateTickReaps(Stamp(Start(0.0), first), ticks, 0.0, check, deadline);
    forall j: nat | j < 6
      ensures sent + Ladder(j) as real < sent + Ladder(6) as real
    {
      LadderGrows(j, 5);
    }
    forall k: nat | GridTick(phase, SERVER_TICK, k) <= check
      ensures Tick(GridTick(phase, SERVER_TICK, k)) in events
    {
      assert events[k + 1] == Tick(GridTick(phase, SERVER_TICK, k));
    }
  }

  /** Exactly which beats tolerate the sixth step. */
  lemma BeatToleratedExactly(beat: nat)
    ensures Tolerates(beat) <==> Fits(beat)
  {
    if Fits(beat) {
      forall base: real, events: seq<Event>, latency: real, sent: real, back: real, k: nat |
        Flicked(events, base, beat, latency, sent, back, k) && back <= sent + Ladder(6) as real
        ensures !Run(Start(base), events, ServerDeadline(beat)).terminated
      {
        FitsIsTheSlack(beat);
        FlickKeepsOneEnd(base, events, beat, latency, sent, back, k, ServerDeadline(beat));
      }
    } else {
      var events, sent, phase := FlickReaps(beat);
    }
  }

  /** Why the beat is 2 s: with a 5 s beat the server reaps in a flick that every client survives. */
  lemma FiveSecondBeatBreaksTheBound() returns (atServer: seq<Event>, sent: real, back: real)
    ensures Tolerates(CTRL_CLIENT_HEARTBEAT) && !Tolerates(5_000)
    ensures Ordered(atServer, 0.0) && Flicked(atServer, 0.0, 5_000, 0.0, sent, back, 6)
    ensures Run(Start(0.0), atServer, ServerDeadline(5_000)).terminated
    ensures forall atClient: seq<Event>, sentDown: real, m: nat ::
      Flicked(atClient, 0.0, SERVER_HEARTBEAT, 0.0, sentDown, back, m) && back <= sentDown + Ladder(6) as real
      ==> !Run(Start(0.0), atClient, CLIENT_SILENCE_DEADLINE).terminated
  {
    BeatToleratedExactly(CTRL_CLIENT_HEARTBEAT);
    BeatToleratedExactly(5_000);
    var phase: real;
    atServer, sent, phase := FlickReaps(5_000);
    back := sent + Ladder(6) as real;
    forall atClient: seq<Event>, sentDown: real, m: nat |
      Flicked(atClient, 0.0, SERVER_HEARTBEAT, 0.0, sentDown, back, m) && back <= sentDown + Ladder(6) as real
      ensures !Run(Start(0.0), atClient, CLIENT_SILENCE_DEADLINE).terminated
    {
      FlickKeepsOneEnd(0.0, atClient, SERVER_HEARTBEAT, 0.0, sentDown, back, m, CLIENT_SILENCE_DEADLINE);
    }
  }
}
