/** The liveness policy of src/liveness.rs: deadlines, ticks, and the watch one end keeps on a
    connection. Durations are milliseconds; instants are real-valued milliseconds. */
module Liveness {
  import opened Basics
  import opened Text

  const CTRL_CLIENT_HEARTBEAT: nat := 2_000
  const SERVER_HEARTBEAT: nat := 500
  const CLIENT_SILENCE_DEADLINE: nat := 15_000
  const TRANSPORT_REAP_FLOOR: nat := 15_000
  const TRANSPORT_REAP_MULTIPLIER: nat := 3
  const DEADLINE_CAP: nat := 3_600_000
  const SILENCE_MIN: nat := 100
  const U32_MAX: nat := 0xFFFF_FFFF
  const NANOS_PER_MS: nat := 1_000_000

  // ----- Pure policy

  /** `declared_ms_for`, of an interval in nanoseconds. */
  function DeclaredMsFor(nanos: nat): nat {
    Max(Min(nanos / NANOS_PER_MS, U32_MAX), 1)
  }

  /** `transport_reap_deadline`. */
  function TransportReapDeadline(declaredMs: nat, floor: nat): Option<nat> {
    if declaredMs == 0 then None
    else Some(Min(Max(declaredMs * TRANSPORT_REAP_MULTIPLIER, floor), DEADLINE_CAP))
  }

  /** `liveness_tick`: a quarter of the deadline, within 50 ms and 1 s. */
  function LivenessTick(deadline: nat): real {
    var quarter := deadline as real / 4.0;
    if quarter < 50.0 then 50.0 else if quarter > 1000.0 then 1000.0 else quarter
  }

  predicate AllDigits(s: string) { s != [] && forall i :: 0 <= i < |s| ==> '0' <= s[i] <= '9' }

  function Digits(s: string): nat
    requires forall i :: 0 <= i < |s| ==> '0' <= s[i] <= '9'
  {
    if s == [] then 0 else 10 * Digits(s[..|s| - 1]) + (s[|s| - 1] - '0') as nat
  }

  /** What follows an optional plus sign. */
  function Unsigned(s: string): string { if s != [] && s[0] == '+' then s[1..] else s }

  /** `str::parse::<u64>`: digits with an optional leading plus sign, within 64 bits. */
  function ParseU64(s: string): Option<nat> {
    var t := Unsigned(s);
    if AllDigits(t) && Digits(t) <= U64_MAX then Some(Digits(t)) else None
  }

  /** `parse_silence_ms`. */
  function ParseSilenceMs(raw: Option<string>): (r: Option<nat>)
    ensures r.Some? ==> SILENCE_MIN <= r.value <= DEADLINE_CAP
  {
    if raw.None? then Some(CLIENT_SILENCE_DEADLINE)
    else match ParseU64(Trim(raw.value))
      case Some(0) => None
      case Some(ms) => Some(Min(Max(ms, SILENCE_MIN), DEADLINE_CAP))
      case None => Some(CLIENT_SILENCE_DEADLINE)
  }

  /** The decimal rendering of a number. */
  function Decimal(n: nat): string {
    if n < 10 then ['0' + n as char] else Decimal(n / 10) + ['0' + (n % 10) as char]
  }

  lemma {:induction false} DecimalIsParsed(n: nat)
    ensures AllDigits(Decimal(n)) && Digits(Decimal(n)) == n
  {
    if n >= 10 {
      DecimalIsParsed(n / 10);
      var d := Decimal(n);
      assert d[..|d| - 1] == Decimal(n / 10);
    } else {
      assert Decimal(n)[..0] == [];
    }
  }

  /** The override as an operator writes it: only an explicit zero disables detection, any other number
      is taken, kept within 100 ms and one hour, and one too large for 64 bits falls back to the
      shipped deadline; a plus sign before it and white space around it do not matter. */
  lemma SilenceOverride(n: nat, left: string, sign: string, right: string)
    requires AllWhite(left) && AllWhite(right) && (sign == "" || sign == "+")
    ensures ParseSilenceMs(Some(left + (sign + Decimal(n)) + right)) ==
      if n == 0 then None
      else if n > U64_MAX then Some(CLIENT_SILENCE_DEADLINE)
      else if n < SILENCE_MIN then Some(SILENCE_MIN)
      else if n > DEADLINE_CAP then Some(DEADLINE_CAP)
      else Some(n)
  {
    DecimalIsRead(n, sign);
    TrimFindsTheCore(left, sign + Decimal(n), right);
  }

  lemma DecimalIsRead(n: nat, sign: string)
    requires sign == "" || sign == "+"
    ensures Tight(sign + Decimal(n))
    ensures ParseU64(sign + Decimal(n)) == if n <= U64_MAX then Some(n) else None
  {
    DecimalIsParsed(n);
    SignIsDropped(sign, Decimal(n));
  }

  lemma SignIsDropped(sign: string, d: string)
    requires AllDigits(d) && (sign == "" || sign == "+")
    ensures Tight(sign + d) && Unsigned(sign + d) == d
  {
    var t := sign + d;
    assert '0' <= d[0] <= '9' && '0' <= d[|d| - 1] <= '9' && t[|t| - 1] == d[|d| - 1];
    if sign == "" {
      assert t == d;
    } else {
      assert t[1..] == d;
    }
  }

  lemma {:induction false} DigitsAreZero(s: string)
    requires forall i :: 0 <= i < |s| ==> '0' <= s[i] <= '9'
    ensures Digits(s) == 0 <==> AllZeros(s)
  {
    if s != [] {
      DigitsAreZero(s[..|s| - 1]);
    }
  }

  /** An optional plus sign and one or more zeros. */
  predicate ZeroText(s: string) {
    (s != [] && AllZeros(s)) || (|s| > 1 && s[0] == '+' && AllZeros(s[1..]))
  }

  predicate AllZeros(s: string) { forall i :: 0 <= i < |s| ==> s[i] == '0' }

  /** Detection is disabled exactly by an explicit zero: no text, an empty text, a malformed one or one
      too large for 64 bits keeps the shipped deadline, and any other number is clamped. */
  lemma DisabledExactly(raw: Option<string>)
    ensures ParseSilenceMs(raw).None? <==> raw.Some? && ZeroText(Trim(raw.value))
    ensures raw.None? || ParseU64(Trim(raw.value)).None? ==> ParseSilenceMs(raw) == Some(CLIENT_SILENCE_DEADLINE)
    ensures raw.Some? && ParseU64(Trim(raw.value)).Some? && !ZeroText(Trim(raw.value)) ==>
      ParseSilenceMs(raw) == Some(Min(Max(ParseU64(Trim(raw.value)).value, SILENCE_MIN), DEADLINE_CAP))
  {
    if raw.Some? {
      var t := Unsigned(Trim(raw.value));
      if AllDigits(t) {
        DigitsAreZero(t);
      }
    }
  }

  /** A declared interval is never zero, which would disable the reaper, and is the whole milliseconds of
      the interval as far as 32 bits go. */
  lemma DeclaredIsNeverZero(nanos: nat)
    ensures 1 <= DeclaredMsFor(nanos) <= U32_MAX
    ensures NANOS_PER_MS <= nanos < (U32_MAX + 1) * NANOS_PER_MS ==>
      DeclaredMsFor(nanos) * NANOS_PER_MS <= nanos < (DeclaredMsFor(nanos) + 1) * NANOS_PER_MS
  {
  }

  /** The server's deadline: none for a client that declared nothing, else the shortest that grants
      three declared intervals and the floor, but an hour at most. */
  lemma DeadlineExactly(declaredMs: nat, floor: nat)
    ensures var d := TransportReapDeadline(declaredMs, floor);
      && (d.None? <==> declaredMs == 0)
      && (d.Some? ==> d.value <= 3_600_000)
      && (d.Some? && d.value < 3_600_000 ==>
            d.value >= 3 * declaredMs && d.value >= floor && (d.value == 3 * declaredMs || d.value == floor))
      && (d == Some(3_600_000) ==> 3 * declaredMs >= 3_600_000 || floor >= 3_600_000)
  {
  }

  // ----- One end's watch over a connection

  /** What a connection's watch sees: bytes delivered by the socket, and deadline checks. */
  datatype Event = Bytes(at: real) | Tick(at: real)

  /** `ConnActivity`: the last inbound byte is kept in whole milliseconds since `base`. */
  datatype Watch = Watch(base: real, lastMs: int, terminated: bool)

  function Start(base: real): Watch { Watch(base, 0, false) }

  function Stamp(w: Watch, now: real): Watch { w.(lastMs := (now - w.base).Floor) }

  function Idle(w: Watch, now: real): real { now - w.base - w.lastMs as real }

  function Observe(w: Watch, e: Event, deadline: nat): Watch {
    match e
    case Bytes(at) => if w.terminated then w else Stamp(w, at)
    case Tick(at) => if Idle(w, at) >= deadline as real then w.(terminated := true) else w
  }

  /** The watch after `events`, oldest first. */
  function Run(w: Watch, events: seq<Event>, deadline: nat): Watch
    decreases |events|
  {
    if events == [] then w else Run(Observe(w, events[0], deadline), events[1..], deadline)
  }

  predicate Ordered(events: seq<Event>, from: real)
    decreases |events|
  {
    events == [] || (from <= events[0].at && Ordered(events[1..], events[0].at))
  }

  /** No event comes more than `gap` after the last byte before it; `last` is that byte, or the
      start of the connection. */
  predicate GapsWithin(events: seq<Event>, last: real, gap: real)
    decreases |events|
  {
    events == [] ||
    (events[0].at - last <= gap && GapsWithin(events[1..], if events[0].Bytes? then events[0].at else last, gap))
  }

  // ----- No false reap

  /** The watch never believes the peer silent for a whole millisecond longer than it was. */
  predicate Tracks(w: Watch, last: real) {
    w.base + w.lastMs as real <= last < w.base + w.lastMs as real + 1.0
  }

  lemma {:induction false} SteadyPeerIsKept(w: Watch, events: seq<Event>, last: real, gap: real, deadline: nat)
    requires !w.terminated && Tracks(w, last)
    requires GapsWithin(events, last, gap) && gap <= deadline as real - 1.0
    ensures !Run(w, events, deadline).terminated
    decreases |events|
  {
    if events != [] {
      SteadyPeerIsKept(Observe(w, events[0], deadline), events[1..],
                       if events[0].Bytes? then events[0].at else last, gap, deadline);
    }
  }

  /** A peer whose inbound gaps stay a millisecond below the deadline is never terminated. */
  lemma NoFalseReap(base: real, events: seq<Event>, gap: real, deadline: nat)
    requires GapsWithin(events, base, gap) && gap <= deadline as real - 1.0
    ensures !Run(Start(base), events, deadline).terminated
  {
    SteadyPeerIsKept(Start(base), events, base, gap, deadline);
  }

  /** How far into a millisecond a byte has to arrive for `gap` of silence to be read as `deadline`. */
  function Fraction(gap: real, deadline: nat): real {
    if gap >= deadline as real then 0.0 else deadline as real - gap
  }

  /** The millisecond is needed, because the stamp is cut to whole milliseconds: any larger gap,
      even one shorter than the deadline, has a run that is terminated. */
  lemma ShorterGapCanBeReaped(base: real, gap: real, deadline: nat) returns (events: seq<Event>)
    requires deadline >= 2 && gap > deadline as real - 1.0
    ensures Ordered(events, base) && GapsWithin(events, base, gap)
    ensures Run(Start(base), events, deadline).terminated
  {
    var first := base + Fraction(gap, deadline);
    var check := first + gap;
    assert (first - base).Floor == 0;
    events := [Bytes(first), Tick(check)];
    assert events[1..] == [Tick(check)];
    assert events[1..][1..] == [];
    var w := Observe(Start(base), events[0], deadline);
    assert Run(w, [Tick(check)], deadline) == Run(Observe(w, Tick(check), deadline), [], deadline) by {
      assert [Tick(check)][1..] == [];
    }
  }

  function Millis(nanos: nat): real { nanos as real / NANOS_PER_MS as real }

  /** No history of a peer whose gaps stay within `gap` is ever terminated. */
  ghost predicate AlwaysKept(gap: real, deadline: nat) {
    forall base: real, events: seq<Event> :: Ordered(events, base) && GapsWithin(events, base, gap)
      ==> !Run(Start(base), events, deadline).terminated
  }

  /** A gap is safe under every history exactly when it stays a millisecond below the deadline. */
  lemma KeptExactly(gap: real, deadline: nat)
    requires deadline >= 2
    ensures AlwaysKept(gap, deadline) <==> gap <= deadline as real - 1.0
  {
    if gap <= deadline as real - 1.0 {
      forall base: real, events: seq<Event> | GapsWithin(events, base, gap)
        ensures !Run(Start(base), events, deadline).terminated
      {
        NoFalseReap(base, events, gap, deadline);
      }
    } else {
      var events := ShorterGapCanBeReaped(0.0, gap, deadline);
    }
  }

  lemma DeclaredBeatFits(nanos: nat, floor: nat)
    ensures var d := TransportReapDeadline(DeclaredMsFor(nanos), floor);
      && d.Some? && d.value >= 2
      && (Millis(nanos) <= d.value as real - 1.0 <==> nanos <= (DEADLINE_CAP - 1) * NANOS_PER_MS)
  {
  }

  /** A client that beats at the interval it declares is never reaped by the deadline the server
      derives from it, in any history, exactly when that interval is at most a millisecond short of
      an hour, whatever the floor; for a longer one there is a history that is. */
  lemma DeclaredBeatIsSafe(nanos: nat, floor: nat)
    ensures var d := TransportReapDeadline(DeclaredMsFor(nanos), floor);
      d.Some? && (AlwaysKept(Millis(nanos), d.value) <==> nanos <= (DEADLINE_CAP - 1) * NANOS_PER_MS)
  {
    DeclaredBeatFits(nanos, floor);
    KeptExactly(Millis(nanos), TransportReapDeadline(DeclaredMsFor(nanos), floor).value);
  }

  // ----- Bounded detection

  /** For every deadline the override accepts the check runs at least twice per deadline and at least
      once a second, but no more than four times per deadline unless that would be rarer than once a
      second, and never more than twenty times a second. */
  lemma TickIsAtMostHalf(raw: Option<string>)
    requires ParseSilenceMs(raw).Some?
    ensures var d := ParseSilenceMs(raw).value;
      && 50.0 <= LivenessTick(d) <= 1000.0 && LivenessTick(d) <= d as real / 2.0
      && (d <= 200 ==> LivenessTick(d) == 50.0)
      && (d >= 200 ==> LivenessTick(d) <= d as real / 4.0)
      && (LivenessTick(d) >= d as real / 4.0 || LivenessTick(d) == 1000.0)
  {
  }

  lemma {:induction false} TerminatedForGood(w: Watch, events: seq<Event>, deadline: nat)
    requires w.terminated
    ensures Run(w, events, deadline).terminated
    decreases |events|
  {
    if events != [] {
      TerminatedForGood(Observe(w, events[0], deadline), events[1..], deadline);
    }
  }

  /** A check that falls a whole deadline after the last byte ends the connection. */
  lemma {:induction false} LateTickReaps(w: Watch, events: seq<Event>, last: real, check: real, deadline: nat)
    requires w.base + w.lastMs as real <= last
    requires forall i :: 0 <= i < |events| && events[i].Bytes? ==> events[i].at <= last
    requires Tick(check) in events && check >= last + deadline as real
    ensures Run(w, events, deadline).terminated
    decreases |events|
  {
    var v := Observe(w, events[0], deadline);
    if v.terminated {
      TerminatedForGood(v, events[1..], deadline);
    } else {
      assert events[0] != Tick(check);
      assert forall i :: 0 <= i < |events[1..]| ==> events[1..][i] == events[i + 1];
      assert Tick(check) in events[1..];
      LateTickReaps(v, events[1..], last, check, deadline);
    }
  }

  lemma {:induction false} OrderedFrom(events: seq<Event>, from: real, e: Event)
    requires Ordered(events, from) && e in events
    ensures from <= e.at
    decreases |events|
  {
    if e != events[0] {
      OrderedFrom(events[1..], events[0].at, e);
    }
  }

  /** Nothing arrives between `from` and `to`. */
  predicate Quiet(events: seq<Event>, from: real, to: real) {
    forall i :: 0 <= i < |events| && events[i].Bytes? ==> events[i].at <= from || events[i].at >= to
  }

  /** A check that falls into a quiet stretch, a whole deadline after it began, ends the connection,
      whatever arrives once the stretch is over. */
  lemma {:induction false} QuietTickReaps(w: Watch, events: seq<Event>, start: real, from: real, to: real,
                                          check: real, deadline: nat)
    requires Ordered(events, start) && w.base + w.lastMs as real <= from && Quiet(events, from, to)
    requires Tick(check) in events && from + deadline as real <= check < to
    ensures Run(w, events, deadline).terminated
    decreases |events|
  {
    var v := Observe(w, events[0], deadline);
    if v.terminated {
      TerminatedForGood(v, events[1..], deadline);
    } else {
      assert events[0] != Tick(check);
      assert forall i :: 0 <= i < |events[1..]| ==> events[1..][i] == events[i + 1];
      assert Tick(check) in events[1..];
      OrderedFrom(events[1..], events[0].at, Tick(check));
      QuietTickReaps(v, events[1..], events[0].at, from, to, check, deadline);
    }
  }

  /** The instants at which a ticker fires. */
  function GridTick(phase: real, period: real, k: nat): real {
    if k == 0 then phase else GridTick(phase, period, k - 1) + period
  }

  lemma {:induction false} GridShift(phase: real, period: real, k: nat)
    ensures GridTick(phase + period, period, k) == GridTick(phase, period, k + 1)
  {
    if k > 0 {
      GridShift(phase, period, k - 1);
    }
  }

  lemma Cancel(u: real, v: real, c: real)
    requires c > 0.0 && u * c == v * c
    ensures u == v
  {
  }

  lemma Distribute(a: real, c: real)
    ensures (a - 1.0) * c == a * c - c
  {
  }

  lemma OnePeriodLess(span: real, period: real)
    requires period > 0.0
    ensures (span - period) / period == span / period - 1.0
  {
    var a, b := span / period, (span - period) / period;
    assert a * period == span;
    assert b * period == span - period;
    Distribute(a, period);
    Cancel(b, a - 1.0, period);
  }

  /** How many whole periods fit in a span. */
  ghost function Periods(span: real, period: real): int
    requires period > 0.0
  {
    (span / period).Floor
  }

  lemma PeriodsPositive(span: real, period: real)
    requires period > 0.0 && span >= period
    ensures span / period >= 1.0
  {
  }

  /** The first tick of the grid at or after `x`. */
  lemma {:induction false} FirstTick(phase: real, period: real, x: real) returns (k: nat)
    requires period > 0.0 && phase <= x
    ensures x <= GridTick(phase, period, k) < x + period
    decreases Periods(x - phase, period)
  {
    if x == phase {
      k := 0;
    } else if x <= phase + period {
      k := 1;
    } else {
      OnePeriodLess(x - phase, period);
      PeriodsPositive(x - phase, period);
      assert x - (phase + period) == x - phase - period;
      var j := FirstTick(phase + period, period, x);
      GridShift(phase, period, j);
      k := j + 1;
    }
  }

  /** Every check of the grid that is due by `until` was served. */
  ghost predicate ServesGrid(events: seq<Event>, phase: real, period: real, until: real) {
    forall k: nat :: GridTick(phase, period, k) <= until ==> Tick(GridTick(phase, period, k)) in events
  }

  /** A connection that delivers nothing after `last` is terminated by every deadline within one
      check period of it, if checks are served on time. */
  lemma SilenceIsDetected(base: real, events: seq<Event>, last: real, deadline: nat, phase: real, period: real)
    requires base <= last && period > 0.0 && phase <= last + deadline as real
    requires forall i :: 0 <= i < |events| && events[i].Bytes? ==> events[i].at <= last
    requires ServesGrid(events, phase, period, last + deadline as real + period)
    ensures Run(Start(base), events, deadline).terminated
  {
    var k := FirstTick(phase, period, last + deadline as real);
    LateTickReaps(Start(base), events, last, GridTick(phase, period, k), deadline);
  }

  /** For every deadline the override accepts, with its own tick, a silent path trips within one and
      a half deadlines. */
  lemma SilentPathTrips(raw: Option<string>, base: real, events: seq<Event>, last: real, phase: real)
    requires ParseSilenceMs(raw).Some? && base <= last
    requires phase <= last + ParseSilenceMs(raw).value as real
    requires forall i :: 0 <= i < |events| && events[i].Bytes? ==> events[i].at <= last
    requires var d := ParseSilenceMs(raw).value;
      ServesGrid(events, phase, LivenessTick(d), last + 1.5 * d as real)
    ensures Run(Start(base), events, ParseSilenceMs(raw).value).terminated
  {
    var d := ParseSilenceMs(raw).value;
    TickIsAtMostHalf(raw);
    SilenceIsDetected(base, events, last, d, phase, LivenessTick(d));
  }

  // ----- The handles

  /** `ConnActivity`. */
  class Activity {
    const base: real
    var lastMs: int
    var terminated: bool

    ghost function View(): Watch
      reads this
    {
      Watch(base, lastMs, terminated)
    }

    constructor (now: real)
      ensures View() == Start(now)
    {
      base, lastMs, terminated := now, 0, false;
    }

    method Deliver(now: real)
      modifies this
      ensures View() == Observe(old(View()), Bytes(now), 0)
    {
      if !terminated {
        lastMs := (now - base).Floor;
      }
    }
  }

  /** `TransportReaper`, built only for a client that declared a heartbeat. */
  class TransportReaper {
    const activity: Activity
    const deadline: nat

    constructor (activity: Activity, declaredMs: nat, floor: nat)
      requires declaredMs > 0
      ensures this.activity == activity && Some(deadline) == TransportReapDeadline(declaredMs, floor)
    {
      this.activity := activity;
      this.deadline := TransportReapDeadline(declaredMs, floor).value;
    }

    /** `reap_if_due`: reports the silence exactly when it terminates the connection. */
    method ReapIfDue(now: real) returns (idle: Option<real>)
      modifies activity
      ensures activity.View() == Observe(old(activity.View()), Tick(now), deadline)
      ensures idle.Some? <==> Idle(old(activity.View()), now) >= deadline as real
      ensures idle.Some? ==> idle.value == Idle(old(activity.View()), now) && activity.terminated
    {
      var silent := now - activity.base - activity.lastMs as real;
      if silent < deadline as real {
        return None;
      }
      activity.terminated := true;
      return Some(silent);
    }
  }

  /** `TransportReaper::new`: a client that declared nothing gets no reaper. */
  method NewReaper(activity: Activity, declaredMs: nat, floor: nat) returns (reaper: TransportReaper?)
    ensures reaper == null <==> declaredMs == 0
    ensures reaper != null ==> fresh(reaper) && reaper.activity == activity
    ensures TransportReapDeadline(declaredMs, floor) == if reaper == null then None else Some(reaper.deadline)
  {
    if declaredMs == 0 {
      return null;
    }
    reaper := new TransportReaper(activity, declaredMs, floor);
  }

  /** `ConnActivities`: the liveness handles of a tunnel's extra carriers. */
  class Activities {
    var handles: seq<Activity>

    constructor ()
      ensures handles == []
    {
      handles := [];
    }

    method Track(a: Activity)
      modifies this
      ensures handles == old(handles) + [a]
    {
      handles := handles + [a];
    }

    /** Afterwards the carrier is not tracked, every other one still is, in order. */
    method Forget(a: Activity)
      modifies this
      ensures handles == Without(old(handles), a)
      ensures a !in handles && forall b :: b in old(handles) && b != a ==> b in handles
    {
      var kept: seq<Activity> := [];
      for k := 0 to |handles|
        invariant handles == old(handles)
        invariant kept == Without(handles[..k], a)
      {
        assert handles[..k + 1][..k] == handles[..k];
        if handles[k] != a {
          kept := kept + [handles[k]];
        }
      }
      assert handles[..|handles|] == handles;
      WithoutIs(handles, a);
      handles := kept;
    }

    /** Every tracked carrier is terminated and none is tracked any more. */
    method TerminateAll() returns (count: nat)
      modifies this, handles
      ensures count == |old(handles)| && handles == []
      ensures forall a :: a in old(handles) ==> a.terminated && a.lastMs == old(a.lastMs)
    {
      var carriers := handles;
      handles := [];
      for k := 0 to |carriers|
        invariant handles == [] && carriers == old(handles)
        invariant forall i :: 0 <= i < k ==> carriers[i].terminated
        invariant forall a :: a in carriers ==> a.lastMs == old(a.lastMs)
      {
        carriers[k].terminated := true;
      }
      count := |carriers|;
    }
  }

  function Without(handles: seq<Activity>, a: Activity): seq<Activity> {
    if handles == [] then []
    else
      var rest := Without(handles[..|handles| - 1], a);
      if handles[|handles| - 1] == a then rest else rest + [handles[|handles| - 1]]
  }

  lemma {:induction false} WithoutIs(handles: seq<Activity>, a: Activity)
    ensures a !in Without(handles, a)
    ensures forall b :: b in handles && b != a ==> b in Without(handles, a)
  {
    if handles != [] {
      WithoutIs(handles[..|handles| - 1], a);
    }
  }
}
