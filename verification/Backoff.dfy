/** Capped exponential backoff (`reconnect::Backoff`), in whole seconds held in 64 bits. */
module Backoff {
  import opened Basics

  datatype State = State(next: nat, cap: nat, initial: nat)

  datatype Op = Next | Reset

  function New(initial: nat, cap: nat): State { State(Min(initial, cap), cap, initial) }

  /** The state after a delay was taken: doubled, saturating, up to the cap. */
  function Advance(b: State): State { b.(next := Min(Min(b.next * 2, U64_MAX), b.cap)) }

  function Rewind(b: State): State { b.(next := b.initial) }

  /** The delays a history of operations hands out. */
  function Delays(b: State, ops: seq<Op>): seq<nat>
    decreases |ops|
  {
    if ops == [] then []
    else if ops[0].Next? then [b.next] + Delays(Advance(b), ops[1..])
    else Delays(Rewind(b), ops[1..])
  }

  function Nexts(k: nat): seq<Op> { seq(k, _ => Next) }

  lemma {:induction false} DelaysFrom(b: State, k: nat, n: nat)
    requires k < n && b.cap <= U64_MAX && b.next <= b.cap
    ensures |Delays(b, Nexts(n))| == n
    ensures Delays(b, Nexts(n))[k] == Min(b.next * Pow2(k), b.cap)
    decreases n
  {
    assert Nexts(n)[1..] == Nexts(n - 1);
    if k > 0 {
      DelaysFrom(Advance(b), k - 1, n - 1);
      Doubling(b.next, k, b.cap);
    } else if n > 1 {
      DelaysFrom(Advance(b), 0, n - 1);
    }
  }

  lemma Doubling(x: nat, k: nat, cap: nat)
    requires k > 0
    ensures Min(Min(x * 2, cap) * Pow2(k - 1), cap) == Min(x * Pow2(k), cap)
  {
    var p := Pow2(k - 1);
    PowPositive(k - 1);
    assert x * Pow2(k) == (x * 2) * p;
    if x * 2 > cap {
      Scale(cap, x * 2, p);
    }
  }

  lemma Scale(cap: nat, y: nat, p: nat)
    requires p > 0 && y > cap
    ensures cap * p >= cap && y * p >= cap
  {
  }

  /** The sequence a fresh backoff yields: the initial delay doubled `k` times, never above the cap. */
  lemma DelaySequence(initial: nat, cap: nat, k: nat, n: nat)
    requires k < n && cap <= U64_MAX
    ensures |Delays(New(initial, cap), Nexts(n))| == n
    ensures Delays(New(initial, cap), Nexts(n))[k] == Min(initial * Pow2(k), cap)
  {
    DelaysFrom(New(initial, cap), k, n);
    PowPositive(k);
    if initial > cap {
      Scale(cap, initial, Pow2(k));
    }
  }

  lemma {:induction false} CappedRun(b: State, ops: seq<Op>)
    requires b.next <= b.cap && b.initial <= b.cap
    ensures forall d :: d in Delays(b, ops) ==> d <= b.cap
    decreases |ops|
  {
    if ops != [] {
      CappedRun(if ops[0].Next? then Advance(b) else Rewind(b), ops[1..]);
    }
  }

  /** The cap holds over every history of delays and resets exactly when the initial delay respects
      it: `new_with` clamps the initial delay, `reset` does not. */
  lemma CapHoldsExactly(initial: nat, cap: nat)
    ensures (forall ops: seq<Op> :: forall d :: d in Delays(New(initial, cap), ops) ==> d <= cap)
            <==> initial <= cap
  {
    if initial <= cap {
      forall ops: seq<Op>
        ensures forall d :: d in Delays(New(initial, cap), ops) ==> d <= cap
      {
        CappedRun(New(initial, cap), ops);
      }
    } else {
      var ops := [Reset, Next];
      assert ops[1..] == [Next];
      assert Delays(New(initial, cap), ops) == Delays(Rewind(New(initial, cap)), [Next]);
      assert Delays(Rewind(New(initial, cap)), [Next])[0] == initial;
      assert initial in Delays(New(initial, cap), ops);
    }
  }

  /** The state after a history of operations. */
  function After(b: State, ops: seq<Op>): State
    decreases |ops|
  {
    if ops == [] then b else After(if ops[0].Next? then Advance(b) else Rewind(b), ops[1..])
  }

  lemma {:induction false} AfterKeeps(b: State, ops: seq<Op>)
    ensures After(b, ops).cap == b.cap && After(b, ops).initial == b.initial
    decreases |ops|
  {
    if ops != [] {
      AfterKeeps(if ops[0].Next? then Advance(b) else Rewind(b), ops[1..]);
    }
  }

  /** A reset forgets the whole history: the sequence starts over from the initial delay. */
  lemma ResetStartsOver(initial: nat, cap: nat, before: seq<Op>, k: nat, n: nat)
    requires initial <= cap <= U64_MAX && k < n
    ensures var ops := [Reset] + Nexts(n);
      && |Delays(After(New(initial, cap), before), ops)| == n
      && Delays(After(New(initial, cap), before), ops)[k] == Min(initial * Pow2(k), cap)
  {
    var b := After(New(initial, cap), before);
    AfterKeeps(New(initial, cap), before);
    assert ([Reset] + Nexts(n))[1..] == Nexts(n);
    DelaysFrom(Rewind(b), k, n);
  }

  class Timer {
    var next: nat
    const cap: nat
    const initial: nat

    ghost function View(): State
      reads this
    {
      State(next, cap, initial)
    }

    constructor (initial: nat, cap: nat)
      ensures View() == New(initial, cap)
    {
      this.cap := cap;
      this.initial := initial;
      next := if initial <= cap then initial else cap;
    }

    method NextDelay() returns (delay: nat)
      modifies this
      ensures delay == old(next) && View() == Advance(old(View()))
      ensures old(next) <= cap ==> next <= cap && (old(next) > 0 && old(next) < cap && cap <= U64_MAX ==> next > delay)
    {
      delay := next;
      var doubled := if next * 2 <= U64_MAX then next * 2 else U64_MAX;
      next := if doubled <= cap then doubled else cap;
    }

    method ResetDelay()
      modifies this
      ensures View() == Rewind(old(View()))
    {
      next := initial;
    }
  }
}
