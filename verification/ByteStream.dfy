/** Bytes, streams read in pieces, and the end of an HTTP request head. */
module ByteStream {

  type byte = x: int | 0 <= x < 256

  const CR: byte := 13
  const LF: byte := 10

  /** The stream that arrives as `chunks`. */
  function Concat(chunks: seq<seq<byte>>): seq<byte> {
    if chunks == [] then [] else Concat(chunks[..|chunks| - 1]) + chunks[|chunks| - 1]
  }

  lemma {:induction false} ConcatSplit(chunks: seq<seq<byte>>, k: nat)
    requires k <= |chunks|
    ensures Concat(chunks) == Concat(chunks[..k]) + Concat(chunks[k..])
    decreases |chunks|
  {
    if k == |chunks| {
      assert chunks[..k] == chunks;
    } else {
      var n := |chunks| - 1;
      ConcatSplit(chunks[..n], k);
      assert chunks[..n][..k] == chunks[..k];
      assert chunks[k..][..n - k] == chunks[..n][k..];
    }
  }

  lemma ConcatSnoc(chunks: seq<seq<byte>>, k: nat)
    requires k < |chunks|
    ensures Concat(chunks[..k + 1]) == Concat(chunks[..k]) + chunks[k]
  {
    assert chunks[..k + 1][..k] == chunks[..k];
  }

  lemma Regroup(a: seq<byte>, b: seq<byte>, c: seq<byte>)
    ensures a + b + c == a + (b + c)
  {
  }

  predicate TerminatorAt(s: seq<byte>, i: nat) {
    i + 4 <= |s| && s[i] == CR && s[i + 1] == LF && s[i + 2] == CR && s[i + 3] == LF
  }

  /** `windows(4).any(|w| w == b"\r\n\r\n")`. */
  predicate HasTerminator(s: seq<byte>) {
    exists i: nat | i < |s| :: TerminatorAt(s, i)
  }

  /** Why three bytes of overlap suffice: a terminator that the old bytes did not hold starts no
      earlier than three bytes before their end. */
  lemma OverlapSuffices(a: seq<byte>, b: seq<byte>, from: nat)
    requires !HasTerminator(a) && from == (if |a| < 3 then 0 else |a| - 3)
    ensures HasTerminator((a + b)[from..]) <==> HasTerminator(a + b)
  {
    var s := a + b;
    if HasTerminator(s[from..]) {
      var i: nat :| i < |s[from..]| && TerminatorAt(s[from..], i);
      assert TerminatorAt(s, i + from);
    }
    if HasTerminator(s) {
      var i: nat :| i < |s| && TerminatorAt(s, i);
      if i + 4 <= |a| {
        assert TerminatorAt(a, i);
        assert false;
      }
      assert TerminatorAt(s[from..], i - from);
    }
  }
}
