/** The incremental request-head reader of src/edge.rs. */
module HeadScan {
  import opened ByteStream

  const MAX_REQUEST_HEAD: nat := 16 * 1024
  const READ_SIZE: nat := 512

  /** Every read returns between one byte and a full buffer; end of stream is the end of the list. */
  predicate Reads(chunks: seq<seq<byte>>, size: nat) {
    forall i :: 0 <= i < |chunks| ==> 0 < |chunks[i]| <= size
  }

  /** The reference: after `k` reads, rescanning the whole buffer finds the end of the head, or the
      cap is reached. */
  predicate Complete(chunks: seq<seq<byte>>, k: nat)
    requires k <= |chunks|
  {
    k > 0 && (HasTerminator(Concat(chunks[..k])) || |Concat(chunks[..k])| >= MAX_REQUEST_HEAD)
  }

  /** `k` is the first read after which a full rescan would stop, or the end of the stream. */
  ghost predicate StopsAt(chunks: seq<seq<byte>>, k: nat) {
    && k <= |chunks|
    && (k == |chunks| || Complete(chunks, k))
    && forall j :: 0 <= j < k ==> !Complete(chunks, j)
  }

  /** `read_request_head` stops at the same read as rescanning the whole buffer would, for every way
      the stream is cut into reads, and returns what was read up to there. */
  method ReadRequestHead(chunks: seq<seq<byte>>) returns (buf: seq<byte>, k: nat)
    requires Reads(chunks, READ_SIZE)
    ensures StopsAt(chunks, k) && buf == Concat(chunks[..k])
    ensures buf <= Concat(chunks) && |buf| < MAX_REQUEST_HEAD + READ_SIZE == 16_896
  {
    buf, k := [], 0;
    while k < |chunks|
      invariant k <= |chunks| && buf == Concat(chunks[..k])
      invariant !HasTerminator(buf) && |buf| < MAX_REQUEST_HEAD
      invariant forall j :: 0 <= j <= k ==> !Complete(chunks, j)
    {
      var scanFrom := if |buf| < 3 then 0 else |buf| - 3;
      OverlapSuffices(buf, chunks[k], scanFrom);
      ConcatSnoc(chunks, k);
      buf := buf + chunks[k];
      k := k + 1;
      if HasTerminator(buf[scanFrom..]) || |buf| >= MAX_REQUEST_HEAD {
        break;
      }
    }
    ConcatSplit(chunks, k);
  }

  /** Whatever the cut, the reader never stops short of a terminator it could have had: if the stream
      holds one that ends before the cap, the head read holds it too. */
  lemma NoHeadIsMissed(chunks: seq<seq<byte>>, k: nat, i: nat)
    requires StopsAt(chunks, k) && TerminatorAt(Concat(chunks), i) && i + 4 <= MAX_REQUEST_HEAD
    ensures HasTerminator(Concat(chunks[..k]))
  {
    var s, head := Concat(chunks), Concat(chunks[..k]);
    ConcatSplit(chunks, k);
    if k == |chunks| {
      assert chunks[..k] == chunks;
      assert TerminatorAt(head, i);
    } else if !HasTerminator(head) {
      assert |head| >= MAX_REQUEST_HEAD;
      assert TerminatorAt(head, i);
    }
  }
}
