/** The sparse file sink of scripts/transfer_link_sparse_sink.py. */
module SparseSink {
  import opened ByteStream

  function Zeros(n: nat): seq<byte> { seq(n, _ => 0) }

  predicate AllZero(block: seq<byte>) { forall i :: 0 <= i < |block| ==> block[i] == 0 }

  /** The contents of a file once `block` was written at `pos`: a gap before it reads as zeros. */
  function Written(data: seq<byte>, pos: nat, block: seq<byte>): seq<byte> {
    var padded := if pos <= |data| then data else data + Zeros(pos - |data|);
    padded[..pos] + block + (if pos + |block| <= |padded| then padded[pos + |block|..] else [])
  }

  /** The contents once the file is cut or extended to `n` bytes. */
  function Truncated(data: seq<byte>, n: nat): seq<byte> {
    if n <= |data| then data[..n] else data + Zeros(n - |data|)
  }

  /** An open output file: its contents and the position the next write goes to. */
  class File {
    var data: seq<byte>
    var pos: nat

    constructor ()
      ensures data == [] && pos == 0
    {
      data, pos := [], 0;
    }

    /** Moving past the end leaves the contents alone. */
    method Seek(n: nat)
      modifies this
      ensures data == old(data) && pos == old(pos) + n
    {
      pos := pos + n;
    }

    method Write(block: seq<byte>)
      modifies this
      ensures data == Written(old(data), old(pos), block) && pos == old(pos) + |block|
    {
      data := Written(data, pos, block);
      pos := pos + |block|;
    }

    method Truncate(n: nat)
      modifies this
      ensures data == Truncated(old(data), n) && pos == old(pos)
    {
      data := Truncated(data, n);
    }
  }

  function CountZeroBlocks(blocks: seq<seq<byte>>): nat {
    if blocks == [] then 0
    else CountZeroBlocks(blocks[..|blocks| - 1]) + (if AllZero(blocks[|blocks| - 1]) then 1 else 0)
  }

  /** The file holds everything up to its end, and what is missing up to `pos` is zeros. */
  predicate Holds(data: seq<byte>, pos: nat, input: seq<byte>) {
    |data| <= pos == |input| && input == data + Zeros(pos - |data|)
  }

  lemma HoldsAfterSeek(data: seq<byte>, pos: nat, input: seq<byte>, block: seq<byte>)
    requires Holds(data, pos, input) && AllZero(block)
    ensures Holds(data, pos + |block|, input + block)
  {
  }

  lemma HoldsAfterWrite(data: seq<byte>, pos: nat, input: seq<byte>, block: seq<byte>)
    requires Holds(data, pos, input)
    ensures Holds(Written(data, pos, block), pos + |block|, input + block)
  {
  }

  /** The contents the loop leaves before the last truncate: mixed blocks written where they belong,
      zero blocks skipped. */
  function Laid(blocks: seq<seq<byte>>): seq<byte> {
    if blocks == [] then []
    else
      var front, block := blocks[..|blocks| - 1], blocks[|blocks| - 1];
      if AllZero(block) then Laid(front) else Written(Laid(front), |Concat(front)|, block)
  }

  lemma {:induction false} LaidHolds(blocks: seq<seq<byte>>)
    ensures Holds(Laid(blocks), |Concat(blocks)|, Concat(blocks))
  {
    if blocks != [] {
      var front, block := blocks[..|blocks| - 1], blocks[|blocks| - 1];
      LaidHolds(front);
      if AllZero(block) {
        HoldsAfterSeek(Laid(front), |Concat(front)|, Concat(front), block);
      } else {
        HoldsAfterWrite(Laid(front), |Concat(front)|, Concat(front), block);
      }
    }
  }

  /** The last truncate always restores the input, and it is needed exactly when the input ends in a
      block of zeros. */
  lemma TruncateNeededExactly(blocks: seq<seq<byte>>)
    requires forall i :: 0 <= i < |blocks| ==> blocks[i] != []
    ensures Truncated(Laid(blocks), |Concat(blocks)|) == Concat(blocks)
    ensures Laid(blocks) != Concat(blocks) <==> blocks != [] && AllZero(blocks[|blocks| - 1])
  {
    LaidHolds(blocks);
    if blocks != [] {
      var front, block := blocks[..|blocks| - 1], blocks[|blocks| - 1];
      LaidHolds(front);
      if !AllZero(block) {
        WrittenToTheEnd(Laid(front), Concat(front), block);
      }
    }
  }

  lemma WrittenToTheEnd(data: seq<byte>, input: seq<byte>, block: seq<byte>)
    requires Holds(data, |input|, input)
    ensures Written(data, |input|, block) == input + block
  {
  }

  /** For every way the input is cut into blocks the file reads back as exactly the input, holes and
      all; the total, the hashed bytes and the number of skipped blocks are what they claim to be. */
  method Sink(blocks: seq<seq<byte>>, output: File)
    returns (total: nat, zeroBlocks: nat, hashed: seq<byte>)
    requires output.data == [] && output.pos == 0
    requires forall i :: 0 <= i < |blocks| ==> blocks[i] != []
    modifies output
    ensures output.data == Concat(blocks)
    ensures total == |output.data| && hashed == Concat(blocks) && zeroBlocks == CountZeroBlocks(blocks)
  {
    total, zeroBlocks, hashed := 0, 0, [];
    for k := 0 to |blocks|
      invariant hashed == Concat(blocks[..k]) && zeroBlocks == CountZeroBlocks(blocks[..k])
      invariant total == |hashed| == output.pos && output.data == Laid(blocks[..k])
    {
      var block := blocks[k];
      ConcatSnoc(blocks, k);
      assert blocks[..k + 1][..k] == blocks[..k];
      if AllZero(block) {
        output.Seek(|block|);
        zeroBlocks := zeroBlocks + 1;
      } else {
        output.Write(block);
      }
      hashed := hashed + block;
      total := total + |block|;
    }
    assert blocks[..|blocks|] == blocks;
    TruncateNeededExactly(blocks);
    output.Truncate(total);
  }
}
