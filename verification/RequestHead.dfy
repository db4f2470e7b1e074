/** A whole HTTP request against the two readers of its head: where the head ends, where the edge's
    reader and the gate stop, and which headers the gate judges it by. */
module RequestHead {
  import opened Basics
  import opened ByteStream
  import opened Utf8Text
  import opened BasicAuth
  import HeadScan
  import AuthGate

  /** A request or header line: not empty, and without line ends inside. */
  predicate HeaderLine(line: string) { line != [] && '\r' !in line && '\n' !in line }

  predicate HeaderLines(lines: seq<string>) {
    lines != [] && forall i :: 0 <= i < |lines| ==> HeaderLine(lines[i])
  }

  /** The bytes of a head: its lines, and the empty line that ends it. */
  function Head(lines: seq<string>): seq<byte> { Utf8(Joined(lines) + "\r\n") }

  // ----- The empty line is the first one

  lemma {:induction false} NoCarriageReturn(line: string)
    requires '\r' !in line
    ensures CR !in Utf8(line)
  {
    if line != [] {
      NoCarriageReturn(line[1..]);
      assert line[0] != '\r';
      CharWithout(line[0]);
    }
  }

  lemma CharWithout(c: char)
    requires c != '\r'
    ensures CR !in Utf8Char(c)
  {
  }

  lemma LineEnd()
    ensures Utf8("\r\n") == [CR, LF]
  {
    assert "\r\n"[1..] == "\n" && "\n"[1..] == "";
    assert Utf8("\n") == [LF];
  }

  /** The head, line by line. */
  lemma HeadFront(lines: seq<string>)
    requires lines != []
    ensures Head(lines) == Utf8(lines[0]) + ([CR, LF] + Head(lines[1..]))
  {
    var tail := Joined(lines[1..]) + "\r\n";
    assert Joined(lines) + "\r\n" == lines[0] + ("\r\n" + tail);
    Utf8Concat(lines[0], "\r\n" + tail);
    Utf8Concat("\r\n", tail);
    LineEnd();
  }

  lemma HeadStart(lines: seq<string>)
    requires lines == [] || HeaderLines(lines)
    ensures |Head(lines)| >= 2
    ensures if lines == [] then Head(lines) == [CR, LF] else Head(lines)[0] != CR
  {
    LineEnd();
    if lines == [] {
      assert Joined(lines) + "\r\n" == "\r\n";
    } else {
      HeadFront(lines);
      NoCarriageReturn(lines[0]);
      CharIsDecoded(lines[0][0], []);
      assert Utf8(lines[0])[0] in Utf8(lines[0]);
    }
  }

  lemma ShiftTerminator(a: seq<byte>, b: seq<byte>, i: nat)
    requires i >= |a|
    ensures TerminatorAt(a + b, i) <==> TerminatorAt(b, i - |a|)
  {
  }

  /** A line's bytes and its end hold no terminator, unless the empty line follows. */
  lemma TerminatorAcross(line: seq<byte>, next: seq<byte>, i: nat)
    requires CR !in line && |next| >= 2 && i < |line| + 2
    ensures TerminatorAt(line + ([CR, LF] + next), i) <==> i == |line| && next[0] == CR && next[1] == LF
  {
    var s := line + ([CR, LF] + next);
    if i < |line| {
      assert s[i] == line[i] && line[i] in line;
    } else {
      assert s[|line|] == CR && s[|line| + 1] == LF && s[|line| + 2] == next[0] && s[|line| + 3] == next[1];
    }
  }

  /** Where a terminator can be: across the end of the first line, or in what follows it. */
  lemma TerminatorInFront(lines: seq<string>, i: nat)
    requires HeaderLines(lines)
    ensures var n := |Utf8(lines[0])| + 2;
      TerminatorAt(Head(lines), i) <==>
        if i < n then i + 2 == n && lines[1..] == [] else TerminatorAt(Head(lines[1..]), i - n)
    ensures |Head(lines)| == |Utf8(lines[0])| + 2 + |Head(lines[1..])|
  {
    var line, rest := Utf8(lines[0]), lines[1..];
    HeadFront(lines);
    HeadStart(rest);
    NoCarriageReturn(lines[0]);
    if i < |line| + 2 {
      TerminatorAcross(line, Head(rest), i);
    } else {
      assert Head(lines) == (line + [CR, LF]) + Head(rest);
      ShiftTerminator(line + [CR, LF], Head(rest), i);
    }
  }

  /** The terminator of a head is its last four bytes, and there is no other. */
  lemma {:induction false} HeadEndsOnce(lines: seq<string>, i: nat)
    requires HeaderLines(lines)
    ensures TerminatorAt(Head(lines), i) <==> i + 4 == |Head(lines)|
    decreases |lines|
  {
    var n := |Utf8(lines[0])| + 2;
    TerminatorInFront(lines, i);
    if lines[1..] == [] {
      HeadStart([]);
    } else {
      HeadIsLong(lines[1..]);
      if i >= n {
        HeadEndsOnce(lines[1..], i - n);
      }
    }
  }

  lemma HeadIsLong(lines: seq<string>)
    requires HeaderLines(lines)
    ensures |Head(lines)| >= 5
  {
    HeadFront(lines);
    HeadStart(lines[1..]);
    CharIsDecoded(lines[0][0], []);
  }

  /** A prefix of a request holds a terminator exactly when it holds the whole head. */
  lemma TerminatorMeansHead(lines: seq<string>, body: seq<byte>, prefix: seq<byte>)
    requires HeaderLines(lines) && prefix <= Head(lines) + body
    ensures |prefix| < |Head(lines)| ==> !HasTerminator(prefix)
    ensures |prefix| >= |Head(lines)| ==> HasTerminator(prefix)
  {
    var head := Head(lines);
    HeadIsLong(lines);
    if |prefix| < |head| && HasTerminator(prefix) {
      var i: nat :| i < |prefix| && TerminatorAt(prefix, i);
      assert TerminatorAt(head, i);
      HeadEndsOnce(lines, i);
    }
    if |prefix| >= |head| {
      HeadEndsOnce(lines, |head| - 4);
      assert TerminatorAt(prefix, |head| - 4);
    }
  }

  // ----- Where the readers stop

  lemma PrefixOfStream(chunks: seq<seq<byte>>, k: nat)
    requires k <= |chunks|
    ensures Concat(chunks[..k]) <= Concat(chunks)
  {
    ConcatSplit(chunks, k);
  }

  /** However a request is cut into reads, the edge's reader stops with the read that brings the last
      byte of the head, if the head fits the cap of 16 KiB. */
  lemma ReaderStopsAtTheHead(lines: seq<string>, body: seq<byte>, chunks: seq<seq<byte>>, k: nat)
    requires HeaderLines(lines) && |Head(lines)| <= 16_384
    requires Concat(chunks) == Head(lines) + body && HeadScan.StopsAt(chunks, k)
    ensures k > 0 && |Concat(chunks[..k - 1])| < |Head(lines)| <= |Concat(chunks[..k])|
  {
    HeadIsLong(lines);
    PrefixOfStream(chunks, k);
    TerminatorMeansHead(lines, body, Concat(chunks[..k]));
    if k == |chunks| {
      assert chunks[..k] == chunks;
    }
    assert |Concat(chunks[..k])| >= |Head(lines)|;
    assert k > 0;
    PrefixOfStream(chunks, k - 1);
    TerminatorMeansHead(lines, body, Concat(chunks[..k - 1]));
    assert k - 1 > 0 ==> !HeadScan.Complete(chunks, k - 1);
  }

  /** And so does the gate, for a request that begins with a method name and a head of at most 8 KiB. */
  lemma GateStopsAtTheHead(lines: seq<string>, body: seq<byte>, chunks: seq<seq<byte>>, k: nat)
    requires HeaderLines(lines) && |Head(lines)| <= 8_192 && AuthGate.LooksLikeHttp(Head(lines))
    requires Concat(chunks) == Head(lines) + body && AuthGate.StopsAt(chunks, k)
    ensures |Concat(chunks[..k])| >= |Head(lines)| && AuthGate.LooksLikeHttp(Concat(chunks[..k]))
    ensures k > 0 && |Concat(chunks[..k - 1])| < |Head(lines)|
  {
    HeadIsLong(lines);
    PrefixOfStream(chunks, k);
    var prefix := Concat(chunks[..k]);
    TerminatorMeansHead(lines, body, prefix);
    if k == |chunks| {
      assert chunks[..k] == chunks;
    }
    LooksAlike(Head(lines), body, prefix);
    assert |prefix| >= |Head(lines)|;
    assert k > 0;
    PrefixOfStream(chunks, k - 1);
    TerminatorMeansHead(lines, body, Concat(chunks[..k - 1]));
  }

  /** From five bytes on a prefix looks like HTTP exactly when the head does. */
  lemma LooksAlike(head: seq<byte>, body: seq<byte>, prefix: seq<byte>)
    requires |head| >= 5 && |prefix| >= 5 && prefix <= head + body
    ensures AuthGate.LooksLikeHttp(prefix) <==> AuthGate.LooksLikeHttp(head)
  {
    var s := head + body;
    assert s == prefix + s[|prefix|..];
    AuthGate.VerdictIsStable(prefix, s[|prefix|..]);
    AuthGate.VerdictIsStable(head, body);
  }

  // ----- What the gate judges a request by

  lemma {:induction false} PresentedConcat(a: seq<string>, b: seq<string>)
    ensures Presented(a + b) == if Presented(a).Some? then Presented(a) else Presented(b)
    decreases |a|
  {
    if a == [] {
      assert a + b == b;
    } else {
      assert (a + b)[1..] == a[1..] + b;
      PresentedConcat(a[1..], b);
    }
  }

  lemma HeadText(lines: seq<string>, part: seq<byte>)
    ensures Lossy(Head(lines) + part) == Joined(lines) + ("\r\n" + Lossy(part))
  {
    LossyOfUtf8(Joined(lines) + "\r\n", part);
    Regroup3(Joined(lines), "\r\n", Lossy(part));
  }

  lemma Regroup3(a: string, b: string, c: string)
    ensures a + b + c == a + (b + c)
  {
  }

  lemma BlankLine(text: string)
    ensures Lines("\r\n" + text) == [""] + Lines(text)
  {
    FirstLine("", text);
    assert "" + "\r\n" + text == "\r\n" + text;
  }

  lemma HeadLines(lines: seq<string>, part: seq<byte>)
    requires HeaderLines(lines)
    ensures Lines(Lossy(Head(lines) + part)) == lines + ([""] + Lines(Lossy(part)))
  {
    HeadText(lines, part);
    LinesOfJoined(lines, "\r\n" + Lossy(part));
    BlankLine(Lossy(part));
  }

  /** What follows the head: the empty line, and a part of the body. */
  lemma HeadThenBody(lines: seq<string>, part: seq<byte>)
    requires HeaderLines(lines)
    ensures HeadToken(Head(lines) + part) ==
      if Presented(lines).Some? then Presented(lines) else Presented(Lines(Lossy(part)))
  {
    HeadLines(lines, part);
    PresentedConcat(lines, [""] + Lines(Lossy(part)));
    PresentedConcat([""], Lines(Lossy(part)));
    EmptyLinePresentsNothing();
  }

  lemma EmptyLinePresentsNothing()
    ensures Presented([""]).None?
  {
    assert [""][1..] == [];
  }

  lemma HeadAndPart(head: seq<byte>, body: seq<byte>, prefix: seq<byte>)
    requires prefix <= head + body && |prefix| >= |head|
    ensures |prefix| <= |head + body| && prefix == head + body[..|prefix| - |head|]
  {
  }

  /** Exactly what decides over a request, however it is cut into reads: the first Basic authorization
      header among its headers, and only if there is none, one among the lines of the body that arrived
      with the last read. */
  lemma RequestIsJudgedExactly(lines: seq<string>, body: seq<byte>, chunks: seq<seq<byte>>, k: nat, token: string)
    requires HeaderLines(lines) && |Head(lines)| <= 8_192 && AuthGate.LooksLikeHttp(Head(lines))
    requires Concat(chunks) == Head(lines) + body && AuthGate.StopsAt(chunks, k)
    ensures |Head(lines)| <= |Concat(chunks[..k])| <= |Head(lines) + body|
    ensures var part := body[..|Concat(chunks[..k])| - |Head(lines)|];
      AuthGate.Refused(Concat(chunks[..k]), token) <==>
        Some(token) != if Presented(lines).Some? then Presented(lines) else Presented(Lines(Lossy(part)))
  {
    GateStopsAtTheHead(lines, body, chunks, k);
    PrefixOfStream(chunks, k);
    HeadAndPart(Head(lines), body, Concat(chunks[..k]));
    HeadThenBody(lines, body[..|Concat(chunks[..k])| - |Head(lines)|]);
  }
}
