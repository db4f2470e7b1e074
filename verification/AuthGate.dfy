/** The read loop of the Basic-auth gate (src/basicauth.rs) and the replay of what it read
    (src/prefixed.rs, `gate_stream` in src/edge.rs). */
module AuthGate {
  import opened Basics
  import opened ByteStream
  import opened BasicAuth
  import Utf8Text

  const MAX_HEAD: nat := 8 * 1024
  const READ_SIZE: nat := 1024

  /** `GET `, `POST `, `PUT `, `HEAD `, `DELE`, `OPTI`, `PATC`, `TRAC`, `CONN`. */
  const HTTP_METHODS: seq<seq<byte>> := [
    [71, 69, 84, 32], [80, 79, 83, 84, 32], [80, 85, 84, 32], [72, 69, 65, 68, 32], [68, 69, 76, 69],
    [79, 80, 84, 73], [80, 65, 84, 67], [84, 82, 65, 67], [67, 79, 78, 78]]

  predicate LooksLikeHttp(head: seq<byte>) {
    exists i: nat | i < |HTTP_METHODS| :: HTTP_METHODS[i] <= head
  }

  /** The methods as a client writes them, or begins to. */
  const METHOD_NAMES: seq<string> := ["GET ", "POST ", "PUT ", "HEAD ", "DELE", "OPTI", "PATC", "TRAC", "CONN"]

  lemma MethodBytes(i: nat)
    requires i < |METHOD_NAMES|
    ensures |HTTP_METHODS| == |METHOD_NAMES| && HTTP_METHODS[i] == Utf8Text.Utf8(METHOD_NAMES[i])
    ensures Utf8Text.Ascii(METHOD_NAMES[i])
  {
    var m := METHOD_NAMES[i];
    AsciiBytes(m);
    assert HTTP_METHODS[i] == seq(|m|, k requires 0 <= k < |m| => m[k] as int);
  }

  lemma {:induction false} AsciiBytes(t: string)
    requires Utf8Text.Ascii(t)
    ensures Utf8Text.Utf8(t) == seq(|t|, k requires 0 <= k < |t| => t[k] as int)
  {
    if t != [] {
      AsciiBytes(t[1..]);
    }
  }

  /** A stream looks like HTTP exactly when its text begins with one of the method names. */
  lemma HttpExactly(head: seq<byte>)
    ensures LooksLikeHttp(head) <==>
      exists i: nat | i < |METHOD_NAMES| :: METHOD_NAMES[i] <= Utf8Text.Lossy(head)
  {
    if LooksLikeHttp(head) {
      var i: nat :| i < |HTTP_METHODS| && HTTP_METHODS[i] <= head;
      MethodBytes(i);
      Utf8Text.LossyOfUtf8(METHOD_NAMES[i], head[|HTTP_METHODS[i]|..]);
      assert head == HTTP_METHODS[i] + head[|HTTP_METHODS[i]|..];
      assert METHOD_NAMES[i] <= Utf8Text.Lossy(head);
    }
    if i: nat :| i < |METHOD_NAMES| && METHOD_NAMES[i] <= Utf8Text.Lossy(head) {
      MethodBytes(i);
      Utf8Text.AsciiWasThere(METHOD_NAMES[i], head);
      assert HTTP_METHODS[i] <= head;
    }
  }

  /** Five bytes settle the question, whatever follows. */
  lemma VerdictIsStable(a: seq<byte>, b: seq<byte>)
    requires |a| >= 5
    ensures LooksLikeHttp(a) <==> LooksLikeHttp(a + b)
  {
  }

  predicate Reads(chunks: seq<seq<byte>>) {
    forall i :: 0 <= i < |chunks| ==> 0 < |chunks[i]| <= READ_SIZE
  }

  /** Enough was read to decide. */
  predicate Decided(buf: seq<byte>) {
    (|buf| >= 8 && !LooksLikeHttp(buf)) || HasTerminator(buf) || |buf| >= MAX_HEAD
  }

  /** The gate stops after the first read that decides, or when the reads end: at the end of the
      stream, or because the overall timeout passed. */
  ghost predicate StopsAt(chunks: seq<seq<byte>>, k: nat) {
    && k <= |chunks|
    && (k == |chunks| || Decided(Concat(chunks[..k])))
    && forall j :: 0 <= j < k ==> !Decided(Concat(chunks[..j]))
  }

  /** The gate's bounded read loop. */
  method ReadHead(chunks: seq<seq<byte>>) returns (prefix: seq<byte>, k: nat)
    requires Reads(chunks)
    ensures StopsAt(chunks, k) && prefix == Concat(chunks[..k]) && |prefix| < MAX_HEAD + READ_SIZE == 9_216
  {
    prefix, k := [], 0;
    while k < |chunks|
      invariant k <= |chunks| && prefix == Concat(chunks[..k])
      invariant !Decided(prefix)
      invariant forall j :: 0 <= j <= k ==> !Decided(Concat(chunks[..j]))
    {
      ConcatSnoc(chunks, k);
      prefix := prefix + chunks[k];
      k := k + 1;
      if |prefix| >= 8 && !LooksLikeHttp(prefix) {
        break;
      }
      if HasTerminator(prefix) || |prefix| >= MAX_HEAD {
        break;
      }
    }
  }

  /** A request the gate answers itself. */
  predicate Refused(head: seq<byte>, token: string) {
    LooksLikeHttp(head) && HeadToken(head) != Some(token)
  }

  /** `gate`, on a stream that arrives as `chunks` until the timeout and continues with `later`: every
      byte it takes from the stream is in the prefix it hands on, and it refuses exactly a request
      that looks like HTTP and does not present the token. */
  method Gate(chunks: seq<seq<byte>>, later: seq<byte>, token: string)
    returns (forward: bool, prefix: seq<byte>, k: nat)
    requires Reads(chunks)
    ensures StopsAt(chunks, k) && prefix == Concat(chunks[..k]) && |prefix| < MAX_HEAD + READ_SIZE == 9_216
    ensures prefix + (Concat(chunks[k..]) + later) == Concat(chunks) + later
    ensures forward <==> !Refused(prefix, token)
  {
    prefix, k := ReadHead(chunks);
    StreamSplits(chunks, later, k);
    if LooksLikeHttp(prefix) {
      forward := Authorized(prefix, token);
    } else {
      forward := true;
    }
  }

  /** The first two bytes tell the methods apart. */
  function Initials(i: nat): (int, int)
    requires i < |HTTP_METHODS|
  {
    match i
    case 0 => (71, 69)
    case 1 => (80, 79)
    case 2 => (80, 85)
    case 3 => (72, 69)
    case 4 => (68, 69)
    case 5 => (79, 80)
    case 6 => (80, 65)
    case 7 => (84, 82)
    case _ => (67, 79)
  }

  lemma MethodInitials(i: nat)
    requires i < |HTTP_METHODS|
    ensures 4 <= |HTTP_METHODS[i]| <= 5 && (HTTP_METHODS[i][0], HTTP_METHODS[i][1]) == Initials(i)
    ensures forall c :: c in HTTP_METHODS[i] ==> c != CR
  {
  }

  /** No method name begins another. */
  lemma MethodsDiffer(i: nat, j: nat)
    requires i < |HTTP_METHODS| && j < |HTTP_METHODS| && HTTP_METHODS[i] <= HTTP_METHODS[j]
    ensures i == j
  {
    MethodInitials(i);
    MethodInitials(j);
    assert HTTP_METHODS[i][0] == HTTP_METHODS[j][0] && HTTP_METHODS[i][1] == HTTP_METHODS[j][1];
  }

  /** What was read is a proper start of a method name that the stream goes on to spell out. */
  predicate CutShort(prefix: seq<byte>, stream: seq<byte>) {
    exists i: nat | i < |HTTP_METHODS| :: prefix < HTTP_METHODS[i] && HTTP_METHODS[i] <= stream
  }

  lemma MistakenNeedsCut(prefix: seq<byte>, rest: seq<byte>)
    requires !LooksLikeHttp(prefix) && LooksLikeHttp(prefix + rest)
    ensures CutShort(prefix, prefix + rest) && !Decided(prefix)
  {
    var i: nat :| i < |HTTP_METHODS| && HTTP_METHODS[i] <= prefix + rest;
    MethodInitials(i);
    assert prefix < HTTP_METHODS[i];
    assert forall k :: 0 <= k < |prefix| ==> prefix[k] == HTTP_METHODS[i][k];
    assert forall k :: 0 <= k < |prefix| ==> prefix[k] != CR;
  }

  lemma CutIsMistaken(prefix: seq<byte>, stream: seq<byte>)
    requires CutShort(prefix, stream)
    ensures !LooksLikeHttp(prefix) && LooksLikeHttp(stream)
  {
    var i: nat :| i < |HTTP_METHODS| && prefix < HTTP_METHODS[i] && HTTP_METHODS[i] <= stream;
    if LooksLikeHttp(prefix) {
      var j: nat :| j < |HTTP_METHODS| && HTTP_METHODS[j] <= prefix;
      MethodsDiffer(j, i);
    }
  }

  lemma MistakenIffCut(prefix: seq<byte>, rest: seq<byte>)
    ensures !LooksLikeHttp(prefix) && LooksLikeHttp(prefix + rest) <==> CutShort(prefix, prefix + rest)
    ensures CutShort(prefix, prefix + rest) ==> !Decided(prefix)
  {
    if !LooksLikeHttp(prefix) && LooksLikeHttp(prefix + rest) {
      MistakenNeedsCut(prefix, rest);
    }
    if CutShort(prefix, prefix + rest) {
      CutIsMistaken(prefix, prefix + rest);
    }
  }

  /** Exactly when an HTTP stream is taken for something else, and so let through unchecked: when the
      reads ended inside its method name. */
  lemma MistakenExactly(chunks: seq<seq<byte>>, later: seq<byte>, k: nat)
    requires StopsAt(chunks, k)
    ensures var prefix, stream := Concat(chunks[..k]), Concat(chunks) + later;
      !LooksLikeHttp(prefix) && LooksLikeHttp(stream) <==> k == |chunks| && CutShort(prefix, stream)
  {
    StreamSplits(chunks, later, k);
    MistakenIffCut(Concat(chunks[..k]), Concat(chunks[k..]) + later);
  }

  lemma StreamSplits(chunks: seq<seq<byte>>, later: seq<byte>, k: nat)
    requires k <= |chunks|
    ensures Concat(chunks) + later == Concat(chunks[..k]) + (Concat(chunks[k..]) + later)
  {
    ConcatSplit(chunks, k);
    Regroup(Concat(chunks[..k]), Concat(chunks[k..]), later);
  }

  /** The verdict the gate acts on is the stream's, not the chunking's: once eight bytes were read it
      agrees with every longer prefix and with the whole stream. */
  lemma GateVerdictIsTheStreams(chunks: seq<seq<byte>>, k: nat, j: nat)
    requires k <= j <= |chunks| && |Concat(chunks[..k])| >= 8
    ensures LooksLikeHttp(Concat(chunks[..k])) <==> LooksLikeHttp(Concat(chunks[..j]))
    ensures LooksLikeHttp(Concat(chunks[..k])) <==> LooksLikeHttp(Concat(chunks))
  {
    ConcatSplit(chunks[..j], k);
    assert chunks[..j][..k] == chunks[..k];
    ConcatSplit(chunks, k);
    VerdictIsStable(Concat(chunks[..k]), Concat(chunks[..j][k..]));
    VerdictIsStable(Concat(chunks[..k]), Concat(chunks[k..]));
  }

  /** Traffic that is not HTTP is let go at once: the gate never asks for another read when it
      already holds eight bytes of it. */
  lemma OtherTrafficIsNotHeld(chunks: seq<seq<byte>>, k: nat)
    requires StopsAt(chunks, k) && k > 0 && !LooksLikeHttp(Concat(chunks))
    ensures |Concat(chunks[..k - 1])| < 8
  {
    if |Concat(chunks[..k - 1])| >= 8 {
      GateVerdictIsTheStreams(chunks, k - 1, k - 1);
    }
  }

  /** Two ways of cutting the same stream get the same classification, once each decided on eight
      bytes or more. */
  lemma ChunkingDoesNotMatter(c: seq<seq<byte>>, j: nat, d: seq<seq<byte>>, k: nat)
    requires Concat(c) == Concat(d) && j <= |c| && k <= |d|
    requires |Concat(c[..j])| >= 8 && |Concat(d[..k])| >= 8
    ensures LooksLikeHttp(Concat(c[..j])) <==> LooksLikeHttp(Concat(d[..k]))
  {
    GateVerdictIsTheStreams(c, j, j);
    GateVerdictIsTheStreams(d, k, k);
  }

  /** `Prefixed`: replays `prefix` before reading on from the stream behind it. */
  class Prefixed {
    const prefix: seq<byte>
    var pos: nat
    var inner: seq<byte>

    ghost predicate Valid()
      reads this
    {
      pos <= |prefix|
    }

    /** What is still to be read. */
    ghost function View(): seq<byte>
      reads this
      requires Valid()
    {
      prefix[pos..] + inner
    }

    constructor (prefix: seq<byte>, inner: seq<byte>)
      ensures Valid() && View() == prefix + inner
    {
      this.prefix := prefix;
      this.inner := inner;
      pos := 0;
    }

    /** One read into a buffer with `room` bytes, of which the stream has up to `ready` available. */
    method Read(room: nat, ready: nat) returns (got: seq<byte>)
      requires Valid()
      modifies this
      ensures Valid() && old(View()) == got + View() && |got| <= room
      ensures room > 0 && old(pos) < |prefix| ==> got != []
      ensures old(pos) < |prefix| ==> inner == old(inner)
      ensures old(pos) == |prefix| ==> |got| == Min(Min(ready, room), |old(inner)|)
    {
      if pos < |prefix| {
        var n := Min(|prefix| - pos, room);
        got := prefix[pos..pos + n];
        assert prefix[pos..] == got + prefix[pos + n..];
        pos := pos + n;
      } else {
        var n := Min(Min(ready, room), |inner|);
        got := inner[..n];
        inner := inner[n..];
      }
    }
  }

  /** One read: the reader's buffer and what the stream has ready. */
  datatype Attempt = Attempt(room: nat, ready: nat)

  /** Whatever the reader's buffers and however the stream trickles in, what it gets is a prefix of
      what was there. */
  method ReadMany(p: Prefixed, attempts: seq<Attempt>) returns (got: seq<byte>)
    requires p.Valid()
    modifies p
    ensures p.Valid() && old(p.View()) == got + p.View()
  {
    got := [];
    for i := 0 to |attempts|
      invariant p.Valid() && old(p.View()) == got + p.View()
    {
      var piece := p.Read(attempts[i].room, attempts[i].ready);
      got := got + piece;
    }
  }

  /** `gate_stream`: a connection is refused exactly when what the gate read is an unauthorized HTTP
      request, and one that is let through can be read from its very first byte. */
  method GateStream(chunks: seq<seq<byte>>, later: seq<byte>, token: string) returns (stream: Prefixed?)
    requires Reads(chunks)
    ensures stream != null ==> fresh(stream) && stream.Valid() && stream.View() == Concat(chunks) + later
    ensures exists k: nat ::
      StopsAt(chunks, k) && (stream == null <==> Refused(Concat(chunks[..k]), token))
  {
    var forward, prefix, k := Gate(chunks, later, token);
    if forward {
      stream := new Prefixed(prefix, Concat(chunks[k..]) + later);
    } else {
      stream := null;
    }
  }

  /** A request that begins with a method name and does not present the token is refused, whatever
      else it says. */
  lemma UnauthorizedIsRefused(i: nat, rest: seq<byte>, token: string)
    requires i < |METHOD_NAMES|
    requires HeadToken(Utf8Text.Utf8(METHOD_NAMES[i]) + rest) != Some(token)
    ensures Refused(Utf8Text.Utf8(METHOD_NAMES[i]) + rest, token)
  {
    MethodBytes(i);
    assert HTTP_METHODS[i] <= Utf8Text.Utf8(METHOD_NAMES[i]) + rest;
  }

  /** A correct request is never refused, however it is cut into reads: once its credentials were
      read, no matter what else was. */
  lemma CorrectRequestPasses(creds: string, name: string, scheme: string, before: seq<string>, head: seq<byte>)
    requires Parse(creds).Some? && Recognised(name, scheme) && Leading(before)
    requires Utf8Text.Utf8(Joined(before + [Header(name, scheme, Parse(creds).value)])) <= head
    ensures !Refused(head, Parse(creds).value)
  {
    var front := Utf8Text.Utf8(Joined(before + [Header(name, scheme, Parse(creds).value)]));
    assert head == front + head[|front|..];
    CorrectHeaderIsAccepted(creds, name, scheme, before, head[|front|..]);
  }
}
