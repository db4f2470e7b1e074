/** HTTP Basic credentials (section 2 of RFC 7617) in src/basicauth.rs: parsing, the request-head scan
    and the token comparison. */
module BasicAuth {
  import opened Basics
  import opened ByteStream
  import opened Base64
  import opened Text
  import opened Utf8Text

  // ----- Header text

  function Lower(c: char): char { if 'A' <= c <= 'Z' then c + 32 as char else c }

  predicate EqIgnoreAsciiCase(a: string, b: string) {
    |a| == |b| && forall i :: 0 <= i < |a| ==> Lower(a[i]) == Lower(b[i])
  }

  /** The first index of `c`, or the length. */
  function Find(s: string, c: char): nat
    ensures Find(s, c) <= |s|
    ensures Find(s, c) < |s| <==> c in s
    ensures Find(s, c) < |s| ==> s[Find(s, c)] == c && c !in s[..Find(s, c)]
  {
    if s == [] || s[0] == c then 0 else 1 + Find(s[1..], c)
  }

  /** `str::lines`: line feeds end lines, one carriage return before them goes too. */
  function Lines(s: string): seq<string> {
    if s == [] then []
    else if '\n' !in s then [s]
    else
      var i := Find(s, '\n');
      var line := s[..i];
      [if line != [] && line[|line| - 1] == '\r' then line[..|line| - 1] else line] + Lines(s[i + 1..])
  }

  /** The token of a trimmed header value with the `Basic` scheme. */
  function SchemeToken(value: string): Option<string> {
    var j := Find(value, ' ');
    if !EqIgnoreAsciiCase(value[..j], "basic") then None
    else Some(Trim(if j < |value| then value[j + 1..] else ""))
  }

  /** The token of a line that is an `Authorization` header with the `Basic` scheme. */
  function BasicToken(line: string): Option<string> {
    if ':' !in line then None
    else
      var i := Find(line, ':');
      if !EqIgnoreAsciiCase(Trim(line[..i]), "authorization") then None
      else SchemeToken(Trim(line[i + 1..]))
  }

  /** The credentials a head presents: its first Basic authorization header. */
  function Presented(lines: seq<string>): Option<string> {
    if lines == [] then None
    else if BasicToken(lines[0]).Some? then BasicToken(lines[0])
    else Presented(lines[1..])
  }

  // ----- What counts as a Basic authorization header

  /** `word` is the lower-case word `w`, each letter in either case. */
  predicate Spells(word: string, w: string)
    requires forall i :: 0 <= i < |w| ==> 'a' <= w[i] <= 'z'
  {
    |word| == |w| && forall i :: 0 <= i < |w| ==> word[i] == w[i] || word[i] == w[i] - 32 as char
  }

  lemma SpellsIgnoresCase(word: string, w: string)
    requires forall i :: 0 <= i < |w| ==> 'a' <= w[i] <= 'z'
    ensures EqIgnoreAsciiCase(word, w) <==> Spells(word, w)
  {
  }

  lemma NameSpells(name: string)
    ensures EqIgnoreAsciiCase(name, "authorization") <==> Spells(name, "authorization")
  {
    SpellsIgnoresCase(name, "authorization");
  }

  lemma SchemeSpells(scheme: string)
    ensures EqIgnoreAsciiCase(scheme, "basic") <==> Spells(scheme, "basic")
  {
    SpellsIgnoresCase(scheme, "basic");
  }

  /** A trimmed value that is the scheme Basic and then `rest`, or the bare scheme. */
  predicate ReadsValue(value: string, scheme: string, rest: string) {
    && ' ' !in scheme && Spells(scheme, "basic")
    && (value == scheme + [' '] + rest || (value == scheme && rest == ""))
  }

  /** `line` is a header named Authorization with such a value. */
  predicate Reads(line: string, name: string, value: string, scheme: string, rest: string) {
    && line == name + [':'] + value && ':' !in name && Spells(Trim(name), "authorization")
    && ReadsValue(Trim(value), scheme, rest)
  }

  /** `line` is a Basic authorization header that carries `token`. */
  ghost predicate CarriesToken(line: string, token: string) {
    exists name, value, scheme, rest :: Reads(line, name, value, scheme, rest) && token == Trim(rest)
  }

  ghost predicate IsBasicHeader(line: string) { exists token :: CarriesToken(line, token) }

  lemma ValueIsFound(value: string, scheme: string, rest: string)
    requires ReadsValue(value, scheme, rest)
    ensures SchemeToken(value) == Some(Trim(rest))
  {
    SchemeSpells(scheme);
    if value == scheme + [' '] + rest {
      SplitAt(value, scheme, ' ', rest);
    }
  }

  lemma ReadsIsFound(line: string, name: string, value: string, scheme: string, rest: string)
    requires Reads(line, name, value, scheme, rest)
    ensures BasicToken(line) == Some(Trim(rest))
  {
    SplitAt(line, name, ':', value);
    NameSpells(Trim(name));
    ValueIsFound(Trim(value), scheme, rest);
  }

  lemma SplitBack(s: string, c: char)
    ensures var i := Find(s, c);
      c !in s[..i] && if i < |s| then s == s[..i] + [c] + s[i + 1..] else s == s[..i]
  {
  }

  lemma FoundValue(value: string) returns (scheme: string, rest: string)
    requires SchemeToken(value).Some?
    ensures ReadsValue(value, scheme, rest) && SchemeToken(value) == Some(Trim(rest))
  {
    var j := Find(value, ' ');
    scheme, rest := value[..j], if j < |value| then value[j + 1..] else "";
    SplitBack(value, ' ');
    SchemeSpells(scheme);
  }

  lemma FoundName(line: string, i: nat)
    requires BasicToken(line).Some? && i == Find(line, ':')
    ensures i < |line| && EqIgnoreAsciiCase(Trim(line[..i]), "authorization")
    ensures SchemeToken(Trim(line[i + 1..])) == BasicToken(line)
  {
  }

  lemma SplitOn(s: string, c: char, i: nat)
    requires i == Find(s, c) && i < |s|
    ensures s == s[..i] + [c] + s[i + 1..] && c !in s[..i]
  {
  }

  lemma FoundReads(line: string) returns (name: string, value: string, scheme: string, rest: string)
    requires BasicToken(line).Some?
    ensures Reads(line, name, value, scheme, rest) && BasicToken(line) == Some(Trim(rest))
  {
    var i := Find(line, ':');
    FoundName(line, i);
    SplitOn(line, ':', i);
    name, value := line[..i], line[i + 1..];
    NameSpells(Trim(name));
    scheme, rest := FoundValue(Trim(value));
  }

  /** The scan accepts exactly those lines, each with its own token, and no other. */
  lemma BasicTokenExactly(line: string, token: string)
    ensures BasicToken(line) == Some(token) <==> CarriesToken(line, token)
    ensures BasicToken(line).Some? <==> IsBasicHeader(line)
  {
    if BasicToken(line).Some? {
      var name, value, scheme, rest := FoundReads(line);
      assert CarriesToken(line, BasicToken(line).value);
    }
    forall t | CarriesToken(line, t)
      ensures BasicToken(line) == Some(t)
    {
      var name, value, scheme, rest :| Reads(line, name, value, scheme, rest) && t == Trim(rest);
      ReadsIsFound(line, name, value, scheme, rest);
    }
  }

  /** Line `k` carries `token`, and no line before it is a Basic authorization header. */
  ghost predicate FirstCarries(lines: seq<string>, k: nat, token: string) {
    k < |lines| && CarriesToken(lines[k], token) && forall j :: 0 <= j < k ==> !IsBasicHeader(lines[j])
  }

  lemma {:induction false} PresentedIsFirst(lines: seq<string>) returns (k: nat)
    requires Presented(lines).Some?
    ensures FirstCarries(lines, k, Presented(lines).value)
  {
    BasicTokenExactly(lines[0], if BasicToken(lines[0]).Some? then BasicToken(lines[0]).value else "");
    if BasicToken(lines[0]).Some? {
      k := 0;
    } else {
      var j := PresentedIsFirst(lines[1..]);
      k := j + 1;
      assert forall i :: 0 < i < |lines| ==> lines[i] == lines[1..][i - 1];
    }
  }

  lemma {:induction false} FirstIsPresented(lines: seq<string>, k: nat, token: string)
    requires FirstCarries(lines, k, token)
    ensures Presented(lines) == Some(token)
    decreases k
  {
    BasicTokenExactly(lines[0], token);
    if k > 0 {
      assert forall i :: 0 <= i < |lines| - 1 ==> lines[1..][i] == lines[i + 1];
      FirstIsPresented(lines[1..], k - 1, token);
    }
  }

  /** The credentials a list of headers presents are those of its first Basic authorization header. */
  lemma PresentedExactly(lines: seq<string>, token: string)
    ensures Presented(lines) == Some(token) <==> exists k :: FirstCarries(lines, k, token)
  {
    if Presented(lines) == Some(token) {
      var k := PresentedIsFirst(lines);
    }
    forall k: nat | FirstCarries(lines, k, token)
      ensures Presented(lines) == Some(token)
    {
      FirstIsPresented(lines, k, token);
    }
  }

  // ----- Parse and authorize

  /** `BasicAuth::parse`: the expected token. */
  function Parse(creds: string): Option<string> {
    if creds == [] || ':' !in creds then None else Some(Encode(Utf8(creds)))
  }

  /** The credentials a request head presents, whatever bytes it is made of. */
  function HeadToken(head: seq<byte>): Option<string> { Presented(Lines(Lossy(head))) }

  /** `BasicAuth::authorized`: the first Basic header decides. */
  method Authorized(head: seq<byte>, token: string) returns (ok: bool)
    ensures ok <==> HeadToken(head) == Some(token)
  {
    var lines := Lines(Lossy(head));
    for k := 0 to |lines|
      invariant Presented(lines) == Presented(lines[k..])
    {
      assert lines[k..][1..] == lines[k + 1..];
      var presented := BasicToken(lines[k]);
      if presented.Some? {
        Utf8IsInjective(presented.value, token);
        ok := ConstantTimeEq(Utf8(presented.value), Utf8(token));
        return;
      }
    }
    ok := false;
  }

  /** The credentials that can be configured are those with a colon. */
  lemma ParseExactly(creds: string)
    ensures Parse(creds).Some? <==> ':' in creds
    ensures Parse(creds).Some? ==> Decode(Parse(creds).value) == Some(Utf8(creds))
  {
    RoundTrip(Utf8(creds));
  }

  /** Line `k` of the head is its first Basic authorization header, and carries the credentials. */
  ghost predicate Authorizes(head: seq<byte>, creds: string, k: nat, token: string) {
    FirstCarries(Lines(Lossy(head)), k, token) && Decode(token) == Some(Utf8(creds))
  }

  lemma OnlyAuthorized(creds: string, head: seq<byte>, k: nat, token: string)
    requires Parse(creds).Some? && Authorizes(head, creds, k, token)
    ensures HeadToken(head) == Parse(creds)
  {
    FirstIsPresented(Lines(Lossy(head)), k, token);
    Canonical(token);
  }

  /** A head passes exactly when its first Basic authorization header carries canonical Base64 of the
      configured credentials. */
  lemma AuthorizedExactly(creds: string, head: seq<byte>)
    requires Parse(creds).Some?
    ensures HeadToken(head) == Parse(creds) <==> exists k, token :: Authorizes(head, creds, k, token)
  {
    if HeadToken(head) == Parse(creds) {
      ParseExactly(creds);
      var k := PresentedIsFirst(Lines(Lossy(head)));
      assert Authorizes(head, creds, k, Parse(creds).value);
    }
    forall k: nat, token: string | Authorizes(head, creds, k, token)
      ensures HeadToken(head) == Parse(creds)
    {
      OnlyAuthorized(creds, head, k, token);
    }
  }

  /** Distinct credentials never share a token. */
  lemma TokensAreDistinct(c: string, d: string)
    requires Parse(c).Some? && Parse(c) == Parse(d)
    ensures c == d
  {
    RoundTrip(Utf8(c));
    RoundTrip(Utf8(d));
    Utf8IsInjective(c, d);
  }

  // ----- What a client sends

  /** A header line as it stands in a head: no line feed inside, no carriage return at its end. */
  predicate OneLine(line: string) {
    '\n' !in line && (line == [] || line[|line| - 1] != '\r')
  }

  /** Lines as they go over the wire. */
  function Joined(lines: seq<string>): string {
    if lines == [] then [] else lines[0] + "\r\n" + Joined(lines[1..])
  }

  lemma {:induction false} FindAt(s: string, c: char, i: nat)
    requires i < |s| && s[i] == c && c !in s[..i]
    ensures Find(s, c) == i
  {
    if i > 0 {
      assert s[0] == s[..i][0];
      assert s[1..][..i - 1] == s[..i][1..];
      FindAt(s[1..], c, i - 1);
    }
  }

  /** Splitting undoes joining, whatever text follows. */
  lemma {:induction false} LinesOfJoined(lines: seq<string>, rest: string)
    requires forall i :: 0 <= i < |lines| ==> OneLine(lines[i])
    ensures Lines(Joined(lines) + rest) == lines + Lines(rest)
    decreases |lines|
  {
    if lines == [] {
      assert Joined(lines) + rest == rest;
      assert [] + Lines(rest) == Lines(rest);
    } else {
      LinesOfJoined(lines[1..], rest);
      LinesFront(lines, rest, lines[1..] + Lines(rest));
      Prepend(lines, Lines(rest));
    }
  }

  lemma LinesFront(lines: seq<string>, rest: string, more: seq<string>)
    requires lines != [] && OneLine(lines[0]) && Lines(Joined(lines[1..]) + rest) == more
    ensures Lines(Joined(lines) + rest) == [lines[0]] + more
  {
    JoinedFront(lines, rest);
    FirstLine(lines[0], Joined(lines[1..]) + rest);
  }

  lemma Prepend(lines: seq<string>, more: seq<string>)
    requires lines != []
    ensures [lines[0]] + (lines[1..] + more) == lines + more
  {
  }

  lemma JoinedFront(lines: seq<string>, rest: string)
    requires lines != []
    ensures Joined(lines) + rest == lines[0] + "\r\n" + (Joined(lines[1..]) + rest)
  {
  }

  lemma FirstLine(line: string, tail: string)
    requires OneLine(line)
    ensures Lines(line + "\r\n" + tail) == [line] + Lines(tail)
  {
    var s := line + "\r\n" + tail;
    var i := |line| + 1;
    assert s[..i] == line + "\r";
    assert s[i] == '\n' && s[i + 1..] == tail;
    assert '\n' !in s[..i];
    FindAt(s, '\n', i);
    assert s[..i][..|line|] == line;
  }

  /** A bare line feed ends a line as well, and the last line needs no end. */
  lemma LineFeedEndsLine(line: string, tail: string)
    requires OneLine(line)
    ensures Lines(line + "\n" + tail) == [line] + Lines(tail)
    ensures line != [] ==> Lines(line) == [line]
  {
    var s := line + "\n" + tail;
    assert s[..|line|] == line && s[|line|] == '\n' && s[|line| + 1..] == tail;
    FindAt(s, '\n', |line|);
  }

  /** A header name and a scheme the gate recognises, in any letter case. */
  predicate Recognised(name: string, scheme: string) {
    && Tight(name) && ':' !in name && '\n' !in name && EqIgnoreAsciiCase(name, "authorization")
    && Tight(scheme) && ' ' !in scheme && '\n' !in scheme && EqIgnoreAsciiCase(scheme, "basic")
  }

  function Header(name: string, scheme: string, token: string): string {
    name + ":" + (" " + (scheme + " " + token))
  }

  lemma SplitAt(s: string, left: string, c: char, right: string)
    requires s == left + [c] + right && c !in left
    ensures Find(s, c) == |left| && s[..|left|] == left && s[|left| + 1..] == right && c in s
  {
    assert s[..|left|] == left && s[|left|] == c;
    FindAt(s, c, |left|);
  }

  lemma HeaderCarriesItsToken(name: string, scheme: string, token: string)
    requires Recognised(name, scheme) && Tight(token)
    ensures BasicToken(Header(name, scheme, token)) == Some(token)
  {
    var value := scheme + " " + token;
    SplitAt(Header(name, scheme, token), name, ':', " " + value);
    SplitAt(value, scheme, ' ', token);
    assert " " + value == " " + value + "";
    TrimFindsTheCore(" ", value, "");
    assert name == "" + name + "" && token == "" + token + "";
    TrimFindsTheCore("", name, "");
    TrimFindsTheCore("", token, "");
  }

  lemma {:induction false} TokenIsTight(input: seq<byte>)
    requires input != []
    ensures Tight(Encode(input))
    decreases |input|
  {
    if |input| > 3 {
      GroupIsTight(input[..3]);
      TokenIsTight(input[3..]);
    } else {
      GroupIsTight(input);
    }
  }

  lemma SymbolIsNotWhite(v: nat)
    requires v < 64
    ensures !White(Symbol(v))
  {
  }

  lemma GroupIsTight(chunk: seq<byte>)
    requires 1 <= |chunk| <= 3
    ensures !White(Group(chunk)[0]) && !White(Group(chunk)[3])
  {
    SymbolIsNotWhite(V0(chunk[0]));
    if |chunk| == 3 {
      SymbolIsNotWhite(V3(chunk[2]));
    }
  }

  lemma {:induction false} FirstHeaderCounts(before: seq<string>, line: string, after: seq<string>)
    requires BasicToken(line).Some?
    requires forall i :: 0 <= i < |before| ==> BasicToken(before[i]).None?
    ensures Presented(before + [line] + after) == BasicToken(line)
  {
    var lines := before + [line] + after;
    if before != [] {
      FirstHeaderCounts(before[1..], line, after);
      assert lines[1..] == before[1..] + [line] + after;
    }
  }

  lemma HeaderIsOneLine(name: string, scheme: string, token: string)
    requires Recognised(name, scheme) && Tight(token) && '\n' !in token
    ensures OneLine(Header(name, scheme, token))
  {
    var h := Header(name, scheme, token);
    assert h[|h| - 1] == token[|token| - 1];
  }

  lemma CredentialsToken(creds: string)
    requires Parse(creds).Some?
    ensures Tight(Parse(creds).value) && '\n' !in Parse(creds).value
  {
    CharIsDecoded(creds[0], []);
    TokenIsTight(Utf8(creds));
    TokenIsOneLine(Utf8(creds));
  }

  /** The headers of a head before its first Basic authorization header. */
  ghost predicate Leading(before: seq<string>) {
    forall i :: 0 <= i < |before| ==> OneLine(before[i]) && !IsBasicHeader(before[i])
  }

  lemma HeadPresents(before: seq<string>, header: string, rest: seq<byte>)
    requires Leading(before) && OneLine(header) && BasicToken(header).Some?
    ensures HeadToken(Utf8(Joined(before + [header])) + rest) == BasicToken(header)
  {
    forall i | 0 <= i < |before|
      ensures BasicToken(before[i]).None?
    {
      BasicTokenExactly(before[i], "");
    }
    LossyOfUtf8(Joined(before + [header]), rest);
    LinesOfJoined(before + [header], Lossy(rest));
    FirstHeaderCounts(before, header, Lines(Lossy(rest)));
  }

  /** Every correct request is let in: for all credentials, all headers before and all bytes after, a
      head whose first Basic authorization header carries the credentials' token presents exactly what
      is expected. */
  lemma CorrectHeaderIsAccepted(creds: string, name: string, scheme: string, before: seq<string>, rest: seq<byte>)
    requires Parse(creds).Some? && Recognised(name, scheme) && Leading(before)
    ensures var header := Header(name, scheme, Parse(creds).value);
      HeadToken(Utf8(Joined(before + [header])) + rest) == Parse(creds)
  {
    var token := Parse(creds).value;
    CredentialsToken(creds);
    HeaderCarriesItsToken(name, scheme, token);
    HeaderIsOneLine(name, scheme, token);
    HeadPresents(before, Header(name, scheme, token), rest);
  }

  lemma {:induction false} TokenIsOneLine(input: seq<byte>)
    ensures '\n' !in Encode(input)
    decreases |input|
  {
    if |input| > 3 {
      GroupIsOneLine(input[..3]);
      TokenIsOneLine(input[3..]);
    } else if |input| > 0 {
      GroupIsOneLine(input);
    }
  }

  lemma GroupIsOneLine(chunk: seq<byte>)
    requires 1 <= |chunk| <= 3
    ensures '\n' !in Group(chunk)
  {
    forall v: nat | v < 64
      ensures Symbol(v) != '\n'
    {
      SymbolIsNotWhite(v);
    }
  }
}
