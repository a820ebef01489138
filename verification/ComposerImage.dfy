/** The image text the composer accepts (gui/composer_media.go): optional data URL header,
    whitespace anywhere, base64, and a bound checked before and after decoding. */
module ComposerImage {
  newtype byte = x: int | 0 <= x < 256

  datatype Option<T> = None | Some(value: T)

  datatype Failure = IsEmpty | BadHeader | NotBase64 | TooLarge | Corrupt

  datatype Result<T> = Ok(value: T) | Err(failure: Failure)

  const LIMIT := 33554432

  // ---- text ----

  /** What trimming removes at both ends, all Unicode white space, and what is removed
      everywhere in the payload. */
  predicate IsTrimmed(c: char) {
    || IsSkipped(c) || c == '\U{000B}' || c == '\U{000C}' || c == '\U{0085}' || c == '\U{00A0}'
    || c == '\U{1680}' || '\U{2000}' <= c <= '\U{200A}' || c == '\U{2028}' || c == '\U{2029}'
    || c == '\U{202F}' || c == '\U{205F}' || c == '\U{3000}'
  }

  predicate IsSkipped(c: char) {
    c == ' ' || c == '\t' || c == '\n' || c == '\r'
  }

  function TrimLeft(s: string): string {
    if s != [] && IsTrimmed(s[0]) then TrimLeft(s[1..]) else s
  }

  function TrimRight(s: string): string {
    if s != [] && IsTrimmed(s[|s| - 1]) then TrimRight(s[..|s| - 1]) else s
  }

  function Trim(s: string): string {
    TrimRight(TrimLeft(s))
  }

  function Squeezed(s: string): string {
    if s == [] then [] else (if IsSkipped(s[0]) then [] else [s[0]]) + Squeezed(s[1..])
  }

  /** The index of the first comma, or the length. */
  function Comma(s: string): (k: nat)
    ensures k <= |s| && (k < |s| ==> s[k] == ',') && forall i :: 0 <= i < k ==> s[i] != ','
  {
    if s == [] || s[0] == ',' then 0 else 1 + Comma(s[1..])
  }

  predicate Mentions(s: string, word: string) {
    word <= s || (s != [] && Mentions(s[1..], word))
  }

  /** The number of bytes in UTF-8. */
  function Size(s: string): nat {
    if s == [] then 0
    else (if s[0] < '\U{0080}' then 1 else if s[0] < '\U{0800}' then 2 else if s[0] < '\U{10000}' then 3 else 4) + Size(s[1..])
  }

  // ---- base64, section 4 of RFC 4648 ----

  function Sextet(c: char): Option<nat> {
    if 'A' <= c <= 'Z' then Some(c as int - 'A' as int)
    else if 'a' <= c <= 'z' then Some(c as int - 'a' as int + 26)
    else if '0' <= c <= '9' then Some(c as int - '0' as int + 52)
    else if c == '+' then Some(62)
    else if c == '/' then Some(63)
    else None
  }

  function Letter(n: nat): (c: char)
    requires n < 64
    ensures Sextet(c) == Some(n)
  {
    if n < 26 then ('A' as int + n) as char
    else if n < 52 then ('a' as int + (n - 26)) as char
    else if n < 62 then ('0' as int + (n - 52)) as char
    else if n == 62 then '+'
    else '/'
  }

  function Bytes3(n: nat): seq<byte>
    requires n < 16777216
  {
    [(n / 65536) as byte, (n / 256 % 256) as byte, (n % 256) as byte]
  }

  function Word(a: nat, b: nat, c: nat, d: nat): (n: nat)
    requires a < 64 && b < 64 && c < 64 && d < 64
    ensures n < 16777216
  {
    a * 262144 + b * 4096 + c * 64 + d
  }

  function Quad(n: nat): string
    requires n < 16777216
  {
    [Letter(n / 262144), Letter(n / 4096 % 64), Letter(n / 64 % 64), Letter(n % 64)]
  }

  function Packed(a: byte, b: byte, c: byte): (n: nat)
    ensures n < 16777216
  {
    a as int * 65536 + b as int * 256 + c as int
  }

  function Encode(data: seq<byte>): string {
    if data == [] then []
    else if |data| == 1 then Quad(Packed(data[0], 0, 0))[..2] + "=="
    else if |data| == 2 then Quad(Packed(data[0], data[1], 0))[..3] + "="
    else Quad(Packed(data[0], data[1], data[2])) + Encode(data[3..])
  }

  /** The decoder as the library runs it: padding only at the very end; the spare bits before
      padding are not looked at. */
  function Decode(text: string): Option<seq<byte>> {
    if text == [] then Some([])
    else if |text| < 4 then None
    else
      var a, b, c, d := Sextet(text[0]), Sextet(text[1]), Sextet(text[2]), Sextet(text[3]);
      if a.None? || b.None? then None
      else if c.Some? && d.Some? then
        match Decode(text[4..])
        case None => None
        case Some(rest) => Some(Bytes3(Bounded(text, a.value, b.value, c.value, d.value)) + rest)
      else if |text| == 4 && text[3] == '=' && c.Some? then
        Some(Bytes3(Bounded(text, a.value, b.value, c.value, 0))[..2])
      else if |text| == 4 && text[3] == '=' && text[2] == '=' then
        Some(Bytes3(Bounded(text, a.value, b.value, 0, 0))[..1])
      else None
  }

  function Bounded(text: string, a: nat, b: nat, c: nat, d: nat): (n: nat)
    ensures n < 16777216
  {
    if a < 64 && b < 64 && c < 64 && d < 64 then Word(a, b, c, d) else 0
  }

  // ---- the decoder of the bridge ----

  /** The payload behind an optional data URL header, section 3 of RFC 2397. */
  function Payload(text: string): Result<string> {
    if "data:" <= text then
      var rest := text[5..];
      var comma := Comma(rest);
      if comma == |rest| then Err(BadHeader)
      else if !Mentions(rest[..comma], "base64") then Err(NotBase64)
      else Ok(rest[comma + 1..])
    else Ok(text)
  }

  function DecodeImage(raw: string): Result<seq<byte>> {
    var text := Trim(raw);
    if text == [] then Err(IsEmpty)
    else
      match Payload(text)
      case Err(failure) => Err(failure)
      case Ok(payload) =>
        var value := Squeezed(payload);
        if Size(value) > LIMIT / 3 * 4 + 8 then Err(TooLarge)
        else
          match Decode(value)
          case None => Err(Corrupt)
          case Some(data) =>
            if data == [] then Err(IsEmpty) else if |data| > LIMIT then Err(TooLarge) else Ok(data)
  }

  // ---- round trip ----

  lemma SextetBound(c: char)
    ensures Sextet(c).Some? ==> Sextet(c).value < 64 && !IsSkipped(c) && !IsTrimmed(c) && c != ':' && c != '='
  {
  }

  lemma QuadOfWord(n: nat)
    requires n < 16777216
    ensures Word(n / 262144, n / 4096 % 64, n / 64 % 64, n % 64) == n
  {
    var a, b, c, d := n / 262144, n / 4096 % 64, n / 64 % 64, n % 64;
    assert n == (n / 64) * 64 + d;
    assert n / 64 == (n / 64 / 64) * 64 + c && n / 64 / 64 == n / 4096;
    assert n / 4096 == (n / 4096 / 64) * 64 + b && n / 4096 / 64 == n / 262144;
  }

  lemma BytesOfPacked(a: byte, b: byte, c: byte)
    ensures Bytes3(Packed(a, b, c)) == [a, b, c]
  {
    var n := Packed(a, b, c);
    assert n / 65536 == a as int && n / 256 == a as int * 256 + b as int && n % 256 == c as int;
    assert (a as int * 256 + b as int) % 256 == b as int;
  }

  lemma Multiple(k: nat)
    ensures 64 * k % 64 == 0 && 64 * k / 64 == k
  {
  }

  /** The spare bits of a shorter last group are zero. */
  lemma SpareBits(a: byte, b: byte)
    ensures Packed(a, b, 0) % 64 == 0
    ensures Packed(a, 0, 0) % 64 == 0 && Packed(a, 0, 0) / 64 % 64 == 0
  {
    Multiple(a as int * 1024 + b as int * 4);
    Multiple(a as int * 1024);
    Multiple(a as int * 16);
  }

  lemma FullGroup(n: nat, rest: string)
    requires n < 16777216 && Decode(rest).Some?
    ensures Decode(Quad(n) + rest) == Some(Bytes3(n) + Decode(rest).value)
  {
    hide Bytes3, Word, Sextet, Letter;
    QuadOfWord(n);
    var text := Quad(n) + rest;
    assert text[4..] == rest && text[..4] == Quad(n);
  }

  lemma GroupOfTwo(n: nat)
    requires n < 16777216 && n % 64 == 0
    ensures Decode(Quad(n)[..3] + "=") == Some(Bytes3(n)[..2])
  {
    hide Bytes3, Word, Letter;
    QuadOfWord(n);
  }

  lemma GroupOfOne(n: nat)
    requires n < 16777216 && n % 64 == 0 && n / 64 % 64 == 0
    ensures Decode(Quad(n)[..2] + "==") == Some(Bytes3(n)[..1])
  {
    hide Bytes3, Word, Letter;
    QuadOfWord(n);
  }

  lemma {:induction false} DecodeInvertsEncode(data: seq<byte>)
    ensures Decode(Encode(data)) == Some(data)
    decreases |data|
  {
    hide Decode, Packed, Quad, Bytes3;
    if |data| == 0 {
      NothingDecodes();
    } else if |data| == 1 {
      SpareBits(data[0], 0);
      GroupOfOne(Packed(data[0], 0, 0));
      BytesOfPacked(data[0], 0, 0);
      assert [data[0], 0, 0][..1] == data;
    } else if |data| == 2 {
      SpareBits(data[0], data[1]);
      GroupOfTwo(Packed(data[0], data[1], 0));
      BytesOfPacked(data[0], data[1], 0);
      assert [data[0], data[1], 0][..2] == data;
    } else {
      DecodeInvertsEncode(data[3..]);
      FullGroup(Packed(data[0], data[1], data[2]), Encode(data[3..]));
      BytesOfPacked(data[0], data[1], data[2]);
      assert data == [data[0], data[1], data[2]] + data[3..];
    }
  }

  lemma NothingDecodes()
    ensures Decode("") == Some([])
  {
  }

  /** How long a text is for the bytes it decodes to. */
  lemma {:induction false} DecodedLength(text: string)
    requires Decode(text).Some?
    ensures |text| == (|Decode(text).value| + 2) / 3 * 4
    decreases |text|
  {
    hide Sextet, Bounded;
    if text != [] && Sextet(text[2]).Some? && Sextet(text[3]).Some? {
      DecodedLength(text[4..]);
    }
  }

  lemma SextetIsAscii(c: char)
    ensures Sextet(c).Some? || c == '=' ==> c < '\U{0080}'
  {
  }

  lemma SizeOfGroup(text: string)
    requires |text| >= 4 && forall i :: 0 <= i < 4 ==> text[i] < '\U{0080}'
    ensures Size(text) == 4 + Size(text[4..]) && Size("") == 0
  {
    assert Size(text) == 1 + Size(text[1..]);
    assert text[1..][1..] == text[2..] && Size(text[1..]) == 1 + Size(text[2..]);
    assert text[2..][1..] == text[3..] && Size(text[2..]) == 1 + Size(text[3..]);
    assert text[3..][1..] == text[4..] && Size(text[3..]) == 1 + Size(text[4..]);
  }

  lemma {:induction false} DecodedSize(text: string)
    requires Decode(text).Some?
    ensures Size(text) == |text|
    decreases |text|
  {
    hide Sextet, Bounded;
    if text != [] {
      SextetIsAscii(text[0]);
      SextetIsAscii(text[1]);
      SextetIsAscii(text[2]);
      SextetIsAscii(text[3]);
      SizeOfGroup(text);
      if |text| > 4 {
        DecodedSize(text[4..]);
      }
    }
  }

  /** The early bound is never wrong: every text of at most LIMIT bytes passes it. */
  lemma EarlyBoundIsSafe(text: string)
    requires Decode(text).Some? && |Decode(text).value| <= LIMIT
    ensures Size(text) <= LIMIT / 3 * 4 + 8
  {
    DecodedLength(text);
    DecodedSize(text);
  }

  /** What is accepted, without mention of the early bound: texts whose payload decodes to at
      least one and at most LIMIT bytes; the result is then those bytes. */
  lemma AcceptedExactly(raw: string, data: seq<byte>)
    ensures DecodeImage(raw) == Ok(data)
       <==> Trim(raw) != [] && Payload(Trim(raw)).Ok?
            && Decode(Squeezed(Payload(Trim(raw)).value)) == Some(data) && 1 <= |data| <= LIMIT
  {
    if Trim(raw) != [] && Payload(Trim(raw)).Ok? {
      var value := Squeezed(Payload(Trim(raw)).value);
      if Decode(value).Some? && |Decode(value).value| <= LIMIT {
        EarlyBoundIsSafe(value);
      }
    }
  }

  // ---- headers and whitespace ----

  predicate AllTrimmed(s: string) {
    forall i :: 0 <= i < |s| ==> IsTrimmed(s[i])
  }

  lemma {:induction false} TrimLeftSkips(lead: string, s: string)
    requires AllTrimmed(lead)
    ensures TrimLeft(lead + s) == TrimLeft(s)
    decreases |lead|
  {
    if lead == [] {
      assert lead + s == s;
    } else {
      assert (lead + s)[1..] == lead[1..] + s;
      TrimLeftSkips(lead[1..], s);
    }
  }

  lemma {:induction false} TrimRightSkips(s: string, trail: string)
    requires AllTrimmed(trail)
    ensures TrimRight(s + trail) == TrimRight(s)
    decreases |trail|
  {
    if trail == [] {
      assert s + trail == s;
    } else {
      assert (s + trail)[..|s + trail| - 1] == s + trail[..|trail| - 1];
      TrimRightSkips(s, trail[..|trail| - 1]);
    }
  }

  lemma {:induction false} TrimLeftStops(s: string, rest: string)
    requires exists i :: 0 <= i < |s| && !IsTrimmed(s[i])
    ensures TrimLeft(s + rest) == TrimLeft(s) + rest && TrimLeft(s) != []
    decreases |s|
  {
    if IsTrimmed(s[0]) {
      var i :| 0 <= i < |s| && !IsTrimmed(s[i]);
      assert s[1..][i - 1] == s[i];
      assert (s + rest)[1..] == s[1..] + rest;
      TrimLeftStops(s[1..], rest);
    }
  }

  lemma {:induction false} TrimRightStops(before: string, s: string)
    requires exists i :: 0 <= i < |s| && !IsTrimmed(s[i])
    ensures TrimRight(before + s) == before + TrimRight(s)
    decreases |s|
  {
    var front := s[..|s| - 1];
    assert (before + s)[..|before + s| - 1] == before + front;
    if IsTrimmed(s[|s| - 1]) {
      var i :| 0 <= i < |s| && !IsTrimmed(s[i]);
      assert front[i] == s[i];
      TrimRightStops(before, front);
    }
  }

  /** Whatever would be trimmed inside the payload is squeezed out of it anyway. */
  predicate Squeezable(s: string) {
    forall i :: 0 <= i < |s| && IsTrimmed(s[i]) ==> IsSkipped(s[i])
  }

  lemma {:induction false} SqueezedConcat(a: string, b: string)
    ensures Squeezed(a + b) == Squeezed(a) + Squeezed(b)
    decreases |a|
  {
    if a == [] {
      assert a + b == b;
    } else {
      assert (a + b)[1..] == a[1..] + b;
      SqueezedConcat(a[1..], b);
    }
  }

  lemma {:induction false} TrimLeftSqueezes(s: string)
    requires Squeezable(s)
    ensures Squeezed(TrimLeft(s)) == Squeezed(s) && Squeezable(TrimLeft(s))
    decreases |s|
  {
    if s != [] && IsTrimmed(s[0]) {
      TrimLeftSqueezes(s[1..]);
    }
  }

  lemma {:induction false} TrimRightSqueezes(s: string)
    requires Squeezable(s)
    ensures Squeezed(TrimRight(s)) == Squeezed(s)
    decreases |s|
  {
    if s != [] && IsTrimmed(s[|s| - 1]) {
      var front, last := s[..|s| - 1], [s[|s| - 1]];
      TrimRightSqueezes(front);
      SqueezedConcat(front, last);
      assert s == front + last && last[1..] == [];
    }
  }

  lemma {:induction false} KeptBySqueezing(s: string, i: nat)
    requires i < |s| && !IsSkipped(s[i])
    ensures s[i] in Squeezed(s)
    decreases |s|
  {
    if i > 0 {
      KeptBySqueezing(s[1..], i - 1);
    }
  }

  predicate IsBase64(c: char) {
    Sextet(c).Some? || c == '='
  }

  lemma {:induction false} EncodedText(data: seq<byte>)
    ensures forall c :: c in Encode(data) ==> IsBase64(c)
    ensures data != [] ==> Encode(data) != []
    decreases |data|
  {
    if |data| > 2 {
      EncodedText(data[3..]);
    }
  }

  /** A text that squeezes to base64 has nothing else in it but whitespace. */
  lemma PayloadText(data: seq<byte>, body: string)
    requires data != [] && Squeezed(body) == Encode(data)
    ensures Squeezable(body) && (exists i :: 0 <= i < |body| && !IsTrimmed(body[i]))
    ensures ':' !in body
  {
    EncodedText(data);
    forall i | 0 <= i < |body| && !IsSkipped(body[i]) ensures IsBase64(body[i]) {
      KeptBySqueezing(body, i);
    }
    forall i | 0 <= i < |body| ensures IsTrimmed(body[i]) ==> IsSkipped(body[i]) {
      SextetBound(body[i]);
    }
    if forall i :: 0 <= i < |body| ==> IsTrimmed(body[i]) {
      SqueezedToNothing(body);
    }
  }

  lemma {:induction false} SqueezedToNothing(s: string)
    requires forall i :: 0 <= i < |s| ==> IsSkipped(s[i])
    ensures Squeezed(s) == []
    decreases |s|
  {
    if s != [] {
      SqueezedToNothing(s[1..]);
    }
  }

  /** No header, or a data URL header that names base64 before its comma. */
  predicate IsHeader(header: string) {
    header == "" ||
    (6 <= |header| && "data:" <= header && header[|header| - 1] == ','
     && ',' !in header[5..|header| - 1] && Mentions(header[5..|header| - 1], "base64"))
  }

  lemma {:induction false} CommaAfter(media: string, rest: string)
    requires ',' !in media
    ensures Comma(media + "," + rest) == |media|
    decreases |media|
  {
    var s := media + "," + rest;
    if media != [] {
      assert s[1..] == media[1..] + "," + rest;
      CommaAfter(media[1..], rest);
    }
  }

  lemma HeaderIsCut(header: string, text: string)
    requires IsHeader(header) && header != ""
    ensures Payload(header + text) == Ok(text)
  {
    var media := header[5..|header| - 1];
    var rest := (header + text)[5..];
    assert rest == media + "," + text;
    CommaAfter(media, text);
    assert rest[..|media|] == media && rest[|media| + 1..] == text;
  }

  lemma TrimmedImage(lead: string, text: string, trail: string)
    requires AllTrimmed(lead) && AllTrimmed(trail) && exists i :: 0 <= i < |text| && !IsTrimmed(text[i])
    ensures Trim(lead + text + trail) == Trim(text) && Trim(text) != []
  {
    assert lead + text + trail == lead + (text + trail);
    TrimLeftSkips(lead, text + trail);
    TrimLeftStops(text, trail);
    TrimRightSkips(TrimLeft(text), trail);
    TrimLeftStart(text);
    TrimRightStart(TrimLeft(text));
  }

  lemma {:induction false} TrimLeftStart(s: string)
    ensures TrimLeft(s) != [] ==> !IsTrimmed(TrimLeft(s)[0])
    decreases |s|
  {
    if s != [] && IsTrimmed(s[0]) {
      TrimLeftStart(s[1..]);
    }
  }

  lemma {:induction false} TrimRightStart(s: string)
    requires s != [] && !IsTrimmed(s[0])
    ensures TrimRight(s) != [] && TrimRight(s)[0] == s[0]
    decreases |s|
  {
    if IsTrimmed(s[|s| - 1]) {
      TrimRightStart(s[..|s| - 1]);
    }
  }

  lemma ColonStaysIn(s: string)
    requires ':' !in s
    ensures ':' !in Trim(s)
  {
    TrimIsPart(s);
  }

  lemma {:induction false} TrimIsPart(s: string)
    ensures forall c :: c in TrimLeft(s) ==> c in s
    ensures forall c :: c in TrimRight(s) ==> c in s
    ensures forall c :: c in Trim(s) ==> c in s
    decreases |s|
  {
    TrimLeftIsPart(s);
    TrimRightIsPart(s);
    TrimRightIsPart(TrimLeft(s));
  }

  lemma {:induction false} TrimLeftIsPart(s: string)
    ensures forall c :: c in TrimLeft(s) ==> c in s
    decreases |s|
  {
    if s != [] && IsTrimmed(s[0]) {
      TrimLeftIsPart(s[1..]);
    }
  }

  lemma {:induction false} TrimRightIsPart(s: string)
    ensures forall c :: c in TrimRight(s) ==> c in s
    decreases |s|
  {
    if s != [] && IsTrimmed(s[|s| - 1]) {
      TrimRightIsPart(s[..|s| - 1]);
    }
  }

  lemma PlainPayload(data: seq<byte>, body: string)
    requires data != [] && Squeezed(body) == Encode(data)
    ensures Payload(Trim(body)) == Ok(Trim(body)) && Squeezed(Trim(body)) == Encode(data)
  {
    PayloadText(data, body);
    ColonStaysIn(body);
    TrimLeftSqueezes(body);
    TrimRightSqueezes(TrimLeft(body));
    assert "data:" <= Trim(body) ==> ':' in Trim(body) by {
      if "data:" <= Trim(body) {
        DataHasColon(Trim(body));
      }
    }
  }

  lemma DataHasColon(text: string)
    requires "data:" <= text
    ensures ':' in text
  {
    assert text[4] == ':';
  }

  lemma HeadedPayload(data: seq<byte>, header: string, body: string)
    requires data != [] && Squeezed(body) == Encode(data) && IsHeader(header) && header != ""
    ensures Payload(Trim(header + body)).Ok? && Squeezed(Payload(Trim(header + body)).value) == Encode(data)
  {
    PayloadText(data, body);
    var text := header + body;
    assert text[0] == 'd' && TrimLeft(text) == text;
    TrimRightStops(header, body);
    TrimRightSqueezes(body);
    HeaderIsCut(header, TrimRight(body));
  }

  /** Round trip on all inputs: the standard encoding of one to LIMIT bytes, with any spaces,
      tabs and line breaks in it, behind any base64 data URL header and inside any surrounding
      whitespace, gives the bytes back. */
  lemma ImageRoundTrip(data: seq<byte>, lead: string, header: string, body: string, trail: string)
    requires 1 <= |data| <= LIMIT && Squeezed(body) == Encode(data) && IsHeader(header)
    requires AllTrimmed(lead) && AllTrimmed(trail)
    ensures DecodeImage(lead + header + body + trail) == Ok(data)
  {
    hide DecodeImage, Payload, Squeezed, Decode, Encode, IsHeader, Trim, IsTrimmed;
    var raw, text := lead + header + body + trail, header + body;
    PayloadText(data, body);
    var i :| 0 <= i < |body| && !IsTrimmed(body[i]);
    assert text[|header| + i] == body[i];
    assert raw == lead + text + trail;
    TrimmedImage(lead, text, trail);
    if header == "" {
      assert text == body;
      PlainPayload(data, body);
    } else {
      HeadedPayload(data, header, body);
    }
    DecodeInvertsEncode(data);
    AcceptedExactly(raw, data);
  }

  // ---- how strict the decoding is ----

  /** The bits of the last group that stand for no byte, by the padding behind them. */
  predicate SpareBitsZero(text: string) {
    var n := |text|;
    n >= 4 && text[n - 1] == '=' ==>
      if text[n - 2] == '='
      then Sextet(text[n - 3]).Some? ==> Sextet(text[n - 3]).value % 16 == 0
      else Sextet(text[n - 2]).Some? ==> Sextet(text[n - 2]).value % 4 == 0
  }

  lemma LetterOfSextet(c: char)
    requires Sextet(c).Some?
    ensures Sextet(c).value < 64 && Letter(Sextet(c).value) == c
  {
  }

  /** A group of four letters is the group of its word. */
  lemma QuadInverts(a: nat, b: nat, c: nat, d: nat)
    requires a < 64 && b < 64 && c < 64 && d < 64
    ensures Quad(Word(a, b, c, d)) == [Letter(a), Letter(b), Letter(c), Letter(d)]
  {
    hide Letter;
    var n := Word(a, b, c, d);
    assert n / 64 == a * 4096 + b * 64 + c && n % 64 == d;
    assert n / 4096 == n / 64 / 64 && n / 64 / 64 == a * 64 + b && n / 64 % 64 == c;
    assert n / 262144 == n / 4096 / 64 && n / 4096 / 64 == a && n / 4096 % 64 == b;
  }

  lemma PackedInverts(n: nat)
    requires n < 16777216
    ensures Packed(Bytes3(n)[0], Bytes3(n)[1], Bytes3(n)[2]) == n
    ensures Packed(Bytes3(n)[0], Bytes3(n)[1], 0) == n / 256 * 256
    ensures Packed(Bytes3(n)[0], 0, 0) == n / 65536 * 65536
  {
    assert n == n / 256 * 256 + n % 256;
    assert n / 256 == n / 256 / 256 * 256 + n / 256 % 256 && n / 256 / 256 == n / 65536;
  }

  /** What is left of a word when the bits past the last whole byte are cleared. */
  lemma ClearedWord(a: nat, b: nat, c: nat)
    requires a < 64 && b < 64 && c < 64
    ensures Word(a, b, c, 0) / 256 * 256 == Word(a, b, c - c % 4, 0)
    ensures Word(a, b, 0, 0) / 65536 * 65536 == Word(a, b - b % 16, 0, 0)
  {
    ClearedTwoBits(a, b, c / 4, c % 4);
    ClearedFourBits(a, b / 16, b % 16);
  }

  lemma ClearedTwoBits(a: nat, b: nat, q: nat, r: nat)
    requires a < 64 && b < 64 && q < 16 && r < 4
    ensures Word(a, b, 4 * q + r, 0) / 256 * 256 == Word(a, b, 4 * q, 0)
  {
    Cleared(a * 1024 + b * 16 + q, 64 * r);
  }

  lemma ClearedFourBits(a: nat, q: nat, r: nat)
    requires a < 64 && q < 4 && r < 16
    ensures Word(a, 16 * q + r, 0, 0) / 65536 * 65536 == Word(a, 16 * q, 0, 0)
  {
    ClearedTwice(a * 4 + q, 4096 * r);
  }

  lemma Cleared(k: nat, r: nat)
    requires r < 256
    ensures (256 * k + r) / 256 * 256 == 256 * k
  {
  }

  lemma ClearedTwice(k: nat, r: nat)
    requires r < 65536
    ensures (65536 * k + r) / 65536 * 65536 == 65536 * k
  {
  }

  lemma DifferentLetters(m: nat, n: nat)
    requires m < 64 && n < 64
    ensures Letter(m) == Letter(n) <==> m == n
  {
    assert Sextet(Letter(m)) == Some(m) && Sextet(Letter(n)) == Some(n);
  }

  lemma CanonicalTwo(text: string)
    requires |text| == 4 && text[3] == '=' && Decode(text).Some? && Sextet(text[2]).Some?
    ensures Encode(Decode(text).value) == text <==> Sextet(text[2]).value % 4 == 0
  {
    hide Letter, Word, Packed, Bytes3, Quad;
    var a, b, c := Sextet(text[0]).value, Sextet(text[1]).value, Sextet(text[2]).value;
    LetterOfSextet(text[0]);
    LetterOfSextet(text[1]);
    LetterOfSextet(text[2]);
    var n := Word(a, b, c, 0);
    PackedInverts(n);
    ClearedWord(a, b, c);
    QuadInverts(a, b, c - c % 4, 0);
    DifferentLetters(c - c % 4, c);
    Prefix2(n);
    assert Encode(Decode(text).value) == [Letter(a), Letter(b), Letter(c - c % 4), '='];
    assert text == [text[0], text[1], text[2], '='];
  }

  lemma Prefix2(n: nat)
    requires n < 16777216
    ensures |Bytes3(n)| == 3 && |Bytes3(n)[..2]| == 2 && |Bytes3(n)[..1]| == 1
  {
  }

  lemma CanonicalOne(text: string)
    requires |text| == 4 && text[3] == '=' && text[2] == '=' && Decode(text).Some?
    ensures Encode(Decode(text).value) == text <==> Sextet(text[1]).value % 16 == 0
  {
    hide Letter, Word, Packed, Bytes3, Quad;
    var a, b := Sextet(text[0]).value, Sextet(text[1]).value;
    LetterOfSextet(text[0]);
    LetterOfSextet(text[1]);
    var n := Word(a, b, 0, 0);
    PackedInverts(n);
    ClearedWord(a, b, 0);
    QuadInverts(a, b - b % 16, 0, 0);
    DifferentLetters(b - b % 16, b);
    Prefix2(n);
    assert Encode(Decode(text).value) == [Letter(a), Letter(b - b % 16), '=', '='];
    assert text == [text[0], text[1], '=', '='];
  }

  lemma FullGroupDecodes(text: string)
    requires Decode(text).Some? && text != [] && Sextet(text[2]).Some? && Sextet(text[3]).Some?
    ensures Sextet(text[0]).Some? && Sextet(text[1]).Some? && Decode(text[4..]).Some?
    ensures Decode(text).value
         == Bytes3(Bounded(text, Sextet(text[0]).value, Sextet(text[1]).value, Sextet(text[2]).value, Sextet(text[3]).value))
            + Decode(text[4..]).value
  {
    hide Sextet, Bounded, Bytes3;
  }

  lemma EncodedGroup(n: nat, rest: seq<byte>)
    requires n < 16777216
    ensures Encode(Bytes3(n) + rest) == Quad(n) + Encode(rest)
  {
    PackedInverts(n);
    hide Packed, Quad;
    var data := Bytes3(n) + rest;
    assert data[3..] == rest && data[0] == Bytes3(n)[0] && data[1] == Bytes3(n)[1] && data[2] == Bytes3(n)[2];
  }

  lemma FullGroupEncodes(text: string)
    requires Decode(text).Some? && text != [] && Sextet(text[2]).Some? && Sextet(text[3]).Some?
    ensures Decode(text[4..]).Some?
    ensures Encode(Decode(text).value) == text[..4] + Encode(Decode(text[4..]).value)
  {
    FullGroupDecodes(text);
    LetterOfSextet(text[0]);
    LetterOfSextet(text[1]);
    LetterOfSextet(text[2]);
    LetterOfSextet(text[3]);
    hide Letter, Word, Packed, Bytes3, Quad, Decode, Encode, Sextet;
    var a, b, c, d := Sextet(text[0]).value, Sextet(text[1]).value, Sextet(text[2]).value, Sextet(text[3]).value;
    QuadInverts(a, b, c, d);
    EncodedGroup(Word(a, b, c, d), Decode(text[4..]).value);
    assert text[..4] == [text[0], text[1], text[2], text[3]];
  }

  /** The decoder accepts more texts than the encoder produces: the spare bits before the
      padding may be anything, and a decoded text is the encoding of its bytes exactly when
      they are zero. */
  lemma {:induction false} CanonicalExactly(text: string)
    requires Decode(text).Some?
    ensures Encode(Decode(text).value) == text <==> SpareBitsZero(text)
    decreases |text|
  {
    hide Letter, Word, Packed, Bytes3, Quad, Sextet, Bounded;
    if text == [] {
    } else if Sextet(text[2]).Some? && Sextet(text[3]).Some? {
      FullGroupEncodes(text);
      CanonicalExactly(text[4..]);
      SpareBitsBehind(text);
      assert text == text[..4] + text[4..];
    } else if Sextet(text[2]).Some? {
      PaddingIsNoLetter();
      CanonicalTwo(text);
    } else {
      CanonicalOne(text);
    }
  }

  lemma PaddingIsNoLetter()
    ensures Sextet('=') == None
  {
  }

  lemma SpareBitsBehind(text: string)
    requires Decode(text).Some? && text != [] && Sextet(text[2]).Some? && Sextet(text[3]).Some?
    ensures SpareBitsZero(text[4..]) <==> SpareBitsZero(text)
  {
    hide Bounded;
    var rest := text[4..];
    if |rest| >= 4 {
      var n := |text|;
      assert rest[|rest| - 1] == text[n - 1] && rest[|rest| - 2] == text[n - 2] && rest[|rest| - 3] == text[n - 3];
    } else {
      DecodedLength(rest);
      PaddingIsNoLetter();
    }
  }

  /** One of the texts that are not canonical. */
  lemma SpareBitsAreIgnored()
    ensures Decode("AB==") == Some([0]) && Encode([0]) != "AB=="
  {
    hide Decode, Encode;
    LooseGroup();
    CanonicalExactly("AB==");
    assert Sextet("AB=="[1]) == Some(1);
  }

  lemma LooseGroup()
    ensures Decode("AB==") == Some([0])
  {
    var text := "AB==";
    assert Sextet(text[0]) == Some(0) && Sextet(text[1]) == Some(1) && Sextet(text[2]) == None && Sextet(text[3]) == None;
    assert Bounded(text, 0, 1, 0, 0) == 4096;
    assert Bytes3(4096)[..1] == [0];
  }

  // ---- the encoding, group by group ----

  /** The alphabet: the upper-case letters, the lower-case ones, the digits, plus and slash. */
  lemma AlphabetExactly(n: nat)
    requires n < 64
    ensures Letter(0) == 'A' && Letter(26) == 'a' && Letter(52) == '0' && Letter(62) == '+' && Letter(63) == '/'
    ensures n != 25 && n != 51 && n < 61 ==> Letter(n + 1) as int == Letter(n) as int + 1
    ensures forall c :: Sextet(c) == Some(n) <==> c == Letter(n)
  {
    forall c ensures Sextet(c) == Some(n) <==> c == Letter(n) {
      if Sextet(c) == Some(n) {
        LetterOfSextet(c);
      }
    }
  }

  lemma PackedQuad(a: byte, b: byte, c: byte)
    ensures var n := Packed(a, b, c);
            && n / 262144 == a as int / 4 && n / 4096 % 64 == a as int % 4 * 16 + b as int / 16
            && n / 64 % 64 == b as int % 16 * 4 + c as int / 64 && n % 64 == c as int % 64
  {
    var x, y, z := a as int, b as int, c as int;
    var w := Word(x / 4, x % 4 * 16 + y / 16, y % 16 * 4 + z / 64, z % 64);
    assert w == Packed(a, b, c);
    var n := w;
    assert n / 64 == (x / 4) * 4096 + (x % 4 * 16 + y / 16) * 64 + (y % 16 * 4 + z / 64);
    assert n / 4096 == (x / 4) * 64 + (x % 4 * 16 + y / 16);
  }

  /** Three bytes make four letters, six bits each from the highest on. */
  lemma GroupExactly(a: byte, b: byte, c: byte, rest: seq<byte>)
    ensures Encode([a, b, c] + rest)
         == [Letter(a as int / 4), Letter(a as int % 4 * 16 + b as int / 16),
             Letter(b as int % 16 * 4 + c as int / 64), Letter(c as int % 64)] + Encode(rest)
  {
    hide Letter, Packed;
    PackedQuad(a, b, c);
    assert ([a, b, c] + rest)[3..] == rest;
  }

  /** One or two bytes at the end make two letters or three, and padding. */
  lemma LastGroupExactly(a: byte, b: byte)
    ensures Encode([]) == ""
    ensures Encode([a, b]) == [Letter(a as int / 4), Letter(a as int % 4 * 16 + b as int / 16), Letter(b as int % 16 * 4), '=']
    ensures Encode([a]) == [Letter(a as int / 4), Letter(a as int % 4 * 16), '=', '=']
  {
    hide Letter, Packed;
    PackedQuad(a, b, 0);
    PackedQuad(a, 0, 0);
  }

  // ---- what decodes ----

  function Padding(text: string): nat {
    var n := |text|;
    if n >= 2 && text[n - 1] == '=' && text[n - 2] == '=' then 2 else if n >= 1 && text[n - 1] == '=' then 1 else 0
  }

  /** Whole groups of letters, the last padded by at most two signs. */
  predicate Grouped(text: string) {
    |text| % 4 == 0 && forall i :: 0 <= i < |text| - Padding(text) ==> Sextet(text[i]).Some?
  }

  lemma {:induction false} DecodesExactly(text: string)
    ensures Decode(text).Some? <==> Grouped(text)
    decreases |text|
  {
    hide Sextet, Bytes3, Bounded;
    PaddingIsNoLetter();
    if |text| >= 4 && Sextet(text[2]).Some? && Sextet(text[3]).Some? {
      DecodesExactly(text[4..]);
      GroupedRest(text);
    } else if |text| > 4 {
      assert Padding(text) <= 2 && (|text| % 4 == 0 ==> |text| >= 8);
    }
  }

  lemma GroupedRest(text: string)
    requires |text| >= 4 && Sextet(text[2]).Some? && Sextet(text[3]).Some?
    ensures Grouped(text) <==> Sextet(text[0]).Some? && Sextet(text[1]).Some? && Grouped(text[4..])
  {
    hide Sextet;
    PaddingIsNoLetter();
    var rest := text[4..];
    assert |text| % 4 == 0 <==> |rest| % 4 == 0;
    assert Padding(rest) == Padding(text);
    assert forall i :: 4 <= i < |text| ==> text[i] == rest[i - 4];
  }

  // ---- what is refused ----

  lemma {:induction false} MentionsExactly(s: string, word: string)
    ensures Mentions(s, word) <==> exists i :: 0 <= i <= |s| && word <= s[i..]
    decreases |s|
  {
    assert s[0..] == s;
    if s != [] {
      MentionsExactly(s[1..], word);
      if i :| 0 <= i <= |s| && word <= s[i..] {
        assert i > 0 ==> s[i..] == s[1..][i - 1..];
      }
      if i :| 0 <= i <= |s| - 1 && word <= s[1..][i..] {
        assert s[i + 1..] == s[1..][i..];
      }
    }
  }

  lemma {:induction false} TrimLeftExactly(s: string) returns (n: nat)
    ensures n <= |s| && TrimLeft(s) == s[n..] && AllTrimmed(s[..n]) && (n < |s| ==> !IsTrimmed(s[n]))
    decreases |s|
  {
    hide IsTrimmed;
    if s != [] && IsTrimmed(s[0]) {
      var m := TrimLeftExactly(s[1..]);
      n := m + 1;
      assert s[..n] == [s[0]] + s[1..][..m] && s[1..][m..] == s[n..];
    } else {
      n := 0;
    }
  }

  lemma {:induction false} TrimRightExactly(s: string) returns (n: nat)
    ensures n <= |s| && TrimRight(s) == s[..n] && AllTrimmed(s[n..]) && (n > 0 ==> !IsTrimmed(s[n - 1]))
    decreases |s|
  {
    hide IsTrimmed;
    if s != [] && IsTrimmed(s[|s| - 1]) {
      n := TrimRightExactly(s[..|s| - 1]);
      assert s[n..] == s[..|s| - 1][n..] + [s[|s| - 1]] && s[..|s| - 1][..n] == s[..n];
    } else {
      n := |s|;
    }
  }

  /** Trimming takes the white space at both ends off, all of it and nothing else. */
  lemma TrimExactly(s: string) returns (a: nat, b: nat)
    ensures a <= b <= |s| && Trim(s) == s[a..b] && AllTrimmed(s[..a]) && AllTrimmed(s[b..])
    ensures a < b ==> !IsTrimmed(s[a]) && !IsTrimmed(s[b - 1])
  {
    hide IsTrimmed, AllTrimmed;
    a := TrimLeftExactly(s);
    var n := TrimRightExactly(s[a..]);
    b := a + n;
    assert s[a..][..n] == s[a..b] && s[a..][n..] == s[b..];
  }

  /** The payload is the text itself, or what follows the first comma of a data URL. */
  predicate HasPayload(text: string, payload: string) {
    if "data:" <= text
    then exists k :: 5 <= k < |text| && text[k] == ',' && ',' !in text[5..k] && Mentions(text[5..k], "base64") && payload == text[k + 1..]
    else payload == text
  }

  lemma CommaInside(text: string, k: nat, j: nat)
    requires 5 <= k < j <= |text| && text[k] == ','
    ensures ',' in text[5..j]
  {
    assert text[5..j][k - 5] == ',';
  }

  lemma PayloadExactly(text: string, payload: string)
    ensures Payload(text) == Ok(payload) <==> HasPayload(text, payload)
    ensures Payload(text) == Err(BadHeader) <==> "data:" <= text && ',' !in text[5..]
    ensures Payload(text) == Err(NotBase64) <==>
              "data:" <= text && exists k :: 5 <= k < |text| && text[k] == ',' && ',' !in text[5..k] && !Mentions(text[5..k], "base64")
  {
    hide Mentions;
    if "data:" <= text {
      var rest, k := text[5..], Comma(text[5..]);
      if k < |rest| {
        assert text[5 + k] == ',' && text[5..5 + k] == rest[..k] && text[5 + k + 1..] == rest[k + 1..];
        assert rest[k] in rest;
        forall j | 5 + k < j <= |text| ensures ',' in text[5..j] {
          CommaInside(text, 5 + k, j);
        }
        forall j | 5 <= j < |text| && text[j] == ',' && ',' !in text[5..j] ensures j == 5 + k {
          assert rest[j - 5] == ',';
        }
      } else {
        forall j | 5 <= j < |text| ensures text[j] != ',' {
          assert rest[j - 5] == text[j];
        }
      }
    }
  }

  /** Why a text is refused, when it is. */
  lemma RefusedExactly(raw: string)
    ensures var text := Trim(raw);
            && (text == [] ==> DecodeImage(raw) == Err(IsEmpty))
            && (text != [] && Payload(text).Err? ==> DecodeImage(raw) == Err(Payload(text).failure))
            && (text != [] && Payload(text).Ok? ==>
                  var value := Squeezed(Payload(text).value);
                  && (DecodeImage(raw) == Err(IsEmpty) <==> value == [])
                  && (DecodeImage(raw) == Err(TooLarge) <==>
                        Size(value) > 44739248 || (Decode(value).Some? && |Decode(value).value| > 33554432))
                  && (DecodeImage(raw) == Err(Corrupt) <==> Size(value) <= 44739248 && !Grouped(value)))
  {
    hide Decode, Grouped, Squeezed, Trim, Payload;
    if Trim(raw) != [] && Payload(Trim(raw)).Ok? {
      var value := Squeezed(Payload(Trim(raw)).value);
      DecodesExactly(value);
      if Decode(value).Some? {
        DecodedLength(value);
      }
      if value == [] {
        NothingDecodes();
      }
    }
  }

  /** Spaces, tabs and line breaks are dropped from the payload, and nothing else is. */
  lemma SqueezedExactly(a: string, c: char, b: string)
    ensures Squeezed("") == ""
    ensures Squeezed(a + [c] + b)
         == Squeezed(a) + (if c == ' ' || c == '\t' || c == '\n' || c == '\r' then "" else [c]) + Squeezed(b)
  {
    SqueezedConcat(a + [c], b);
    SqueezedConcat(a, [c]);
    assert [c][1..] == [];
  }
}
