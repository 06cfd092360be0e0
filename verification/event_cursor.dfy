// The calendar event cursor: a two-element JSON array in unpadded URL-safe base64 (RFC 4648,
// sections 3.2 and 5), decoded by putting the padding back
// (backend/apps/schedules/event_services.py, lines 9-20).
module EventCursor {
  import opened Results

  type Byte = b: int | 0 <= b < 256

  type Sextet = n: int | 0 <= n < 64

  function Symbol(n: Sextet): char {
    if n < 26 then (n + 65) as char
    else if n < 52 then (n + 71) as char
    else if n < 62 then (n - 4) as char
    else if n == 62 then '-'
    else '_'
  }

  function Value(c: char): Option<Sextet> {
    var n := c as int;
    if 65 <= n < 91 then Some(n - 65)
    else if 97 <= n < 123 then Some(n - 71)
    else if 48 <= n < 58 then Some(n + 4)
    else if c == '-' then Some(62)
    else if c == '_' then Some(63)
    else None
  }

  lemma SymbolValue(n: Sextet)
    ensures Value(Symbol(n)) == Some(n) && Symbol(n) != '='
  {
  }

  // base64.urlsafe_b64encode
  function Encode(bytes: seq<Byte>): string {
    if bytes == [] then []
    else if |bytes| == 1 then [Symbol(bytes[0] / 4), Symbol(bytes[0] % 4 * 16), '=', '=']
    else if |bytes| == 2 then
      [Symbol(bytes[0] / 4), Symbol(bytes[0] % 4 * 16 + bytes[1] / 16), Symbol(bytes[1] % 16 * 4), '=']
    else Quad(bytes[0], bytes[1], bytes[2]) + Encode(bytes[3..])
  }

  function Quad(a: Byte, b: Byte, c: Byte): string {
    [Symbol(a / 4), Symbol(a % 4 * 16 + b / 16), Symbol(b % 16 * 4 + c / 64), Symbol(c % 64)]
  }

  // The bytes that successive sextets join to.
  function First(w: Sextet, x: Sextet): Byte { w * 4 + x / 16 }

  function Second(x: Sextet, y: Sextet): Byte { x % 16 * 16 + y / 4 }

  function Third(y: Sextet, z: Sextet): Byte { y % 4 * 64 + z }

  // base64.urlsafe_b64decode on text over the alphabet, with padding in the last group only.
  function Decode(s: string): Option<seq<Byte>> {
    if s == [] then Some([])
    else if |s| < 4 then None
    else
      var a, b, c, d := Value(s[0]), Value(s[1]), Value(s[2]), Value(s[3]);
      if a.None? || b.None? then None
      else if |s| == 4 && s[2] == '=' && s[3] == '=' then Some([First(a.value, b.value)])
      else if c.None? then None
      else if |s| == 4 && s[3] == '=' then Some([First(a.value, b.value), Second(b.value, c.value)])
      else if d.None? then None
      else
        var rest := Decode(s[4..]);
        if rest.None? then None
        else Some([First(a.value, b.value), Second(b.value, c.value), Third(c.value, d.value)] + rest.value)
  }

  lemma DecodeOne(a: Byte)
    ensures Decode(Encode([a])) == Some([a])
  {
    SymbolValue(a / 4);
    SymbolValue(a % 4 * 16);
  }

  lemma DecodeTwo(a: Byte, b: Byte)
    ensures Decode(Encode([a, b])) == Some([a, b])
  {
    var w, x, y := a / 4, a % 4 * 16 + b / 16, b % 16 * 4;
    SymbolValue(w);
    SymbolValue(x);
    SymbolValue(y);
    assert First(w, x) == a && Second(x, y) == b;
  }

  lemma {:induction false} DecodeEncode(bytes: seq<Byte>)
    ensures Decode(Encode(bytes)) == Some(bytes)
  {
    if bytes == [] {
    } else if |bytes| == 1 {
      assert bytes == [bytes[0]];
      DecodeOne(bytes[0]);
    } else if |bytes| == 2 {
      assert bytes == [bytes[0], bytes[1]];
      DecodeTwo(bytes[0], bytes[1]);
    } else {
      DecodeEncode(bytes[3..]);
      assert bytes == [bytes[0], bytes[1], bytes[2]] + bytes[3..];
      DecodeEncodeMore(bytes[0], bytes[1], bytes[2], bytes[3..]);
    }
  }

  lemma DecodeEncodeMore(a: Byte, b: Byte, c: Byte, rest: seq<Byte>)
    requires Decode(Encode(rest)) == Some(rest)
    ensures Decode(Encode([a, b, c] + rest)) == Some([a, b, c] + rest)
  {
    assert ([a, b, c] + rest)[3..] == rest;
    assert Encode([a, b, c] + rest) == Quad(a, b, c) + Encode(rest);
    QuadDecodes(a, b, c, Encode(rest));
  }

  lemma SextetsJoin(a: Byte, b: Byte, c: Byte)
    ensures First(a / 4, a % 4 * 16 + b / 16) == a
    ensures Second(a % 4 * 16 + b / 16, b % 16 * 4 + c / 64) == b
    ensures Third(b % 16 * 4 + c / 64, c % 64) == c
  {
  }

  lemma QuadDecodes(a: Byte, b: Byte, c: Byte, rest: string)
    requires Decode(rest).Some?
    ensures Decode(Quad(a, b, c) + rest) == Some([a, b, c] + Decode(rest).value)
  {
    SextetsJoin(a, b, c);
    DecodeSymbols(a / 4, a % 4 * 16 + b / 16, b % 16 * 4 + c / 64, c % 64, rest);
  }

  lemma DecodeSymbols(w: Sextet, x: Sextet, y: Sextet, z: Sextet, rest: string)
    requires Decode(rest).Some?
    ensures Decode([Symbol(w), Symbol(x), Symbol(y), Symbol(z)] + rest)
      == Some([First(w, x), Second(x, y), Third(y, z)] + Decode(rest).value)
  {
    var q := [Symbol(w), Symbol(x), Symbol(y), Symbol(z)];
    assert Value(q[0]) == Some(w) by { SymbolValue(w); }
    assert Value(q[1]) == Some(x) by { SymbolValue(x); }
    assert Value(q[2]) == Some(y) by { SymbolValue(y); }
    assert Value(q[3]) == Some(z) && q[3] != '=' by { SymbolValue(z); }
    DecodeAfterQuad(q, rest, w, x, y, z);
  }

  lemma DecodeAfterQuad(q: string, rest: string, w: Sextet, x: Sextet, y: Sextet, z: Sextet)
    requires |q| == 4 && q[3] != '=' && Decode(rest).Some?
    requires Value(q[0]) == Some(w) && Value(q[1]) == Some(x) && Value(q[2]) == Some(y) && Value(q[3]) == Some(z)
    ensures Decode(q + rest) == Some([First(w, x), Second(x, y), Third(y, z)] + Decode(rest).value)
  {
    assert (q + rest)[4..] == rest;
    DecodeQuad(q + rest, w, x, y, z);
  }

  lemma DecodeQuad(s: string, w: Sextet, x: Sextet, y: Sextet, z: Sextet)
    requires |s| >= 4 && s[3] != '='
    requires Value(s[0]) == Some(w) && Value(s[1]) == Some(x) && Value(s[2]) == Some(y) && Value(s[3]) == Some(z)
    requires Decode(s[4..]).Some?
    ensures Decode(s) == Some([First(w, x), Second(x, y), Third(y, z)] + Decode(s[4..]).value)
  {
  }

  // .rstrip("=")
  function Strip(s: string): string {
    if s != [] && s[|s| - 1] == '=' then Strip(s[..|s| - 1]) else s
  }

  function Equals(n: nat): string {
    if n == 0 then [] else Equals(n - 1) + ['=']
  }

  // cursor + "=" * (-len(cursor) % 4)
  function Pad(s: string): string {
    s + Equals(-|s| % 4)
  }

  lemma {:induction false} StripAfter(a: string, s: string)
    requires a != [] && a[|a| - 1] != '='
    ensures Strip(a + s) == a + Strip(s)
  {
    if s == [] {
      assert a + s == a;
    } else {
      assert (a + s)[..|a + s| - 1] == a + s[..|s| - 1];
      if s[|s| - 1] == '=' {
        StripAfter(a, s[..|s| - 1]);
      }
    }
  }

  lemma PadAfter(a: string, s: string)
    requires |a| == 4
    ensures Pad(a + s) == a + Pad(s)
  {
    assert -|a + s| % 4 == -|s| % 4;
  }

  lemma PadStripOne(a: Byte)
    ensures Pad(Strip(Encode([a]))) == Encode([a])
  {
    var x, y := Symbol(a / 4), Symbol(a % 4 * 16);
    SymbolValue(a % 4 * 16);
    assert Encode([a]) == [x, y] + ['=', '='];
    StripAfter([x, y], ['=', '=']);
    assert Strip(['=', '=']) == Strip(['=']) == [];
    assert Equals(2) == ['='] + ['='];
  }

  lemma PadStripTwo(a: Byte, b: Byte)
    ensures Pad(Strip(Encode([a, b]))) == Encode([a, b])
  {
    var x, y, z := Symbol(a / 4), Symbol(a % 4 * 16 + b / 16), Symbol(b % 16 * 4);
    SymbolValue(b % 16 * 4);
    assert Encode([a, b]) == [x, y, z] + ['='];
    StripAfter([x, y, z], ['=']);
    assert Strip(['=']) == [];
    assert Equals(1) == ['='];
  }

  // Re-padding undoes stripping, on every encoded payload.
  lemma {:induction false} PadStrip(bytes: seq<Byte>)
    ensures Pad(Strip(Encode(bytes))) == Encode(bytes)
  {
    if bytes == [] {
    } else if |bytes| == 1 {
      assert bytes == [bytes[0]];
      PadStripOne(bytes[0]);
    } else if |bytes| == 2 {
      assert bytes == [bytes[0], bytes[1]];
      PadStripTwo(bytes[0], bytes[1]);
    } else {
      var q, rest := Quad(bytes[0], bytes[1], bytes[2]), Encode(bytes[3..]);
      SymbolValue(bytes[2] % 64);
      PadStrip(bytes[3..]);
      StripAfter(q, rest);
      PadAfter(q, Strip(rest));
    }
  }

  // ---- The JSON payload -----------------------------------------------------------------

  predicate Plain(c: char) {
    32 <= c as int < 127 && c != '"' && c != '\\'
  }

  // Text that JSON quotes without escapes, such as an ISO timestamp.
  ghost predicate PlainText(s: string) {
    forall i :: 0 <= i < |s| ==> Plain(s[i])
  }

  function Digit(n: nat): char
    requires n < 10
  {
    (n + 48) as char
  }

  function Decimal(n: nat): string {
    if n < 10 then [Digit(n)] else Decimal(n / 10) + [Digit(n % 10)]
  }

  predicate IsDigit(c: char) { 48 <= c as int < 58 }

  // A JSON number without sign, fraction or exponent.
  function ParseDecimal(s: string): Option<nat> {
    if s == [] || (|s| > 1 && s[0] == '0') then None else ParseDigits(s)
  }

  function ParseDigits(s: string): Option<nat> {
    if s == [] then Some(0)
    else
      var rest, c := ParseDigits(s[..|s| - 1]), s[|s| - 1];
      if rest.Some? && IsDigit(c) then Some(rest.value * 10 + (c as int - 48)) else None
  }

  lemma {:induction false} ParseOfDecimal(n: nat)
    ensures ParseDecimal(Decimal(n)) == Some(n)
    ensures Decimal(n) != [] && (n > 0 ==> Decimal(n)[0] != '0')
    ensures forall i :: 0 <= i < |Decimal(n)| ==> IsDigit(Decimal(n)[i])
  {
    if n < 10 {
      assert [Digit(n)][..0] == [];
      assert ParseDigits([]) == Some(0);
    } else {
      ParseOfDecimal(n / 10);
      assert Decimal(n)[..|Decimal(n)| - 1] == Decimal(n / 10);
    }
  }

  // json.dumps([iso, id], separators=(",", ":"))
  function Render(iso: string, id: nat): string {
    "[\"" + iso + "\"," + Decimal(id) + "]"
  }

  // Where the quoted text that starts at i ends.
  function QuoteEnd(s: string, i: nat): nat
    requires i <= |s|
    ensures i <= QuoteEnd(s, i) <= |s|
    decreases |s| - i
  {
    if i == |s| || !Plain(s[i]) then i else QuoteEnd(s, i + 1)
  }

  // json.loads on an array of one plain string and one unsigned integer.
  function Parse(s: string): Option<(string, nat)> {
    if |s| < 2 || s[0] != '[' || s[1] != '"' || s[|s| - 1] != ']' then None
    else
      var q := QuoteEnd(s, 2);
      if q + 2 > |s| - 1 || s[q] != '"' || s[q + 1] != ',' then None
      else
        var id := ParseDecimal(s[q + 2..|s| - 1]);
        if id.Some? then Some((s[2..q], id.value)) else None
  }

  lemma {:induction false} QuoteEndAt(s: string, i: nat, q: nat)
    requires i <= q < |s| && !Plain(s[q]) && forall k :: i <= k < q ==> Plain(s[k])
    ensures QuoteEnd(s, i) == q
    decreases q - i
  {
    if i < q {
      QuoteEndAt(s, i + 1, q);
    }
  }

  lemma ParseOfRender(iso: string, id: nat)
    requires PlainText(iso)
    ensures Parse(Render(iso, id)) == Some((iso, id))
  {
    var s := Render(iso, id);
    var q := 2 + |iso|;
    ParseOfDecimal(id);
    assert s[2..q] == iso;
    forall k | 2 <= k < q ensures Plain(s[k]) {
      assert s[k] == iso[k - 2];
    }
    QuoteEndAt(s, 2, q);
    assert s[q + 2..|s| - 1] == Decimal(id);
  }

  // ---- Cursors --------------------------------------------------------------------------

  // str.encode() and bytes decoding; the payload is ASCII.
  function Bytes(s: string): seq<Byte>
    requires forall i :: 0 <= i < |s| ==> s[i] as int < 128
  {
    seq(|s|, i requires 0 <= i < |s| => s[i] as int)
  }

  function Text(bytes: seq<Byte>): string {
    seq(|bytes|, i requires 0 <= i < |bytes| => bytes[i] as char)
  }

  lemma RenderIsAscii(iso: string, id: nat)
    requires PlainText(iso)
    ensures forall i :: 0 <= i < |Render(iso, id)| ==> Render(iso, id)[i] as int < 128
  {
    ParseOfDecimal(id);
    var head, tail := "[\"" + iso, "\"," + Decimal(id) + "]";
    assert Render(iso, id) == head + tail;
  }

  function EncodeCursor(iso: string, id: nat): string
    requires PlainText(iso)
  {
    RenderIsAscii(iso, id);
    Strip(Encode(Bytes(Render(iso, id))))
  }

  datatype CursorError = InvalidCursor

  function DecodeCursor(cursor: string): Result<(string, nat), CursorError> {
    var raw := Decode(Pad(cursor));
    if raw.None? then Err(InvalidCursor)
    else
      var value := Parse(Text(raw.value));
      if value.Some? then Ok(value.value) else Err(InvalidCursor)
  }

  // Decoding undoes encoding, whatever padding was stripped.
  lemma CursorRoundTrip(iso: string, id: nat)
    requires PlainText(iso)
    ensures DecodeCursor(EncodeCursor(iso, id)) == Ok((iso, id))
    ensures EncodeCursor(iso, id) != ""
  {
    var payload := Render(iso, id);
    RenderIsAscii(iso, id);
    PadStrip(Bytes(payload));
    DecodeEncode(Bytes(payload));
    assert Text(Bytes(payload)) == payload;
    ParseOfRender(iso, id);
    assert Pad("") == "";
  }
}
