// The text of an event cursor, measured against its standards: the base64url alphabet and grouping (RFC
// 4648, sections 4 and 5) and the JSON array (backend/apps/schedules/event_services.py, lines 9-11).
module CursorFormat {
  import opened Results
  import opened EventCursor

  // The sextets in order are the upper-case letters, the lower-case letters, the digits, a minus sign and
  // an underscore; each is read back from its character alone.
  lemma AlphabetIs(n: Sextet, c: char)
    ensures Symbol(n) as int ==
      if n < 26 then 'A' as int + n
      else if n < 52 then 'a' as int + (n - 26)
      else if n < 62 then '0' as int + (n - 52)
      else if n == 62 then '-' as int else '_' as int
    ensures Value(c) == Some(n) <==> c == Symbol(n)
  {
    SymbolValue(n);
  }

  // What a character counts.
  function Worth(c: char): int {
    if Value(c).Some? then Value(c).value else 0
  }

  // Three bytes and the four characters that stand for them are the same number.
  lemma GroupIsTheNumber(a: Byte, b: Byte, c: Byte)
    ensures var q := Quad(a, b, c);
      && |q| == 4 && Value(q[0]).Some? && Value(q[1]).Some? && Value(q[2]).Some? && Value(q[3]).Some?
      && Worth(q[0]) * 262_144 + Worth(q[1]) * 4_096 + Worth(q[2]) * 64 + Worth(q[3]) == a * 65_536 + b * 256 + c
  {
    SymbolValue(a / 4);
    SymbolValue(a % 4 * 16 + b / 16);
    SymbolValue(b % 16 * 4 + c / 64);
    SymbolValue(c % 64);
  }

  // A last group of one or two bytes is filled up with zero bits and padded to four characters.
  lemma LastGroupIsTheNumber(a: Byte, b: Byte)
    ensures var q := Encode([a]);
      && |q| == 4 && q[2] == q[3] == '=' && Value(q[0]).Some? && Value(q[1]).Some?
      && Worth(q[0]) * 64 + Worth(q[1]) == a * 16
    ensures var q := Encode([a, b]);
      && |q| == 4 && q[3] == '=' && Value(q[0]).Some? && Value(q[1]).Some? && Value(q[2]).Some?
      && Worth(q[0]) * 4_096 + Worth(q[1]) * 64 + Worth(q[2]) == (a * 256 + b) * 4
  {
    SymbolValue(a / 4);
    SymbolValue(a % 4 * 16);
    SymbolValue(a % 4 * 16 + b / 16);
    SymbolValue(b % 16 * 4);
  }

  // Groups follow one another.
  lemma OneGroup(a: Byte, b: Byte, c: Byte, rest: seq<Byte>)
    ensures Encode([a, b, c] + rest) == Quad(a, b, c) + Encode(rest)
  {
    assert ([a, b, c] + rest)[3..] == rest;
  }

  function Length(n: nat): nat { (n + 2) / 3 * 4 }

  lemma LengthNext(n: nat)
    ensures Length(n + 3) == Length(n) + 4 && Length(0) == 0 && Length(1) == Length(2) == 4
  {
  }

  // So the text has four characters for every three bytes begun.
  lemma {:induction false} EncodedLength(bytes: seq<Byte>)
    ensures |Encode(bytes)| == Length(|bytes|)
  {
    if |bytes| >= 3 {
      EncodedLength(bytes[3..]);
      LengthNext(|bytes| - 3);
      assert bytes == [bytes[0], bytes[1], bytes[2]] + bytes[3..];
      OneGroup(bytes[0], bytes[1], bytes[2], bytes[3..]);
    } else {
      LengthNext(0);
    }
  }

  // The payload is a JSON array of the quoted timestamp and the decimal id, without spaces.
  lemma PayloadExample()
    ensures Render("t", 120) == "[\"t\",120]"
  {
    assert Decimal(1) == "1" && Decimal(12) == "12" && Decimal(120) == "120";
  }

  // A whole cursor.
  lemma CursorExample()
    ensures PlainText("t") && EncodeCursor("t", 120) == "WyJ0IiwxMjBd"
  {
    PayloadExample();
    RenderIsAscii("t", 120);
    assert Bytes(Render("t", 120)) == [91, 34, 116] + ([34, 44, 49] + [50, 48, 93]);
    EncodedExample();
  }

  lemma EncodedExample()
    ensures Encode([91, 34, 116] + ([34, 44, 49] + [50, 48, 93])) == "WyJ0IiwxMjBd"
  {
    QuadExamples();
    OneGroup(50, 48, 93, []);
    OneGroup(34, 44, 49, [50, 48, 93]);
    OneGroup(91, 34, 116, [34, 44, 49] + [50, 48, 93]);
    assert [50, 48, 93] + [] == [50, 48, 93];
  }

  lemma QuadExamples()
    ensures Quad(91, 34, 116) == "WyJ0" && Quad(34, 44, 49) == "Iiwx" && Quad(50, 48, 93) == "MjBd"
  {
  }
}
