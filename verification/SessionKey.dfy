/** The text of a session key: payload and signature in padded URL-safe base64
    (section 5 of RFC 4648), joined by a dot. */
module SessionKey {
  import opened Results

  type byte = b: int | 0 <= b < 256
  type sextet = b: int | 0 <= b < 64

  const PAD := '='

  function Alphabet(v: sextet): char {
    if v < 26 then ('A' as int + v) as char
    else if v < 52 then ('a' as int + v - 26) as char
    else if v < 62 then ('0' as int + v - 52) as char
    else if v == 62 then '-'
    else '_'
  }

  function Value(c: char): Option<sextet> {
    if 'A' <= c <= 'Z' then Some(c as int - 'A' as int)
    else if 'a' <= c <= 'z' then Some(c as int - 'a' as int + 26)
    else if '0' <= c <= '9' then Some(c as int - '0' as int + 52)
    else if c == '-' then Some(62)
    else if c == '_' then Some(63)
    else None
  }

  // The four sextets of three bytes, and the three bytes of four sextets.
  function S0(a: byte): sextet { a / 4 }
  function S1(a: byte, b: byte): sextet { a % 4 * 16 + b / 16 }
  function S2(b: byte, c: byte): sextet { b % 16 * 4 + c / 64 }
  function S3(c: byte): sextet { c % 64 }
  function B0(v0: sextet, v1: sextet): byte { v0 * 4 + v1 / 16 }
  function B1(v1: sextet, v2: sextet): byte { v1 % 16 * 16 + v2 / 4 }
  function B2(v2: sextet, v3: sextet): byte { v2 % 4 * 64 + v3 }

  /** What a character of the text stands for. */
  datatype Symbol = Bits(v: sextet) | Padding | Other

  function Symbols(b: seq<byte>): seq<Symbol> {
    if |b| == 0 then []
    else if |b| == 1 then [Bits(S0(b[0])), Bits(S1(b[0], 0)), Padding, Padding]
    else if |b| == 2 then [Bits(S0(b[0])), Bits(S1(b[0], b[1])), Bits(S2(b[1], 0)), Padding]
    else [Bits(S0(b[0])), Bits(S1(b[0], b[1])), Bits(S2(b[1], b[2])), Bits(S3(b[2]))] + Symbols(b[3..])
  }

  /** Padding may only end the text; the unused bits before it are not looked at. */
  function Bytes(s: seq<Symbol>): Option<seq<byte>> {
    if |s| == 0 then Some([])
    else if |s| < 4 || !s[0].Bits? || !s[1].Bits? then None
    else if s[2].Bits? && s[3].Bits? then
      match Bytes(s[4..])
      case None => None
      case Some(rest) => Some([B0(s[0].v, s[1].v), B1(s[1].v, s[2].v), B2(s[2].v, s[3].v)] + rest)
    else if |s| != 4 || s[3] != Padding then None
    else if s[2].Bits? then Some([B0(s[0].v, s[1].v), B1(s[1].v, s[2].v)])
    else if s[2] == Padding then Some([B0(s[0].v, s[1].v)])
    else None
  }

  function Char(s: Symbol): char {
    match s
    case Bits(v) => Alphabet(v)
    case Padding => PAD
    case Other => '.'
  }

  function Read(c: char): Symbol {
    if c == PAD then Padding
    else match Value(c)
      case Some(v) => Bits(v)
      case None => Other
  }

  function Text(s: seq<Symbol>): string {
    seq(|s|, i requires 0 <= i < |s| => Char(s[i]))
  }

  function ReadAll(s: string): seq<Symbol> {
    seq(|s|, i requires 0 <= i < |s| => Read(s[i]))
  }

  function Encode(b: seq<byte>): string {
    Text(Symbols(b))
  }

  predicate IsNewline(c: char) {
    c == '\n' || c == '\r'
  }

  /** The decoder skips line breaks wherever they stand. */
  function Strip(s: string): string {
    if s == "" then "" else if IsNewline(s[0]) then Strip(s[1..]) else [s[0]] + Strip(s[1..])
  }

  function Decode(s: string): Option<seq<byte>> {
    Bytes(ReadAll(Strip(s)))
  }

  function Split(s: string): (parts: seq<string>)
    ensures |parts| >= 1
  {
    if s == "" then [""]
    else
      var rest := Split(s[1..]);
      if s[0] == '.' then [""] + rest else [[s[0]] + rest[0]] + rest[1..]
  }

  function Print(payload: seq<byte>, signature: seq<byte>): string {
    Encode(payload) + "." + Encode(signature)
  }

  /** Payload and signature bytes of a presented key; every defect of the text is the same error. */
  function Parse(session: string): Result<(seq<byte>, seq<byte>), Error> {
    var cut := Split(session);
    if |cut| != 2 then Failure(InvalidSession)
    else match (Decode(cut[0]), Decode(cut[1]))
      case (Some(payload), Some(signature)) => Success((payload, signature))
      case (_, _) => Failure(InvalidSession)
  }

  lemma ReadChar(s: Symbol)
    requires !s.Other?
    ensures Read(Char(s)) == s && Char(s) != '.' && !IsNewline(Char(s))
  {
  }

  lemma CharRead(c: char)
    requires !Read(c).Other?
    ensures Char(Read(c)) == c
  {
  }

  lemma {:induction false} SymbolsAreReadable(b: seq<byte>)
    ensures forall i | 0 <= i < |Symbols(b)| :: !Symbols(b)[i].Other?
  {
    if |b| >= 3 {
      SymbolsAreReadable(b[3..]);
    }
  }

  /** Three bytes pass through four sextets unchanged. */
  lemma QuantumRoundTrip(a: byte, b: byte, c: byte)
    ensures B0(S0(a), S1(a, b)) == a && B1(S1(a, b), S2(b, c)) == b && B2(S2(b, c), S3(c)) == c
  {
  }

  lemma OneByte(a: byte)
    ensures Bytes(Symbols([a])) == Some([a])
  {
    assert B0(S0(a), S1(a, 0)) == a;
  }

  lemma TwoBytes(a: byte, b: byte)
    ensures Bytes(Symbols([a, b])) == Some([a, b])
  {
    QuantumRoundTrip(a, b, 0);
  }

  lemma ThreeBytesMore(a: byte, b: byte, c: byte, rest: seq<byte>)
    requires Bytes(Symbols(rest)) == Some(rest)
    ensures Bytes(Symbols([a, b, c] + rest)) == Some([a, b, c] + rest)
  {
    var all := [a, b, c] + rest;
    assert all[3..] == rest;
    assert Symbols(all)[4..] == Symbols(rest);
    QuantumRoundTrip(a, b, c);
  }

  lemma {:induction false} QuantaRoundTrip(b: seq<byte>)
    ensures Bytes(Symbols(b)) == Some(b)
  {
    if |b| == 1 {
      OneByte(b[0]);
      assert b == [b[0]];
    } else if |b| == 2 {
      TwoBytes(b[0], b[1]);
      assert b == [b[0], b[1]];
    } else if |b| >= 3 {
      QuantaRoundTrip(b[3..]);
      ThreeBytesMore(b[0], b[1], b[2], b[3..]);
      assert b == [b[0], b[1], b[2]] + b[3..];
    }
  }

  predicate NoNewline(s: string) {
    forall i | 0 <= i < |s| :: !IsNewline(s[i])
  }

  lemma {:induction false} StripNothing(s: string)
    requires NoNewline(s)
    ensures Strip(s) == s
  {
    if s != "" {
      StripNothing(s[1..]);
    }
  }

  /** The text of an encoding has no dot and no line break and reads back as its symbols. */
  lemma EncodedText(b: seq<byte>)
    ensures NoNewline(Encode(b)) && ReadAll(Encode(b)) == Symbols(b)
    ensures forall i | 0 <= i < |Encode(b)| :: Encode(b)[i] != '.'
  {
    SymbolsAreReadable(b);
    forall i | 0 <= i < |Symbols(b)|
      ensures Read(Encode(b)[i]) == Symbols(b)[i] && Encode(b)[i] != '.' && !IsNewline(Encode(b)[i])
    {
      ReadChar(Symbols(b)[i]);
    }
  }

  lemma Base64RoundTrip(b: seq<byte>)
    ensures Decode(Encode(b)) == Some(b)
  {
    EncodedText(b);
    StripNothing(Encode(b));
    QuantaRoundTrip(b);
  }

  lemma {:induction false} SplitWithoutDot(s: string)
    requires forall i | 0 <= i < |s| :: s[i] != '.'
    ensures Split(s) == [s]
  {
    if s != "" {
      SplitWithoutDot(s[1..]);
      assert [s[0]] + s[1..] == s;
    }
  }

  lemma {:induction false} SplitAtDot(a: string, b: string)
    requires forall i | 0 <= i < |a| :: a[i] != '.'
    requires forall i | 0 <= i < |b| :: b[i] != '.'
    ensures Split(a + "." + b) == [a, b]
  {
    if a == "" {
      SplitWithoutDot(b);
      assert (a + "." + b)[1..] == b;
    } else {
      SplitAtDot(a[1..], b);
      assert (a + "." + b)[1..] == a[1..] + "." + b;
      assert [a[0]] + a[1..] == a;
    }
  }

  predicate NoDot(s: string) {
    forall i | 0 <= i < |s| :: s[i] != '.'
  }

  /** The parts of a text have no dot, and a text of one or two parts is made of them. */
  lemma {:induction false} SplitParts(s: string)
    ensures forall i | 0 <= i < |Split(s)| :: NoDot(Split(s)[i])
    ensures |Split(s)| == 1 ==> s == Split(s)[0]
    ensures |Split(s)| == 2 ==> s == Split(s)[0] + "." + Split(s)[1]
  {
    if s != "" {
      SplitParts(s[1..]);
      assert s == [s[0]] + s[1..];
    }
  }

  /** A key is read exactly if it is two parts with one dot between them that both decode, and then gives
      what they decode to. */
  lemma ParsedIff(session: string, payload: seq<byte>, signature: seq<byte>)
    ensures Parse(session) == Success((payload, signature))
            <==> exists a, b :: NoDot(a) && NoDot(b) && session == a + "." + b
                                && Decode(a) == Some(payload) && Decode(b) == Some(signature)
  {
    SplitParts(session);
    if Parse(session) == Success((payload, signature)) {
      var a, b := Split(session)[0], Split(session)[1];
      assert NoDot(a) && NoDot(b) && session == a + "." + b;
    }
    forall a, b | NoDot(a) && NoDot(b) && session == a + "." + b
      ensures Split(session) == [a, b]
    {
      SplitAtDot(a, b);
    }
  }

  /** Parsing a printed key gives back exactly the two byte strings. */
  lemma KeyRoundTrip(payload: seq<byte>, signature: seq<byte>)
    ensures Parse(Print(payload, signature)) == Success((payload, signature))
  {
    EncodedText(payload);
    EncodedText(signature);
    SplitAtDot(Encode(payload), Encode(signature));
    Base64RoundTrip(payload);
    Base64RoundTrip(signature);
  }

  /** Distinct pairs give distinct keys. */
  lemma KeysDistinct(p1: seq<byte>, s1: seq<byte>, p2: seq<byte>, s2: seq<byte>)
    requires Print(p1, s1) == Print(p2, s2)
    ensures p1 == p2 && s1 == s2
  {
    KeyRoundTrip(p1, s1);
    KeyRoundTrip(p2, s2);
  }

  /** No bit is set that belongs to no byte. */
  predicate CanonicalBits(s: seq<Symbol>)
    requires Bytes(s).Some?
  {
    if |s| == 0 then true
    else if !s[2].Bits? then s[1].v % 16 == 0
    else if !s[3].Bits? then s[2].v % 4 == 0
    else CanonicalBits(s[4..])
  }

  lemma SextetsFromBytes(v0: sextet, v1: sextet, v2: sextet, v3: sextet)
    ensures var a, b, c := B0(v0, v1), B1(v1, v2), B2(v2, v3);
            S0(a) == v0 && S1(a, b) == v1 && S2(b, c) == v2 && S3(c) == v3
  {
  }

  lemma TwoSextets(v0: sextet, v1: sextet)
    requires v1 % 16 == 0
    ensures Symbols([B0(v0, v1)]) == [Bits(v0), Bits(v1), Padding, Padding]
  {
    assert S0(B0(v0, v1)) == v0 && S1(B0(v0, v1), 0) == v1;
  }

  lemma ThreeSextets(v0: sextet, v1: sextet, v2: sextet)
    requires v2 % 4 == 0
    ensures Symbols([B0(v0, v1), B1(v1, v2)]) == [Bits(v0), Bits(v1), Bits(v2), Padding]
  {
    assert S2(B1(v1, v2), 0) == v2;
    assert S0(B0(v0, v1)) == v0 && S1(B0(v0, v1), B1(v1, v2)) == v1;
  }

  lemma FourSextetsMore(v0: sextet, v1: sextet, v2: sextet, v3: sextet, rest: seq<byte>)
    ensures Symbols([B0(v0, v1), B1(v1, v2), B2(v2, v3)] + rest)
            == [Bits(v0), Bits(v1), Bits(v2), Bits(v3)] + Symbols(rest)
  {
    var all := [B0(v0, v1), B1(v1, v2), B2(v2, v3)] + rest;
    assert all[3..] == rest;
    SextetsFromBytes(v0, v1, v2, v3);
  }

  lemma {:induction false} QuantaCanonical(s: seq<Symbol>)
    requires Bytes(s).Some? && CanonicalBits(s)
    ensures Symbols(Bytes(s).value) == s
  {
    if |s| > 0 {
      if !s[2].Bits? {
        TwoSextets(s[0].v, s[1].v);
        assert s == [s[0], s[1], Padding, Padding];
      } else if !s[3].Bits? {
        ThreeSextets(s[0].v, s[1].v, s[2].v);
        assert s == [s[0], s[1], s[2], Padding];
      } else {
        QuantaCanonical(s[4..]);
        FourSextetsMore(s[0].v, s[1].v, s[2].v, s[3].v, Bytes(s[4..]).value);
        assert s == [s[0], s[1], s[2], s[3]] + s[4..];
      }
    }
  }

  lemma {:induction false} EncodedBitsCanonical(b: seq<byte>)
    ensures Bytes(Symbols(b)).Some? && CanonicalBits(Symbols(b))
  {
    QuantaRoundTrip(b);
    if |b| >= 3 {
      EncodedBitsCanonical(b[3..]);
      assert Symbols(b)[4..] == Symbols(b[3..]);
    }
  }

  lemma {:induction false} DecodableIsReadable(s: seq<Symbol>)
    requires Bytes(s).Some?
    ensures forall i | 0 <= i < |s| :: !s[i].Other?
  {
    if |s| > 4 {
      DecodableIsReadable(s[4..]);
      assert s == s[..4] + s[4..];
    }
  }

  /** A text without line breaks that decodes is the encoding of its bytes exactly when its
      unused bits are zero: line breaks and those bits are all that the decoder overlooks. */
  lemma DecodedIsEncoding(s: string)
    requires NoNewline(s) && Decode(s).Some?
    ensures Bytes(ReadAll(s)).Some?
    ensures CanonicalBits(ReadAll(s)) <==> Encode(Decode(s).value) == s
  {
    StripNothing(s);
    var b := Decode(s).value;
    if CanonicalBits(ReadAll(s)) {
      QuantaCanonical(ReadAll(s));
      DecodableIsReadable(ReadAll(s));
      forall i | 0 <= i < |s| ensures Encode(b)[i] == s[i] {
        assert !ReadAll(s)[i].Other?;
        CharRead(s[i]);
      }
    } else {
      EncodedText(b);
      EncodedBitsCanonical(b);
    }
  }
}
