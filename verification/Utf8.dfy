/** Text counted in bytes. Go's `len` counts the bytes of the UTF-8 encoding, `RuneCountInString`
    the characters. */
module Utf8 {

  function CharBytes(c: char): nat {
    if c as int < 0x80 then 1
    else if c as int < 0x800 then 2
    else if c as int < 0x1_0000 then 3
    else 4
  }

  function ByteLength(s: string): nat {
    if s == "" then 0 else CharBytes(s[0]) + ByteLength(s[1..])
  }

  /** A text has at least as many bytes as characters and at most four times as many. */
  lemma {:induction false} ByteLengthBounds(s: string)
    ensures |s| <= ByteLength(s) <= 4 * |s|
  {
    if s != "" {
      ByteLengthBounds(s[1..]);
    }
  }

  function Repeated(c: char, n: nat): (s: string)
    ensures |s| == n
  {
    if n == 0 then "" else [c] + Repeated(c, n - 1)
  }

  lemma {:induction false} RepeatedBytes(c: char, n: nat)
    ensures ByteLength(Repeated(c, n)) == n * CharBytes(c)
  {
    if n > 0 {
      RepeatedBytes(c, n - 1);
      assert Repeated(c, n)[1..] == Repeated(c, n - 1);
    }
  }

  /** Where every character is a seven-bit one, bytes and characters agree, and nowhere else. */
  lemma {:induction false} SevenBitIff(s: string)
    ensures ByteLength(s) == |s| <==> forall i | 0 <= i < |s| :: s[i] as int < 0x80
  {
    if s != "" {
      SevenBitIff(s[1..]);
      ByteLengthBounds(s[1..]);
      assert forall i | 0 < i < |s| :: s[i] == s[1..][i - 1];
    }
  }
}
