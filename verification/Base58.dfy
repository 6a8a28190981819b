/** Base58 text of a byte string: the big-endian value in base 58, one '1' for each leading zero byte. */
module Base58 {

  type byte = x: int | 0 <= x < 256
  type digit = x: int | 0 <= x < 58

  const CAPITALS := "ABCDEFGH" + "JKLMN" + "PQRSTUVWXYZ"
  const SMALL := "abcdefghijk" + "mnopqrstuvwxyz"
  /** The Bitcoin alphabet. */
  const B58 := "123456789" + CAPITALS + SMALL

  /** The alphabet's letters are runs of consecutive characters; see AlphabetLetters. */
  function Letter(d: digit): char {
    (if d < 9 then '1' as int + d
     else if d < 17 then 'A' as int + d - 9
     else if d < 22 then 'J' as int + d - 17
     else if d < 33 then 'P' as int + d - 22
     else if d < 44 then 'a' as int + d - 33
     else 'm' as int + d - 44) as char
  }

  /** Value of digits, least significant first. */
  function Value(digits: seq<digit>): nat {
    if digits == [] then 0 else digits[0] + 58 * Value(digits[1..])
  }

  /** Value of bytes, most significant first. */
  function BytesValue(bytes: seq<byte>): nat {
    if bytes == [] then 0 else 256 * BytesValue(bytes[..|bytes| - 1]) + bytes[|bytes| - 1]
  }

  /** No digit is wasted: the most significant one is not zero. */
  predicate Canonical(digits: seq<digit>) {
    digits != [] ==> digits[|digits| - 1] != 0
  }

  /** Appends what a carry still holds. */
  function Pushed(carry: nat): seq<digit> {
    if carry == 0 then [] else [carry % 58] + Pushed(carry / 58)
  }

  /** One more byte: every digit times 256, plus the byte, carried upwards. */
  function Fed(digits: seq<digit>, carry: nat): seq<digit> {
    if digits == [] then Pushed(carry)
    else
      var c: nat := carry + (digits[0] as int) * 256;
      [c % 58] + Fed(digits[1..], c / 58)
  }

  function DigitsOf(bytes: seq<byte>): seq<digit> {
    if bytes == [] then [] else Fed(DigitsOf(bytes[..|bytes| - 1]), bytes[|bytes| - 1])
  }

  function LeadingZeros(bytes: seq<byte>): (n: nat)
    ensures n <= |bytes|
  {
    if bytes != [] && bytes[0] == 0 then 1 + LeadingZeros(bytes[1..]) else 0
  }

  function Ones(n: nat): string {
    seq(n, _ => '1')
  }

  /** Digits spelled out, most significant first. */
  function Spelled(digits: seq<digit>): string {
    if digits == [] then "" else [Letter(digits[|digits| - 1])] + Spelled(digits[..|digits| - 1])
  }

  function Text(bytes: seq<byte>): string {
    var zeros := LeadingZeros(bytes);
    Ones(zeros) + Spelled(DigitsOf(bytes[zeros..]))
  }

  /** The two carry loops for one byte. */
  method FeedByte(digits: seq<digit>, b: byte) returns (fed: seq<digit>)
    ensures fed == Fed(digits, b)
  {
    fed := digits;
    var carry: nat := b;
    var j := 0;
    while j < |fed|
      invariant j <= |fed| == |digits| && fed[j..] == digits[j..]
      invariant carry <= 256
      invariant fed[..j] + Fed(digits[j..], carry) == Fed(digits, b)
    {
      var c := carry + (fed[j] as int) * 256;
      assert digits[j..][0] == fed[j] && digits[j..][1..] == digits[j + 1..];
      ghost var before, rest := fed[..j], Fed(digits[j + 1..], c / 58);
      assert before + ([c % 58] + rest) == before + [c % 58] + rest;
      fed := fed[j := c % 58];
      carry := c / 58;
      assert fed[..j + 1] == before + [c % 58];
      j := j + 1;
    }
    assert fed[..j] == fed && digits[j..] == [];
    while carry > 0
      invariant fed + Pushed(carry) == Fed(digits, b)
    {
      assert fed + ([carry % 58] + Pushed(carry / 58)) == fed + [carry % 58] + Pushed(carry / 58);
      fed := fed + [carry % 58];
      carry := carry / 58;
    }
    assert fed + [] == fed;
  }

  method ToBase58(bytes: seq<byte>) returns (out: string)
    ensures out == Text(bytes)
  {
    var zeros := 0;
    while zeros < |bytes| && bytes[zeros] == 0
      invariant zeros <= |bytes|
      invariant LeadingZeros(bytes) == zeros + LeadingZeros(bytes[zeros..])
    {
      assert bytes[zeros..][1..] == bytes[zeros + 1..];
      zeros := zeros + 1;
    }
    var digits: seq<digit> := [];
    var i := zeros;
    while i < |bytes|
      invariant zeros <= i <= |bytes| && digits == DigitsOf(bytes[zeros..i])
    {
      OneMoreByte(bytes, zeros, i);
      digits := FeedByte(digits, bytes[i]);
      i := i + 1;
    }
    assert bytes[zeros..i] == bytes[zeros..];
    out := Ones(zeros);
    var k := |digits|;
    ghost var text := Text(bytes);
    assert digits[..k] == digits;
    while k > 0
      invariant k <= |digits| && out + Spelled(digits[..k]) == text
    {
      OneMoreLetter(out, digits, k);
      out := out + [Letter(digits[k - 1])];
      k := k - 1;
    }
    assert out + [] == out;
  }

  lemma OneMoreByte(bytes: seq<byte>, zeros: nat, i: nat)
    requires zeros <= i < |bytes|
    ensures DigitsOf(bytes[zeros..i + 1]) == Fed(DigitsOf(bytes[zeros..i]), bytes[i])
  {
    assert bytes[zeros..i + 1][..i - zeros] == bytes[zeros..i];
  }

  lemma OneMoreLetter(out: string, digits: seq<digit>, k: nat)
    requires 0 < k <= |digits|
    ensures out + Spelled(digits[..k]) == out + [Letter(digits[k - 1])] + Spelled(digits[..k - 1])
  {
    assert digits[..k][..k - 1] == digits[..k - 1];
    var letter, rest := [Letter(digits[k - 1])], Spelled(digits[..k - 1]);
    assert out + (letter + rest) == out + letter + rest;
  }

  // ---- the value survives ----------------------------------------------------------------------------------------------

  lemma {:induction false} PushedValue(carry: nat)
    ensures Value(Pushed(carry)) == carry && Canonical(Pushed(carry))
    ensures carry > 0 ==> Pushed(carry) != []
  {
    if carry != 0 {
      PushedValue(carry / 58);
      assert Pushed(carry)[1..] == Pushed(carry / 58);
    }
  }

  lemma {:induction false} FedValue(digits: seq<digit>, carry: nat)
    requires Canonical(digits)
    ensures Value(Fed(digits, carry)) == 256 * Value(digits) + carry
    ensures Canonical(Fed(digits, carry)) && (digits != [] ==> Fed(digits, carry) != [])
    decreases |digits|
  {
    if digits == [] {
      PushedValue(carry);
    } else {
      var c: nat := carry + (digits[0] as int) * 256;
      FedValue(digits[1..], c / 58);
      assert Fed(digits, carry)[1..] == Fed(digits[1..], c / 58);
      if |digits| == 1 {
        PushedValue(c / 58);
      }
    }
  }

  lemma {:induction false} DigitsKeepTheValue(bytes: seq<byte>)
    ensures Value(DigitsOf(bytes)) == BytesValue(bytes) && Canonical(DigitsOf(bytes))
    decreases |bytes|
  {
    if bytes != [] {
      DigitsKeepTheValue(bytes[..|bytes| - 1]);
      FedValue(DigitsOf(bytes[..|bytes| - 1]), bytes[|bytes| - 1]);
    }
  }

  // ---- nothing is lost ---------------------------------------------------------------------------------------------------

  /** Digits are determined by their value. */
  lemma {:induction false} SameValueSameDigits(a: seq<digit>, b: seq<digit>)
    requires Canonical(a) && Canonical(b) && Value(a) == Value(b)
    ensures a == b
    decreases |a|
  {
    if a == [] || b == [] {
      CanonicalIsPositive(a);
      CanonicalIsPositive(b);
    } else {
      assert a[0] == Value(a) % 58 && b[0] == Value(b) % 58;
      SameValueSameDigits(a[1..], b[1..]);
      assert a == [a[0]] + a[1..] && b == [b[0]] + b[1..];
    }
  }

  lemma {:induction false} CanonicalIsPositive(a: seq<digit>)
    requires Canonical(a)
    ensures Value(a) == 0 <==> a == []
    decreases |a|
  {
    if |a| > 1 {
      CanonicalIsPositive(a[1..]);
    }
  }

  /** Bytes without leading zeros are determined by their value. */
  lemma {:induction false} SameValueSameBytes(a: seq<byte>, b: seq<byte>)
    requires LeadingZeros(a) == 0 && LeadingZeros(b) == 0 && BytesValue(a) == BytesValue(b)
    ensures a == b
    decreases |a|
  {
    if a == [] || b == [] {
      UnpaddedIsPositive(a);
      UnpaddedIsPositive(b);
    } else {
      var x, m := LastByte(a);
      var y, n := LastByte(b);
      SameValueSameBytes(x, y);
    }
  }

  /** The last byte is the value's remainder, and the bytes before it its quotient. */
  lemma LastByte(a: seq<byte>) returns (front: seq<byte>, last: byte)
    requires a != [] && LeadingZeros(a) == 0
    ensures a == front + [last] && LeadingZeros(front) == 0
    ensures last == BytesValue(a) % 256 && BytesValue(front) == BytesValue(a) / 256
  {
    front, last := a[..|a| - 1], a[|a| - 1];
    assert front != [] ==> front[0] == a[0];
  }

  lemma {:induction false} UnpaddedIsPositive(a: seq<byte>)
    requires LeadingZeros(a) == 0
    ensures BytesValue(a) == 0 <==> a == []
    decreases |a|
  {
    if |a| > 1 {
      UnpaddedIsPositive(a[..|a| - 1]);
    }
  }

  lemma AlphabetLetters(d: digit)
    ensures |B58| == 58 && B58[d] == Letter(d)
  {
    if d < 9 {
      assert B58[d] == "123456789"[d];
    } else if d < 33 {
      assert B58[d] == CAPITALS[d - 9];
      if d < 17 {
        assert CAPITALS[d - 9] == "ABCDEFGH"[d - 9];
      } else if d < 22 {
        assert CAPITALS[d - 9] == "JKLMN"[d - 17];
      } else {
        assert CAPITALS[d - 9] == "PQRSTUVWXYZ"[d - 22];
      }
    } else {
      assert B58[d] == SMALL[d - 33];
      if d < 44 {
        assert SMALL[d - 33] == "abcdefghijk"[d - 33];
      } else {
        assert SMALL[d - 33] == "mnopqrstuvwxyz"[d - 44];
      }
    }
  }

  lemma LettersDiffer(d: digit, e: digit)
    ensures Letter(d) == Letter(e) <==> d == e
  {}

  // ---- decoding ----------------------------------------------------------------------------------------------------------

  lemma {:induction false} SpelledAt(digits: seq<digit>, i: nat)
    requires i < |digits|
    ensures |Spelled(digits)| == |digits| && Spelled(digits)[i] == Letter(digits[|digits| - 1 - i])
    decreases |digits|
  {
    if |digits| == 1 {
      assert Spelled(digits[..0]) == "";
    } else {
      SpelledAt(digits[..|digits| - 1], if i == 0 then 0 else i - 1);
    }
  }

  lemma SameSpellingSameDigits(a: seq<digit>, b: seq<digit>)
    requires Spelled(a) == Spelled(b)
    ensures a == b
  {
    if a != [] {
      SpelledAt(a, 0);
    }
    if b != [] {
      SpelledAt(b, 0);
    }
    forall k | 0 <= k < |a|
      ensures a[k] == b[k]
    {
      SpelledAt(a, |a| - 1 - k);
      SpelledAt(b, |a| - 1 - k);
      LettersDiffer(a[k], b[k]);
    }
  }

  function LeadingOnes(s: string): nat {
    if s != "" && s[0] == '1' then 1 + LeadingOnes(s[1..]) else 0
  }

  /** The ones before a canonical spelling can be told from it: it does not start with a one. */
  lemma {:induction false} OnesAreCounted(n: nat, a: seq<digit>)
    requires Canonical(a)
    ensures LeadingOnes(Ones(n) + Spelled(a)) == n && (Ones(n) + Spelled(a))[n..] == Spelled(a)
  {
    var s := Ones(n) + Spelled(a);
    if n > 0 {
      assert s[1..] == Ones(n - 1) + Spelled(a);
      OnesAreCounted(n - 1, a);
    } else if a != [] {
      StartsWithoutOne(a);
      assert s[0] == Spelled(a)[0];
    } else {
      assert s == "";
    }
  }

  lemma StartsWithoutOne(a: seq<digit>)
    requires Canonical(a) && a != []
    ensures |Spelled(a)| > 0 && Spelled(a)[0] != '1'
  {
    SpelledAt(a, 0);
    LettersDiffer(a[|a| - 1], 0);
  }

  lemma {:induction false} ZerosThenRest(bytes: seq<byte>)
    ensures var n := LeadingZeros(bytes);
      && (forall i | 0 <= i < n :: bytes[i] == 0) && LeadingZeros(bytes[n..]) == 0
    decreases |bytes|
  {
    if bytes != [] && bytes[0] == 0 {
      ZerosThenRest(bytes[1..]);
      var n := LeadingZeros(bytes);
      assert bytes[1..][n - 1..] == bytes[n..];
      assert forall i | 1 <= i < n :: bytes[i] == bytes[1..][i - 1];
    } else {
      assert bytes[0..] == bytes;
    }
  }

  /**
   * The text keeps the value: one '1' for each leading zero byte, then the canonical digits of the big-endian value,
   * the first of which does not spell as '1'.
   */
  lemma TextKeepsTheValue(bytes: seq<byte>)
    ensures var n := LeadingZeros(bytes); var digits := DigitsOf(bytes[n..]);
      && Text(bytes) == Ones(n) + Spelled(digits)
      && Canonical(digits) && Value(digits) == BytesValue(bytes[n..]) == BytesValue(bytes)
      && (digits != [] ==> Spelled(digits)[0] != '1')
  {
    var n := LeadingZeros(bytes);
    var digits := DigitsOf(bytes[n..]);
    DigitsKeepTheValue(bytes[n..]);
    ZerosThenRest(bytes);
    ZerosAddNothing(bytes, n);
    if digits != [] {
      StartsWithoutOne(digits);
    }
  }

  lemma {:induction false} ZerosAddNothing(bytes: seq<byte>, n: nat)
    requires n <= |bytes| && forall i | 0 <= i < n :: bytes[i] == 0
    ensures BytesValue(bytes[n..]) == BytesValue(bytes)
    decreases |bytes|
  {
    if n == |bytes| {
      if n > 0 {
        ZerosAddNothing(bytes[..n - 1], n - 1);
        assert bytes[..n - 1][n - 1..] == [];
      }
    } else {
      var front := bytes[..|bytes| - 1];
      ZerosAddNothing(front, n);
      assert bytes[n..][..|bytes| - n - 1] == front[n..];
    }
  }

  /** Two byte strings have the same text only when they are the same. */
  lemma TextIsInjective(a: seq<byte>, b: seq<byte>)
    requires Text(a) == Text(b)
    ensures a == b
  {
    var m, n := LeadingZeros(a), LeadingZeros(b);
    var restA, restB := a[m..], b[n..];
    DigitsKeepTheValue(restA);
    DigitsKeepTheValue(restB);
    OnesAreCounted(m, DigitsOf(restA));
    OnesAreCounted(n, DigitsOf(restB));
    SameSpellingSameDigits(DigitsOf(restA), DigitsOf(restB));
    ZerosThenRest(a);
    ZerosThenRest(b);
    SameValueSameBytes(restA, restB);
    assert a == a[..m] + restA && b == b[..n] + restB && a[..m] == b[..n];
  }
}
