/** Truncating a text to a number of bytes of its UTF-8 encoding (section 3 of RFC 3629): encode, cut, and
    decode what is left, ignoring what is malformed. */
module Utf8 {

  type Byte = b: int | 0 <= b < 256 witness 0
  type CodePoint = c: int | 0 <= c < 0x11_0000 witness 0

  predicate IsSurrogate(c: CodePoint) {
    0xD800 <= c < 0xE000
  }

  predicate IsScalarText(text: seq<CodePoint>) {
    forall c | c in text :: !IsSurrogate(c)
  }

  // ---- Encoding ---------------------------------------------------------------------------------------------

  function EncodeOne(c: CodePoint): (bs: seq<Byte>)
    ensures 1 <= |bs| <= 4
  {
    if c < 0x80 then [c]
    else if c < 0x800 then [0xC0 + c / 64, 0x80 + c % 64]
    else if c < 0x1_0000 then [0xE0 + c / 4096, 0x80 + c / 64 % 64, 0x80 + c % 64]
    else [0xF0 + c / 262144, 0x80 + c / 4096 % 64, 0x80 + c / 64 % 64, 0x80 + c % 64]
  }

  function Encode(text: seq<CodePoint>): seq<Byte> {
    if text == [] then [] else EncodeOne(text[0]) + Encode(text[1..])
  }

  // ---- Decoding ---------------------------------------------------------------------------------------------

  /** How many continuation bytes a lead byte announces; none for a byte that cannot start a character. */
  datatype Lead = Invalid | Announces(more: nat)

  function LeadOf(b: Byte): Lead {
    if b < 0x80 then Announces(0)
    else if 0xC2 <= b < 0xE0 then Announces(1)
    else if 0xE0 <= b < 0xF0 then Announces(2)
    else if 0xF0 <= b < 0xF5 then Announces(3)
    else Invalid
  }

  /** The second byte's range shuts out overlong forms, surrogates and numbers beyond U+10FFFF. */
  predicate SecondFits(lead: Byte, b: Byte) {
    (if lead == 0xE0 then 0xA0 else if lead == 0xF0 then 0x90 else 0x80)
    <= b <
    (if lead == 0xED then 0xA0 else if lead == 0xF4 then 0x90 else 0xC0)
  }

  predicate Continues(bs: seq<Byte>, i: nat)
    requires 0 < i < |bs|
  {
    if i == 1 then SecondFits(bs[0], bs[1]) else 0x80 <= bs[i] < 0xC0
  }

  /** How many of the bytes 1, ..., n continue the character that byte 0 starts. */
  function Continued(bs: seq<Byte>, n: nat): (m: nat)
    requires bs != []
    ensures m <= n && m < |bs|
    ensures forall i | 1 <= i <= m :: Continues(bs, i)
    ensures m < n && m + 1 < |bs| ==> !Continues(bs, m + 1)
  {
    if n == 0 then 0
    else
      var m := Continued(bs, n - 1);
      if m == n - 1 && n < |bs| && Continues(bs, n) then n else m
  }

  function Assemble(bs: seq<Byte>, more: nat): int
    requires more < |bs| && more <= 3
  {
    var b0: int := bs[0];
    if more == 0 then b0
    else
      var b1: int := bs[1];
      if more == 1 then (b0 - 0xC0) * 64 + (b1 - 0x80)
      else
        var b2: int := bs[2];
        if more == 2 then (b0 - 0xE0) * 4096 + (b1 - 0x80) * 64 + (b2 - 0x80)
        else
          var b3: int := bs[3];
          (b0 - 0xF0) * 262144 + (b1 - 0x80) * 4096 + (b2 - 0x80) * 64 + (b3 - 0x80)
  }

  /** The first character and the bytes it takes, or the malformed bytes to skip. */
  datatype Piece = Character(c: CodePoint, size: nat) | Malformed(size: nat)

  function FirstPiece(bs: seq<Byte>): (p: Piece)
    requires bs != []
    ensures 0 < p.size <= |bs|
    ensures p.Character? ==> !IsSurrogate(p.c)
  {
    match LeadOf(bs[0])
    case Invalid => Malformed(1)
    case Announces(more) =>
      var m := Continued(bs, more);
      if m < more then Malformed(1 + m) else
        AssembledIsScalar(bs, more);
        Character(Assemble(bs, more), 1 + more)
  }

  lemma AssembledIsScalar(bs: seq<Byte>, more: nat)
    requires bs != [] && LeadOf(bs[0]) == Announces(more) && Continued(bs, more) == more
    ensures more <= 3 && 0 <= Assemble(bs, more) < 0x11_0000
    ensures !(0xD800 <= Assemble(bs, more) < 0xE000)
  {
    assert forall i | 1 <= i <= more :: Continues(bs, i);
    if more >= 1 {
      assert Continues(bs, 1);
    }
    if more >= 2 {
      assert Continues(bs, 2);
    }
    if more == 3 {
      assert Continues(bs, 3);
    }
  }

  /** bytes.decode("utf-8", errors="ignore"). */
  function DecodeIgnore(bs: seq<Byte>): (text: seq<CodePoint>)
    ensures IsScalarText(text)
  {
    if bs == [] then []
    else match FirstPiece(bs)
      case Character(c, size) => [c] + DecodeIgnore(bs[size..])
      case Malformed(size) => DecodeIgnore(bs[size..])
  }

  // ---- A character's bytes ----------------------------------------------------------------------------------

  /** The digits of c in base 64. */
  lemma Digits(c: CodePoint)
    ensures c == c / 64 * 64 + c % 64
    ensures c / 64 == c / 4096 * 64 + c / 64 % 64
    ensures c / 4096 == c / 262144 * 64 + c / 4096 % 64
  {
    assert c / 64 / 64 == c / 4096;
    assert c / 4096 / 64 == c / 262144;
  }

  /** Every byte but the first continues the character. */
  lemma EncodingContinues(c: CodePoint, i: int)
    requires !IsSurrogate(c) && 1 <= i < |EncodeOne(c)|
    ensures Continues(EncodeOne(c), i)
    ensures LeadOf(EncodeOne(c)[0]) == Announces(|EncodeOne(c)| - 1)
  {
    Digits(c);
  }

  lemma {:induction false} ContinuedCut(c: CodePoint, bs: seq<Byte>, n: nat)
    requires !IsSurrogate(c) && bs != [] && n < |EncodeOne(c)|
    requires forall i | 0 <= i < |bs| && i < |EncodeOne(c)| :: bs[i] == EncodeOne(c)[i]
    ensures Continued(bs, n) == if n < |bs| then n else |bs| - 1
  {
    if n > 0 {
      ContinuedCut(c, bs, n - 1);
      if n < |bs| {
        EncodingContinues(c, n);
      }
    }
  }

  lemma AssembledBack(c: CodePoint, bs: seq<Byte>)
    requires |bs| >= |EncodeOne(c)| && bs[..|EncodeOne(c)|] == EncodeOne(c)
    ensures Assemble(bs, |EncodeOne(c)| - 1) == c
  {
    var e := EncodeOne(c);
    assert forall i | 0 <= i < |e| :: bs[i] == bs[..|e|][i];
    Digits(c);
  }

  lemma LeadAnnounces(c: CodePoint)
    ensures LeadOf(EncodeOne(c)[0]) == Announces(|EncodeOne(c)| - 1)
  {
  }

  /** An encoded character is read back, whatever follows it. */
  lemma WholeCharacter(c: CodePoint, rest: seq<Byte>)
    requires !IsSurrogate(c)
    ensures FirstPiece(EncodeOne(c) + rest) == Character(c, |EncodeOne(c)|)
  {
    var bs := EncodeOne(c) + rest;
    LeadAnnounces(c);
    ContinuedCut(c, bs, |EncodeOne(c)| - 1);
    AssembledBack(c, bs);
  }

  /** A character that lost its last bytes is skipped whole. */
  lemma CutCharacter(c: CodePoint, n: nat)
    requires !IsSurrogate(c) && 0 < n < |EncodeOne(c)|
    ensures FirstPiece(EncodeOne(c)[..n]) == Malformed(n)
  {
    LeadAnnounces(c);
    ContinuedCut(c, EncodeOne(c)[..n], |EncodeOne(c)| - 1);
  }

  lemma TwoBytes(b0: Byte, b1: Byte)
    requires 0xC2 <= b0 < 0xE0 && 0x80 <= b1 < 0xC0
    ensures EncodeOne(Assemble([b0, b1], 1)) == [b0, b1]
  {
  }

  lemma ThreeBytes(b0: Byte, b1: Byte, b2: Byte)
    requires 0xE0 <= b0 < 0xF0 && SecondFits(b0, b1) && 0x80 <= b2 < 0xC0
    ensures EncodeOne(Assemble([b0, b1, b2], 2)) == [b0, b1, b2]
  {
    var c: CodePoint := Assemble([b0, b1, b2], 2);
    var x0: int, x1: int := b0, b1;
    assert c / 64 == (x0 - 0xE0) * 64 + (x1 - 0x80);
  }

  lemma LastDigit(q: int, d: int)
    requires 0 <= d < 64 && 0 <= q
    ensures (q * 64 + d) / 64 == q && (q * 64 + d) % 64 == d
  {
  }

  lemma DivideTwice(c: int)
    requires 0 <= c
    ensures c / 4096 == c / 64 / 64
  {
  }

  lemma DivideThrice(c: int)
    requires 0 <= c
    ensures c / 262144 == c / 64 / 64 / 64
  {
  }

  /** The number that four bytes' digits make, and its digits again. */
  lemma FourDigits(x0: int, x1: int, x2: int, x3: int)
    requires 0 <= x1 < 64 && 0 <= x2 < 64 && 0 <= x3 < 64 && 0 <= x0
    ensures var c := ((x0 * 64 + x1) * 64 + x2) * 64 + x3;
            && c / 64 == (x0 * 64 + x1) * 64 + x2 && c / 4096 == x0 * 64 + x1 && c / 262144 == x0
            && c % 64 == x3 && c / 64 % 64 == x2 && c / 4096 % 64 == x1
  {
    var y1 := x0 * 64 + x1;
    var y2 := y1 * 64 + x2;
    LastDigit(x0, x1);
    LastDigit(y1, x2);
    LastDigit(y2, x3);
    DivideTwice(y2 * 64 + x3);
    DivideThrice(y2 * 64 + x3);
  }

  lemma FourBytes(b0: Byte, b1: Byte, b2: Byte, b3: Byte)
    requires 0xF0 <= b0 < 0xF5 && SecondFits(b0, b1) && 0x80 <= b2 < 0xC0 && 0x80 <= b3 < 0xC0
    ensures EncodeOne(Assemble([b0, b1, b2, b3], 3)) == [b0, b1, b2, b3]
  {
    FourDigits(b0 as int - 0xF0, b1 as int - 0x80, b2 as int - 0x80, b3 as int - 0x80);
  }

  /** The decoder takes nothing for a character but its encoding. */
  lemma OnlyEncodings(bs: seq<Byte>)
    requires bs != [] && FirstPiece(bs).Character?
    ensures bs[..FirstPiece(bs).size] == EncodeOne(FirstPiece(bs).c)
  {
    var more := FirstPiece(bs).size - 1;
    assert forall i | 1 <= i <= more :: Continues(bs, i);
    if more == 1 {
      assert Continues(bs, 1);
      TwoBytes(bs[0], bs[1]);
    } else if more == 2 {
      assert Continues(bs, 1) && Continues(bs, 2);
      ThreeBytes(bs[0], bs[1], bs[2]);
    } else if more == 3 {
      assert Continues(bs, 1) && Continues(bs, 2) && Continues(bs, 3);
      FourBytes(bs[0], bs[1], bs[2], bs[3]);
    }
  }

  // ---- Truncation -------------------------------------------------------------------------------------------

  datatype Result<T> = Ok(value: T) | UnicodeEncodeError

  /** encoded[:n], where a negative n counts from the end. */
  function CutBytes(bs: seq<Byte>, n: int): seq<Byte> {
    if n >= |bs| then bs
    else if n >= 0 then bs[..n]
    else if |bs| + n >= 0 then bs[..|bs| + n]
    else []
  }

  /** _truncate_to_bytes. */
  function TruncateToBytes(text: seq<CodePoint>, maxBytes: int): Result<seq<CodePoint>> {
    if !IsScalarText(text) then UnicodeEncodeError
    else
      var encoded := Encode(text);
      if |encoded| <= maxBytes then Ok(text) else Ok(DecodeIgnore(CutBytes(encoded, maxBytes)))
  }

  /** The k first characters are the most that fit in n bytes. */
  predicate LongestFitting(text: seq<CodePoint>, n: nat, k: nat) {
    && k <= |text|
    && |Encode(text[..k])| <= n
    && (k < |text| ==> |Encode(text[..k + 1])| > n)
  }

  lemma EncodePrefix(text: seq<CodePoint>, k: nat)
    requires 0 < k <= |text|
    ensures Encode(text[..k]) == EncodeOne(text[0]) + Encode(text[1..][..k - 1])
  {
    assert text[..k][1..] == text[1..][..k - 1];
  }

  lemma LongestFittingTail(text: seq<CodePoint>, n: nat, j: nat)
    requires text != [] && n >= |EncodeOne(text[0])|
    requires LongestFitting(text[1..], n - |EncodeOne(text[0])|, j)
    ensures LongestFitting(text, n, j + 1)
  {
    EncodePrefix(text, j + 1);
    if j + 1 < |text| {
      EncodePrefix(text, j + 2);
    }
  }

  lemma DecodeOne(c: CodePoint, rest: seq<Byte>)
    requires !IsSurrogate(c)
    ensures DecodeIgnore(EncodeOne(c) + rest) == [c] + DecodeIgnore(rest)
  {
    WholeCharacter(c, rest);
    assert (EncodeOne(c) + rest)[|EncodeOne(c)|..] == rest;
  }

  lemma CutBehind<T>(a: seq<T>, b: seq<T>, n: nat)
    requires |a| <= n <= |a| + |b|
    ensures (a + b)[..n] == a + b[..n - |a|]
  {
  }

  lemma DecodeHead(text: seq<CodePoint>, n: nat)
    requires IsScalarText(text) && text != [] && |EncodeOne(text[0])| <= n <= |Encode(text)|
    ensures DecodeIgnore(Encode(text)[..n])
         == [text[0]] + DecodeIgnore(Encode(text[1..])[..n - |EncodeOne(text[0])|])
  {
    assert text[0] in text;
    CutBehind(EncodeOne(text[0]), Encode(text[1..]), n);
    DecodeOne(text[0], Encode(text[1..])[..n - |EncodeOne(text[0])|]);
  }

  lemma DecodeNone(text: seq<CodePoint>, n: nat)
    requires IsScalarText(text) && text != [] && n < |EncodeOne(text[0])|
    ensures DecodeIgnore(Encode(text)[..n]) == [] && LongestFitting(text, n, 0)
  {
    EncodePrefix(text, 1);
    assert text[0] in text;
    if n > 0 {
      assert Encode(text)[..n] == EncodeOne(text[0])[..n];
      CutCharacter(text[0], n);
    }
  }

  /** The empty text. */
  lemma DecodeEmpty(text: seq<CodePoint>, n: nat)
    requires text == [] && n <= |Encode(text)|
    ensures LongestFitting(text, n, 0) && DecodeIgnore(Encode(text)[..n]) == text[..0]
  {
  }

  lemma EncodeTail(text: seq<CodePoint>)
    requires IsScalarText(text) && text != []
    ensures IsScalarText(text[1..]) && |Encode(text)| == |EncodeOne(text[0])| + |Encode(text[1..])|
  {
  }

  /** One character more in front. */
  lemma DecodeLonger(text: seq<CodePoint>, n: nat, j: nat)
    requires IsScalarText(text) && text != [] && |EncodeOne(text[0])| <= n <= |Encode(text)|
    requires LongestFitting(text[1..], n - |EncodeOne(text[0])|, j)
    requires DecodeIgnore(Encode(text[1..])[..n - |EncodeOne(text[0])|]) == text[1..][..j]
    ensures LongestFitting(text, n, j + 1)
    ensures DecodeIgnore(Encode(text)[..n]) == text[..j + 1]
  {
    LongestFittingTail(text, n, j);
    DecodeHead(text, n);
    assert text[..j + 1] == [text[0]] + text[1..][..j];
  }

  lemma {:induction false} DecodeCut(text: seq<CodePoint>, n: nat) returns (k: nat)
    requires IsScalarText(text) && n <= |Encode(text)|
    ensures LongestFitting(text, n, k)
    ensures DecodeIgnore(Encode(text)[..n]) == text[..k]
    decreases |text|
  {
    hide Encode, EncodeOne, DecodeIgnore;
    k := 0;
    if text == [] {
      DecodeEmpty(text, n);
    } else if n >= |EncodeOne(text[0])| {
      EncodeTail(text);
      var j := DecodeCut(text[1..], n - |EncodeOne(text[0])|);
      k := j + 1;
      DecodeLonger(text, n, j);
    } else {
      DecodeNone(text, n);
    }
  }

  lemma {:induction false} EncodeGrows(text: seq<CodePoint>, j: nat, k: nat)
    requires j < k <= |text|
    ensures |Encode(text[..j])| < |Encode(text[..k])|
    decreases k
  {
    EncodePrefix(text, k);
    if j > 0 {
      EncodePrefix(text, j);
      EncodeGrows(text[1..], j - 1, k - 1);
    }
  }

  /** Decoding undoes encoding. */
  lemma RoundTrip(text: seq<CodePoint>)
    requires IsScalarText(text)
    ensures DecodeIgnore(Encode(text)) == text
  {
    var k := DecodeCut(text, |Encode(text)|);
    assert Encode(text)[..|Encode(text)|] == Encode(text);
    assert text[..|text|] == text;
    if k < |text| {
      EncodeGrows(text, k, |text|);
      if k + 1 < |text| {
        EncodeGrows(text, k + 1, |text|);
      }
    }
  }

  /** Truncation gives the longest prefix whose encoding fits. */
  lemma TruncationIsLongestPrefix(text: seq<CodePoint>, maxBytes: nat) returns (k: nat)
    requires IsScalarText(text)
    ensures LongestFitting(text, maxBytes, k)
    ensures TruncateToBytes(text, maxBytes) == Ok(text[..k])
  {
    if |Encode(text)| <= maxBytes {
      k := |text|;
      assert text[..k] == text;
    } else {
      k := DecodeCut(text, maxBytes);
    }
  }

  /** No other prefix is the longest. */
  lemma OneLongest(text: seq<CodePoint>, n: nat, j: nat, k: nat)
    requires LongestFitting(text, n, j) && LongestFitting(text, n, k)
    ensures j == k
  {
    if j < k && j + 1 < k {
      EncodeGrows(text, j + 1, k);
    } else if k < j && k + 1 < j {
      EncodeGrows(text, k + 1, j);
    }
  }

  /** A negative limit drops that many bytes from the end: the result exceeds the limit, as any text does. */
  lemma NegativeLimit(text: seq<CodePoint>, maxBytes: int) returns (k: nat)
    requires IsScalarText(text) && maxBytes < 0
    ensures LongestFitting(text, if |Encode(text)| + maxBytes >= 0 then |Encode(text)| + maxBytes else 0, k)
    ensures TruncateToBytes(text, maxBytes) == Ok(text[..k])
  {
    var n := if |Encode(text)| + maxBytes >= 0 then |Encode(text)| + maxBytes else 0;
    k := DecodeCut(text, n);
    assert CutBytes(Encode(text), maxBytes) == Encode(text)[..n];
  }
}
