/** What the byte-level text predicates mean: UTF-8 as the encoding of strings of characters. */
module Utf8 {
  import opened Json
  import opened Text

  /** The encoding of one character (section 3 of RFC 3629). */
  function Encode(c: char): (r: Bytes)
    ensures 1 <= |r| <= 4
  {
    var n := c as int;
    if n < 0x80 then [n]
    else if n < 0x800 then [0xC0 + n / 64, 0x80 + n % 64]
    else if n < 0x1_0000 then [0xE0 + n / 4096, 0x80 + n / 64 % 64, 0x80 + n % 64]
    else [0xF0 + n / 262144, 0x80 + n / 4096 % 64, 0x80 + n / 64 % 64, 0x80 + n % 64]
  }

  /** `text.encode("utf-8")` */
  function EncodeAll(text: string): Bytes
    decreases |text|
  {
    if text == "" then [] else Encode(text[0]) + EncodeAll(text[1..])
  }

  lemma EncodedLength(c: char, rest: Bytes)
    ensures ScalarLength(Encode(c) + rest) == |Encode(c)|
    ensures (Encode(c) + rest)[|Encode(c)|..] == rest
  {
    var n, s := c as int, Encode(c) + rest;
    assert forall i | 0 <= i < |Encode(c)| :: s[i] == Encode(c)[i];
    if 0x800 <= n < 0x1_0000 {
      assert n / 4096 == 0 ==> n / 64 >= 32;
      assert n / 4096 == 13 ==> n < 0xD800 ==> n / 64 % 64 <= 31;
    } else if 0x1_0000 <= n {
      assert n / 262144 == 0 ==> n / 4096 >= 16;
      assert n / 262144 == 4 ==> n / 4096 % 64 <= 15;
    }
  }

  lemma DivideBack(q: int, r: int, d: int)
    requires d > 0 && 0 <= r < d
    ensures (q * d + r) / d == q && (q * d + r) % d == r
  {
    var n := q * d + r;
    var e := n / d - q;
    assert d * e == r - n % d;
    assert e >= 1 ==> d * e >= d;
    assert e <= -1 ==> d * e <= -d;
  }

  lemma TwoBytes(a: Byte, b: Byte) returns (c: char)
    requires 0xC2 <= a <= 0xDF && Continuation(b)
    ensures Encode(c) == [a, b]
  {
    var high: int, low: int := a - 0xC0, b - 0x80;
    var n := high * 64 + low;
    DivideBack(high, low, 64);
    c := n as char;
  }

  lemma ThreeBytes(a: Byte, b: Byte, d: Byte) returns (c: char)
    requires 0xE0 <= a <= 0xEF && Continuation(b) && Continuation(d)
    requires (a == 0xE0 ==> 0xA0 <= b) && (a == 0xED ==> b <= 0x9F)
    ensures Encode(c) == [a, b, d]
  {
    var high: int, middle: int, low: int := a - 0xE0, b - 0x80, d - 0x80;
    var front := high * 64 + middle;
    var n := front * 64 + low;
    DivideBack(high, middle, 64);
    DivideBack(front, low, 64);
    DivideBack(high, middle * 64 + low, 4096);
    assert n == high * 4096 + (middle * 64 + low);
    c := n as char;
  }

  lemma FourBytes(a: Byte, b: Byte, d: Byte, e: Byte) returns (c: char)
    requires 0xF0 <= a <= 0xF4 && Continuation(b) && Continuation(d) && Continuation(e)
    requires (a == 0xF0 ==> 0x90 <= b) && (a == 0xF4 ==> b <= 0x8F)
    ensures Encode(c) == [a, b, d, e]
  {
    var high: int, second: int, third: int, low: int := a - 0xF0, b - 0x80, d - 0x80, e - 0x80;
    var head := high * 64 + second;
    var front := head * 64 + third;
    var n := front * 64 + low;
    DivideBack(high, second, 64);
    DivideBack(head, third, 64);
    DivideBack(front, low, 64);
    DivideBack(head, third * 64 + low, 4096);
    DivideBack(high, second * 4096 + third * 64 + low, 262144);
    assert n == head * 4096 + (third * 64 + low);
    assert n == high * 262144 + (second * 4096 + third * 64 + low);
    c := n as char;
  }

  /** The character in front of a text that starts with a well-formed one. */
  lemma FirstOf(s: Bytes) returns (c: char)
    requires ScalarLength(s) > 0
    ensures s[..ScalarLength(s)] == Encode(c)
  {
    hide Encode;
    var n := ScalarLength(s);
    if n == 1 {
      c := OneByte(s[0]);
    } else if n == 2 {
      c := TwoBytes(s[0], s[1]);
    } else if n == 3 {
      c := ThreeBytes(s[0], s[1], s[2]);
    } else {
      c := FourBytes(s[0], s[1], s[2], s[3]);
    }
  }

  lemma OneByte(a: Byte) returns (c: char)
    requires a < 0x80
    ensures Encode(c) == [a]
  {
    c := a as char;
  }

  lemma {:induction false} EncodingIsValid(text: string)
    ensures ValidUtf8(EncodeAll(text))
    decreases |text|
  {
    hide ScalarLength, Encode;
    if text != "" {
      EncodedLength(text[0], EncodeAll(text[1..]));
      EncodingIsValid(text[1..]);
    }
  }

  lemma {:induction false} Decoded(s: Bytes) returns (text: string)
    requires ValidUtf8(s)
    ensures EncodeAll(text) == s
    decreases |s|
  {
    hide ScalarLength, Encode;
    if s == [] {
      text := "";
    } else {
      var n := ScalarLength(s);
      var rest := Decoded(s[n..]);
      var c := FirstOf(s);
      text := [c] + rest;
      assert text[1..] == rest && s == s[..n] + s[n..];
    }
  }

  /** Bytes decode strictly exactly when they are the encoding of some text. */
  lemma DecodesExactly(s: Bytes)
    ensures ValidUtf8(s) <==> exists text :: EncodeAll(text) == s
  {
    if ValidUtf8(s) {
      var text := Decoded(s);
    } else if exists text :: EncodeAll(text) == s {
      var text :| EncodeAll(text) == s;
      EncodingIsValid(text);
    }
  }

  lemma WhitespaceAgrees(c: char, rest: Bytes)
    ensures ScalarLength(Encode(c) + rest) > 0
    ensures LeadingWhitespace(Encode(c) + rest) <==> Whitespace(c)
  {
    EncodedLength(c, rest);
    var s := Encode(c) + rest;
    assert s[0] == Encode(c)[0];
    if |Encode(c)| > 1 { assert s[1] == Encode(c)[1]; }
    if |Encode(c)| > 2 { assert s[2] == Encode(c)[2]; }
    hide ScalarLength;
  }

  /** Stripping leaves nothing of the bytes exactly when it leaves nothing of the text. */
  lemma {:induction false} BlankExactly(text: string)
    ensures Blank(EncodeAll(text)) <==> BlankString(text)
    decreases |text|
  {
    hide ScalarLength, Encode, LeadingWhitespace, Whitespace;
    if text != "" {
      EncodedLength(text[0], EncodeAll(text[1..]));
      WhitespaceAgrees(text[0], EncodeAll(text[1..]));
      BlankExactly(text[1..]);
      assert forall c <- text :: c == text[0] || c in text[1..];
    }
  }
}
