/** Text as the decoder sees it: a Python `str` is represented by its UTF-8 bytes. */
module Text {

  type Byte = b: int | 0 <= b < 256
  type Bytes = seq<Byte>

  const LF: Byte := 0x0A
  const CR: Byte := 0x0D
  const SPACE: Byte := 0x20
  const COLON: Byte := 0x3A
  const BOM: Bytes := [0xEF, 0xBB, 0xBF]

  const DATA_FIELD: Bytes := [0x64, 0x61, 0x74, 0x61]
  const EVENT_FIELD: Bytes := [0x65, 0x76, 0x65, 0x6E, 0x74]
  const MESSAGE: Bytes := [0x6D, 0x65, 0x73, 0x73, 0x61, 0x67, 0x65]
  const PING: Bytes := [0x70, 0x69, 0x6E, 0x67]
  const HEARTBEAT: Bytes := [0x68, 0x65, 0x61, 0x72, 0x74, 0x62, 0x65, 0x61, 0x74]

  predicate Continuation(b: Byte) { 0x80 <= b <= 0xBF }

  /** How many bytes the well-formed scalar value at the front of `s` takes, 0 when there is none
      (table 3-7 of the Unicode Standard: no overlong forms, no surrogates, nothing above U+10FFFF). */
  function ScalarLength(s: Bytes): (n: nat)
    ensures n <= |s|
  {
    if s == [] then 0
    else if s[0] < 0x80 then 1
    else if 0xC2 <= s[0] <= 0xDF then
      if |s| >= 2 && Continuation(s[1]) then 2 else 0
    else if 0xE0 <= s[0] <= 0xEF then
      if |s| >= 3 && Continuation(s[1]) && Continuation(s[2])
         && (s[0] == 0xE0 ==> 0xA0 <= s[1]) && (s[0] == 0xED ==> s[1] <= 0x9F) then 3 else 0
    else if 0xF0 <= s[0] <= 0xF4 then
      if |s| >= 4 && Continuation(s[1]) && Continuation(s[2]) && Continuation(s[3])
         && (s[0] == 0xF0 ==> 0x90 <= s[1]) && (s[0] == 0xF4 ==> s[1] <= 0x8F) then 4 else 0
    else 0
  }

  /** `bytes.decode("utf-8", "strict")` succeeds. */
  predicate ValidUtf8(s: Bytes)
    decreases |s|
  {
    s == [] || (ScalarLength(s) > 0 && ValidUtf8(s[ScalarLength(s)..]))
  }

  /** The scalar at the front of `s` is one that `str.strip()` removes. */
  predicate LeadingWhitespace(s: Bytes)
    requires ScalarLength(s) > 0
  {
    || (ScalarLength(s) == 1 && (0x09 <= s[0] <= 0x0D || 0x1C <= s[0] <= 0x20))
    || (ScalarLength(s) == 2 && s[0] == 0xC2 && (s[1] == 0x85 || s[1] == 0xA0))
    || (ScalarLength(s) == 3 && s[0] == 0xE1 && s[1] == 0x9A && s[2] == 0x80)
    || (ScalarLength(s) == 3 && s[0] == 0xE2 && s[1] == 0x80
        && (s[2] <= 0x8A || s[2] == 0xA8 || s[2] == 0xA9 || s[2] == 0xAF))
    || (ScalarLength(s) == 3 && s[0] == 0xE2 && s[1] == 0x81 && s[2] == 0x9F)
    || (ScalarLength(s) == 3 && s[0] == 0xE3 && s[1] == 0x80 && s[2] == 0x80)
  }

  /** `text.strip()` is empty. */
  predicate Blank(s: Bytes)
    decreases |s|
  {
    s == [] || (ScalarLength(s) > 0 && LeadingWhitespace(s) && Blank(s[ScalarLength(s)..]))
  }

  /** ASCII lower-casing; no scalar above ASCII lower-cases to a letter of "ping" or "heartbeat". */
  function Lower(s: Bytes): (r: Bytes)
    ensures |r| == |s|
  {
    if s == [] then []
    else [if 0x41 <= s[0] <= 0x5A then s[0] + 0x20 else s[0]] + Lower(s[1..])
  }

  /** Neither CR nor LF occurs. */
  predicate OneLine(s: Bytes) { CR !in s && LF !in s }

  /** Position of the first `b`, or |s|. */
  function Find(s: Bytes, b: Byte): (k: nat)
    ensures k <= |s|
    ensures b !in s[..k]
    ensures k < |s| ==> s[k] == b
  {
    if s == [] || s[0] == b then 0 else Find(s[1..], b) + 1
  }

  /** `"\n".join(parts)` */
  function Join(parts: seq<Bytes>): Bytes
  {
    if parts == [] then [] else if |parts| == 1 then parts[0] else parts[0] + [LF] + Join(parts[1..])
  }

  function Flatten(chunks: seq<Bytes>): Bytes
  {
    if chunks == [] then [] else chunks[0] + Flatten(chunks[1..])
  }

  /** Validity is compositional on the left: a valid prefix can be peeled off. */
  lemma {:induction false} ValidConcat(a: Bytes, b: Bytes)
    requires ValidUtf8(a)
    ensures ValidUtf8(a + b) <==> ValidUtf8(b)
    decreases |a|
  {
    if a == [] {
      assert a + b == b;
    } else {
      var n := ScalarLength(a);
      assert ScalarLength(a + b) == n;
      assert (a + b)[n..] == a[n..] + b;
      ValidConcat(a[n..], b);
    }
  }

  /** An ASCII byte never sits inside a longer scalar, so both sides of it are valid on their own. */
  lemma {:induction false} ValidSplitAtAscii(a: Bytes, c: Byte, b: Bytes)
    requires c < 0x80 && ValidUtf8(a + [c] + b)
    ensures ValidUtf8(a) && ValidUtf8(b)
    decreases |a|
  {
    var s := a + [c] + b;
    var n := ScalarLength(s);
    if a == [] {
      assert s[0] == c && s[1..] == b;
    } else {
      assert forall i :: 0 <= i < |a| ==> s[i] == a[i];
      assert s[|a|] == c;
      assert n <= |a|;
      assert ScalarLength(a) == n;
      assert s[n..] == a[n..] + [c] + b;
      ValidSplitAtAscii(a[n..], c, b);
    }
  }
}
