/** The byte-level conversions between UTF-8 and ISO-8859-1 (Latin-1).
    Going to Latin-1 is lossy and best-effort: an ASCII byte is kept, a
    two-byte UTF-8 sequence `110xxxxx 10xxxxxx` (RFC 3629, section 3) is
    collapsed into one byte, and every other non-ASCII byte becomes `'?'`.
    Going to UTF-8 is lossless: each byte of 0x80 or more becomes two bytes. */
module Transliterate {
  import opened Bytes

  /** The byte `'?'`. */
  const Question: byte := 63

  /** `(b & 0xE0) == 0xC0`: the lead byte of a two-byte sequence. */
  predicate IsLead(b: byte) { b / 32 == 6 }

  /** `(b & 0xC0) == 0x80`: a continuation byte. */
  predicate IsContinuation(b: byte) { b / 64 == 2 }

  /** `((lead & 0x1F) << 6) | (cont & 0x3F)` computed on a Go `byte`: the
      shift keeps only the low 8 bits, and the two operands of `|` share no
      bit, so it adds. */
  function Collapse(lead: byte, cont: byte): byte
  {
    ((lead % 32) * 64) % 256 + cont % 64
  }

  /** The code point a two-byte sequence encodes (RFC 3629, section 3). */
  function CodePoint(lead: byte, cont: byte): nat
  {
    (lead % 32) * 64 + cont % 64
  }

  /** Whether the bytes at the front of s form a pair that is collapsed. */
  predicate StartsPair(s: seq<byte>)
  {
    |s| >= 2 && IsLead(s[0]) && IsContinuation(s[1])
  }

  /** The UTF-8 to ISO-8859-1 transliteration, one input position at a time
      from the left, as the loop of bytesUtf8ToIso88591 walks it. */
  function ToIso88591(s: seq<byte>): (r: seq<byte>)
    ensures |r| <= |s|
  {
    if s == [] then [] else [FirstOut(s)] + ToIso88591(s[FirstWidth(s)..])
  }

  /** The byte the front of s becomes: an ASCII byte itself, a pair its
      collapsed byte, any other byte `'?'`. */
  function FirstOut(s: seq<byte>): byte
    requires s != []
  {
    if s[0] < 0x80 then s[0] else if StartsPair(s) then Collapse(s[0], s[1]) else Question
  }

  /** How many input bytes FirstOut consumes. */
  function FirstWidth(s: seq<byte>): (w: nat)
    requires s != []
    ensures 1 <= w <= |s|
  {
    if StartsPair(s) then 2 else 1
  }

  /** `0xC0|(b>>6), 0x80|(b&0x3F)` for b >= 0x80 (the OR'ed bits are disjoint). */
  function Expand(b: byte): seq<byte>
  {
    if b < 0x80 then [b] else [0xC0 + b / 64, 0x80 + b % 64]
  }

  /** The ISO-8859-1 to UTF-8 conversion: every byte becomes one or two. */
  function ToUtf8(s: seq<byte>): (r: seq<byte>)
    ensures |s| <= |r| <= 2 * |s|
  {
    if s == [] then [] else Expand(s[0]) + ToUtf8(s[1..])
  }

  /** The number of bytes of s that are 0x80 or more. */
  function HighBytes(s: seq<byte>): nat
  {
    if s == [] then 0 else (if s[0] >= 0x80 then 1 else 0) + HighBytes(s[1..])
  }

  /** The number of pairs ToIso88591 collapses. */
  function CollapsedPairs(s: seq<byte>): nat
  {
    if s == [] then 0
    else if s[0] < 0x80 then CollapsedPairs(s[1..])
    else if StartsPair(s) then 1 + CollapsedPairs(s[2..])
    else CollapsedPairs(s[1..])
  }

  /** UTF-8 text made only of ASCII bytes and two-byte sequences led by 0xC2
      or 0xC3: exactly the text whose characters lie in U+0000..U+00FF. */
  predicate Latin1Utf8(t: seq<byte>)
  {
    if t == [] then true
    else if t[0] < 0x80 then Latin1Utf8(t[1..])
    else |t| >= 2 && (t[0] == 0xC2 || t[0] == 0xC3) && 0x80 <= t[1] <= 0xBF && Latin1Utf8(t[2..])
  }

  predicate AllAscii(s: seq<byte>)
  {
    forall i :: 0 <= i < |s| ==> s[i] < 0x80
  }

  /** bytesUtf8ToIso88591. */
  method BytesUtf8ToIso88591(value: seq<byte>) returns (isoOutput: seq<byte>)
    ensures isoOutput == ToIso88591(value)
  {
    isoOutput := [];
    var i := 0;
    while i < |value|
      invariant 0 <= i <= |value|
      invariant isoOutput + ToIso88591(value[i..]) == ToIso88591(value)
    {
      var b := value[i];
      var c: byte, step: nat;
      if b < 0x80 {
        c, step := b, 1;
      } else if IsLead(b) && i + 1 < |value| && IsContinuation(value[i + 1]) {
        c, step := Collapse(b, value[i + 1]), 2;
      } else {
        c, step := Question, 1;
      }
      ToIso88591At(value, i, c, step);
      AppendFront(isoOutput, c, ToIso88591(value[i + step..]), ToIso88591(value[i..]));
      isoOutput := isoOutput + [c];
      i := i + step;
    }
  }

  lemma AppendFront(done: seq<byte>, c: byte, rest: seq<byte>, tail: seq<byte>)
    requires tail == [c] + rest
    ensures (done + [c]) + rest == done + tail
  {
  }

  /** ToIso88591 on the suffix from i, unfolded once: the byte and the
      width of its front, in the terms of the loop of bytesUtf8ToIso88591. */
  lemma ToIso88591At(value: seq<byte>, i: nat, c: byte, step: nat)
    requires i < |value|
    requires c == (if value[i] < 0x80 then value[i]
                   else if IsLead(value[i]) && i + 1 < |value| && IsContinuation(value[i + 1])
                   then Collapse(value[i], value[i + 1]) else Question)
    requires step == (if IsLead(value[i]) && i + 1 < |value| && IsContinuation(value[i + 1]) then 2 else 1)
    ensures i + step <= |value|
    ensures ToIso88591(value[i..]) == [c] + ToIso88591(value[i + step..])
  {
    var rest := value[i..];
    assert rest[0] == value[i];
    if i + 1 < |value| {
      assert rest[1] == value[i + 1];
    }
    assert FirstOut(rest) == c && FirstWidth(rest) == step;
    assert rest[step..] == value[i + step..];
  }

  /** bytesIso88591ToUtf8. */
  method BytesIso88591ToUtf8(value: seq<byte>) returns (utf8Output: seq<byte>)
    ensures utf8Output == ToUtf8(value)
  {
    utf8Output := [];
    var i := 0;
    while i < |value|
      invariant 0 <= i <= |value|
      invariant utf8Output == ToUtf8(value[..i])
    {
      var b := value[i];
      assert value[..i + 1] == value[..i] + [b];
      ToUtf8Concat(value[..i], [b]);
      assert ToUtf8([b]) == Expand(b);
      if b < 0x80 {
        utf8Output := utf8Output + [b];
      } else {
        utf8Output := utf8Output + [0xC0 + b / 64, 0x80 + b % 64];
      }
      i := i + 1;
    }
    assert value[..i] == value;
  }

  /** StringUtf8ToIso88591: a Go string is its bytes. */
  method StringUtf8ToIso88591(value: seq<byte>) returns (r: seq<byte>)
    ensures r == ToIso88591(value)
  {
    r := BytesUtf8ToIso88591(value);
  }

  /** StringIso88591ToUtf8: a Go string is its bytes. */
  method StringIso88591ToUtf8(value: seq<byte>) returns (r: seq<byte>)
    ensures r == ToUtf8(value)
  {
    r := BytesIso88591ToUtf8(value);
  }

  /** The conversion to UTF-8 works byte by byte. */
  lemma {:induction false} ToUtf8Concat(a: seq<byte>, b: seq<byte>)
    ensures ToUtf8(a + b) == ToUtf8(a) + ToUtf8(b)
  {
    if a == [] {
      assert a + b == b;
    } else {
      assert (a + b)[1..] == a[1..] + b;
      ToUtf8Concat(a[1..], b);
    }
  }
}
