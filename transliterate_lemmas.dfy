/** Properties of the transliterations: lengths, the two round trips, and
    how the UTF-8 to Latin-1 conversion treats concatenation. */
module TransliterateLemmas {
  import opened Bytes
  import opened Transliterate

  lemma {:induction false} ToUtf8Length(s: seq<byte>)
    ensures |ToUtf8(s)| == |s| + HighBytes(s)
  {
    if s != [] {
      ToUtf8Length(s[1..]);
    }
  }

  lemma {:induction false} ToIso88591Length(s: seq<byte>)
    ensures |ToIso88591(s)| == |s| - CollapsedPairs(s)
    ensures 2 * CollapsedPairs(s) <= |s|
  {
    if s != [] {
      if s[0] < 0x80 || !StartsPair(s) {
        ToIso88591Length(s[1..]);
      } else {
        ToIso88591Length(s[2..]);
      }
    }
  }

  /** Every byte ToUtf8 emits is ASCII, a lead byte 0xC2 or 0xC3, or a
      continuation byte 0x80..0xBF right after such a lead. */
  lemma {:induction false} ToUtf8IsLatin1Utf8(s: seq<byte>)
    ensures Latin1Utf8(ToUtf8(s))
  {
    if s != [] {
      ToUtf8IsLatin1Utf8(s[1..]);
      var t := ToUtf8(s);
      if s[0] < 0x80 {
        assert t[1..] == ToUtf8(s[1..]);
      } else {
        assert t[2..] == ToUtf8(s[1..]);
      }
    }
  }

  /** Latin-1 to UTF-8 and back gives back every byte sequence. */
  lemma {:induction false} RoundTrip(x: seq<byte>)
    ensures ToIso88591(ToUtf8(x)) == x
  {
    if x != [] {
      RoundTrip(x[1..]);
      var t := ToUtf8(x);
      if x[0] < 0x80 {
        assert t[1..] == ToUtf8(x[1..]);
      } else {
        assert StartsPair(t);
        assert t[2..] == ToUtf8(x[1..]);
        assert Collapse(t[0], t[1]) == x[0];
      }
    }
  }

  /** UTF-8 to Latin-1 and back is the identity on Latin-1 UTF-8 text. */
  lemma {:induction false} ReverseRoundTrip(s: seq<byte>)
    requires Latin1Utf8(s)
    ensures ToUtf8(ToIso88591(s)) == s
  {
    if s != [] {
      Latin1Front(s);
      ReverseRoundTrip(s[FirstWidth(s)..]);
      ReverseStep(s);
    }
  }

  /** One character of the reverse round trip. */
  lemma ReverseStep(s: seq<byte>)
    requires s != [] && Expand(FirstOut(s)) == s[..FirstWidth(s)]
    requires ToUtf8(ToIso88591(s[FirstWidth(s)..])) == s[FirstWidth(s)..]
    ensures ToUtf8(ToIso88591(s)) == s
  {
    var k := FirstWidth(s);
    ToIso88591Front(s);
    SplitJoin(s, k);
    ExpandThenRest(FirstOut(s), ToIso88591(s[k..]), ToIso88591(s), s[..k], s[k..], s);
  }

  lemma SplitJoin(s: seq<byte>, k: nat)
    requires k <= |s|
    ensures s[..k] + s[k..] == s
  {
  }

  lemma ToIso88591Front(s: seq<byte>)
    requires s != []
    ensures ToIso88591(s) == [FirstOut(s)] + ToIso88591(s[FirstWidth(s)..])
  {
  }

  /** Expanding the front byte and then the rest gives back the two pieces. */
  lemma ExpandThenRest(h: byte, t: seq<byte>, full: seq<byte>, front: seq<byte>, back: seq<byte>, whole: seq<byte>)
    requires full == [h] + t && Expand(h) == front && ToUtf8(t) == back && whole == front + back
    ensures ToUtf8(full) == whole
  {
    assert full[1..] == t;
  }

  /** The front of Latin-1 UTF-8 text is one character that expands back to
      the bytes it was read from. */
  lemma Latin1Front(s: seq<byte>)
    requires Latin1Utf8(s) && s != []
    ensures Latin1Utf8(s[FirstWidth(s)..]) && Expand(FirstOut(s)) == s[..FirstWidth(s)]
  {
    if s[0] >= 0x80 {
      ExpandCollapse(s[0], s[1]);
    }
  }

  lemma ExpandCollapse(lead: byte, cont: byte)
    requires lead == 0xC2 || lead == 0xC3
    requires 0x80 <= cont <= 0xBF
    ensures Expand(Collapse(lead, cont)) == [lead, cont]
  {
    if lead == 0xC2 {
      assert Collapse(lead, cont) == 0x80 + (cont - 0x80);
    } else {
      assert Collapse(lead, cont) == 0xC0 + (cont - 0x80);
    }
  }

  /** The reverse round trip holds exactly on Latin-1 UTF-8 text. */
  lemma ReverseRoundTripExactly(s: seq<byte>)
    ensures ToUtf8(ToIso88591(s)) == s <==> Latin1Utf8(s)
  {
    if Latin1Utf8(s) {
      ReverseRoundTrip(s);
    } else {
      ToUtf8IsLatin1Utf8(ToIso88591(s));
    }
  }

  /** Both conversions are the identity on ASCII text. */
  lemma {:induction false} AsciiIdentity(s: seq<byte>)
    requires AllAscii(s)
    ensures ToIso88591(s) == s
    ensures ToUtf8(s) == s
  {
    if s != [] {
      assert AllAscii(s[1..]) by {
        forall i | 0 <= i < |s[1..]| ensures s[1..][i] < 0x80 {
          assert s[1..][i] == s[i + 1];
        }
      }
      AsciiIdentity(s[1..]);
    }
  }

  /** Transliteration never pulls a byte across a cut that is not followed by
      a continuation byte: each replaced byte is one `'?'` and the positions
      after it are read as if the text started there. */
  lemma {:induction false} ToIso88591Concat(a: seq<byte>, b: seq<byte>)
    requires b == [] || !IsContinuation(b[0])
    ensures ToIso88591(a + b) == ToIso88591(a) + ToIso88591(b)
  {
    if a == [] {
      assert a + b == b;
    } else {
      ConcatFront(a, b);
      ToIso88591Concat(a[FirstWidth(a)..], b);
    }
  }

  /** The front of a + b is read as the front of a. */
  lemma ConcatFront(a: seq<byte>, b: seq<byte>)
    requires a != [] && (b == [] || !IsContinuation(b[0]))
    ensures FirstOut(a + b) == FirstOut(a) && FirstWidth(a + b) == FirstWidth(a)
    ensures (a + b)[FirstWidth(a)..] == a[FirstWidth(a)..] + b
  {
    var ab := a + b;
    assert ab[0] == a[0];
    if |a| >= 2 {
      assert ab[1] == a[1];
    } else if b != [] {
      assert ab[1] == b[0];
    }
  }

  /** A lead byte in the last position has no continuation: it becomes `'?'`. */
  lemma DanglingLead(a: seq<byte>, lead: byte)
    requires IsLead(lead)
    ensures ToIso88591(a + [lead]) == ToIso88591(a) + [Question]
  {
    ToIso88591Concat(a, [lead]);
  }

  /** A collapsed pair yields its code point truncated to 8 bits, so a
      character of U+0100..U+07FF becomes an unrelated Latin-1 byte (U+0100,
      bytes C4 80, becomes 0x00) instead of `'?'`. */
  lemma CollapseTruncates(lead: byte, cont: byte)
    requires IsLead(lead) && IsContinuation(cont)
    ensures Collapse(lead, cont) == CodePoint(lead, cont) % 256
    ensures CodePoint(lead, cont) < 256 <==> lead < 0xC4
  {
  }
}
