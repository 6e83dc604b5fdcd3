/**
 Byte and UTF-16 offsets into a text (crates/gpui/examples/input.rs). Character widths are those of section 3
 of RFC 3629 and section 2.1 of RFC 2781.
 */
module TextOffsets {

  datatype Encoding = Utf8 | Utf16

  function Width(c: char, e: Encoding): (n: nat)
    ensures n >= 1
  {
    var code := c as int;
    match e
    case Utf8 => if code < 0x80 then 1 else if code < 0x800 then 2 else if code < 0x1_0000 then 3 else 4
    case Utf16 => if code < 0x1_0000 then 1 else 2
  }

  // ----- The encodings that the widths belong to -----

  /** The bytes of a character (section 3 of RFC 3629): the leading byte tells how many there are. */
  function Utf8Bytes(code: nat): seq<nat> {
    if code < 0x80 then [code]
    else if code < 0x800 then [0xC0 + code / 0x40, Tail(code, 0x1)]
    else if code < 0x1_0000 then [0xE0 + code / 0x1000, Tail(code, 0x40), Tail(code, 0x1)]
    else [0xF0 + code / 0x4_0000, Tail(code, 0x1000), Tail(code, 0x40), Tail(code, 0x1)]
  }

  /** A continuation byte carries six bits. */
  function Tail(code: nat, unit: nat): nat
    requires unit >= 1
  {
    0x80 + code / unit % 0x40
  }

  /** Reads one character, and how many bytes it took. */
  function ReadUtf8(b: seq<nat>): (nat, nat) {
    if b == [] then (0, 0)
    else if b[0] < 0x80 then (b[0], 1)
    else if 0xC0 <= b[0] < 0xE0 && |b| >= 2 then (Bits(b[0], 0xC0) * 0x40 + Bits(b[1], 0x80), 2)
    else if 0xE0 <= b[0] < 0xF0 && |b| >= 3 then
      (Bits(b[0], 0xE0) * 0x1000 + Bits(b[1], 0x80) * 0x40 + Bits(b[2], 0x80), 3)
    else if 0xF0 <= b[0] && |b| >= 4 then
      (Bits(b[0], 0xF0) * 0x4_0000 + Bits(b[1], 0x80) * 0x1000 + Bits(b[2], 0x80) * 0x40 + Bits(b[3], 0x80), 4)
    else (0, 0)
  }

  function Bits(byte: nat, mark: nat): nat {
    if byte < mark then 0 else byte - mark
  }

  /** One unit, or a surrogate pair (section 2.1 of RFC 2781). */
  function Utf16Units(code: nat): seq<nat> {
    if code < 0x1_0000 then [code]
    else [0xD800 + (code - 0x1_0000) / 0x400, 0xDC00 + (code - 0x1_0000) % 0x400]
  }

  function ReadUtf16(u: seq<nat>): (nat, nat) {
    if u == [] then (0, 0)
    else if 0xD800 <= u[0] < 0xDC00 && |u| >= 2 then
      (0x1_0000 + Bits(u[0], 0xD800) * 0x400 + Bits(u[1], 0xDC00), 2)
    else (u[0], 1)
  }

  /** The width of a character is the number of bytes that a reader takes to read it back. */
  lemma WidthIsUtf8(c: char, rest: seq<nat>)
    ensures |Utf8Bytes(c as nat)| == Width(c, Utf8)
    ensures ReadUtf8(Utf8Bytes(c as nat) + rest) == (c as nat, Width(c, Utf8))
  {
    var code := c as nat;
    assert code / 0x40 == code / 0x1000 * 0x40 + code / 0x40 % 0x40;
    assert code / 0x1000 == code / 0x4_0000 * 0x40 + code / 0x1000 % 0x40;
  }

  /** And the number of units in UTF-16. */
  lemma WidthIsUtf16(c: char, rest: seq<nat>)
    ensures |Utf16Units(c as nat)| == Width(c, Utf16)
    ensures ReadUtf16(Utf16Units(c as nat) + rest) == (c as nat, Width(c, Utf16))
  {
  }

  // ----- Texts -----

  /** The length of a text in code units. */
  function Length(t: string, e: Encoding): nat {
    if t == "" then 0 else Length(t[..|t| - 1], e) + Width(t[|t| - 1], e)
  }

  /** The number of characters the conversion loops consume for `offset`: they stop at the first character
      boundary that is not before it. */
  function Index(t: string, e: Encoding, offset: nat): (k: nat)
    ensures k <= |t|
    decreases |t|
  {
    IndexFrom(t, e, offset, 0)
  }

  function IndexFrom(t: string, e: Encoding, offset: nat, k: nat): (r: nat)
    requires k <= |t|
    ensures k <= r <= |t|
    decreases |t| - k
  {
    if k == |t| || Length(t[..k], e) >= offset then k else IndexFrom(t, e, offset, k + 1)
  }

  function Convert(t: string, from: Encoding, to: Encoding, offset: nat): nat {
    Length(t[..Index(t, from, offset)], to)
  }

  ghost predicate Boundary(t: string, e: Encoding, offset: nat) {
    exists k :: 0 <= k <= |t| && Length(t[..k], e) == offset
  }

  // ----- Lengths -----

  lemma LengthStep(t: string, e: Encoding, k: nat)
    requires k < |t|
    ensures Length(t[..k + 1], e) == Length(t[..k], e) + Width(t[k], e)
  {
    assert t[..k + 1][..k] == t[..k];
  }

  lemma {:induction false} LengthGrows(t: string, e: Encoding, j: nat, k: nat)
    requires j < k <= |t|
    ensures Length(t[..j], e) < Length(t[..k], e)
    decreases k
  {
    LengthStep(t, e, k - 1);
    if j < k - 1 {
      LengthGrows(t, e, j, k - 1);
    }
  }

  lemma {:induction false} LengthAppend(s: string, t: string, e: Encoding)
    ensures Length(s + t, e) == Length(s, e) + Length(t, e)
    decreases |t|
  {
    if t == "" {
      assert s + t == s;
    } else {
      LengthAppend(s, t[..|t| - 1], e);
      assert (s + t)[..|s + t| - 1] == s + t[..|t| - 1];
    }
  }

  // ----- The index -----

  lemma {:induction false} IndexFromIsFirst(t: string, e: Encoding, offset: nat, k: nat)
    requires k <= |t| && (k > 0 ==> Length(t[..k - 1], e) < offset)
    ensures var r := IndexFrom(t, e, offset, k);
            (r == |t| || Length(t[..r], e) >= offset) && (r > 0 ==> Length(t[..r - 1], e) < offset)
    decreases |t| - k
  {
    if k < |t| && Length(t[..k], e) < offset {
      IndexFromIsFirst(t, e, offset, k + 1);
    }
  }

  lemma IndexIsFirst(t: string, e: Encoding, offset: nat)
    ensures var r := Index(t, e, offset);
            (r == |t| || Length(t[..r], e) >= offset) && (r > 0 ==> Length(t[..r - 1], e) < offset)
  {
    IndexFromIsFirst(t, e, offset, 0);
  }

  /** On a boundary the index is that boundary's character. */
  lemma IndexOfBoundary(t: string, e: Encoding, k: nat)
    requires k <= |t|
    ensures Index(t, e, Length(t[..k], e)) == k
  {
    hide Length, Index;
    var r := Index(t, e, Length(t[..k], e));
    IndexIsFirst(t, e, Length(t[..k], e));
    if r < k {
      LengthGrows(t, e, r, k);
    } else if k < r && k < r - 1 {
      LengthGrows(t, e, k, r - 1);
    }
  }

  lemma BoundaryIndex(t: string, e: Encoding, offset: nat)
    requires Boundary(t, e, offset)
    ensures Length(t[..Index(t, e, offset)], e) == offset
  {
    var k :| 0 <= k <= |t| && Length(t[..k], e) == offset;
    IndexOfBoundary(t, e, k);
  }

  lemma IndexMonotone(t: string, e: Encoding, a: nat, b: nat)
    requires a <= b
    ensures Index(t, e, a) <= Index(t, e, b)
  {
    hide Length, Index;
    IndexIsFirst(t, e, a);
    IndexIsFirst(t, e, b);
    var i, j := Index(t, e, a), Index(t, e, b);
    if j < i && j < i - 1 {
      LengthGrows(t, e, j, i - 1);
    }
  }

  // ----- Conversion -----

  /** The least boundary at or after an offset, or the end of the text. */
  ghost predicate IsCeiling(t: string, e: Encoding, offset: nat, b: nat) {
    && Boundary(t, e, b)
    && (b >= offset || b == Length(t, e))
    && (forall c: nat :: Boundary(t, e, c) && c >= offset ==> b <= c)
  }

  /** Converting there and back rounds an offset up to the next character boundary. */
  lemma ConvertBack(t: string, from: Encoding, to: Encoding, offset: nat)
    ensures IsCeiling(t, from, offset, Convert(t, to, from, Convert(t, from, to, offset)))
  {
    var k := Index(t, from, offset);
    IndexOfBoundary(t, to, k);
    IndexIsFirst(t, from, offset);
    hide Length, Index;
    var b := Length(t[..k], from);
    assert t[..|t|] == t;
    forall c: nat | Boundary(t, from, c) && c >= offset ensures b <= c {
      var j :| 0 <= j <= |t| && Length(t[..j], from) == c;
      if j < k && j < k - 1 {
        LengthGrows(t, from, j, k - 1);
      } else if k < j {
        LengthGrows(t, from, k, j);
      }
    }
  }

  /** On boundaries the two conversions are inverse to each other. */
  lemma ConvertInverse(t: string, from: Encoding, to: Encoding, offset: nat)
    requires Boundary(t, from, offset)
    ensures Boundary(t, to, Convert(t, from, to, offset))
    ensures Convert(t, to, from, Convert(t, from, to, offset)) == offset
  {
    BoundaryIndex(t, from, offset);
    IndexOfBoundary(t, to, Index(t, from, offset));
  }

  lemma ConvertMonotone(t: string, from: Encoding, to: Encoding, a: nat, b: nat)
    requires a <= b
    ensures Convert(t, from, to, a) <= Convert(t, from, to, b)
  {
    IndexMonotone(t, from, a, b);
    hide Length, Index;
    if Index(t, from, a) < Index(t, from, b) {
      LengthGrows(t, to, Index(t, from, a), Index(t, from, b));
    }
  }

  lemma ConvertBoundary(t: string, from: Encoding, to: Encoding, offset: nat)
    ensures Boundary(t, to, Convert(t, from, to, offset)) && Convert(t, from, to, offset) <= Length(t, to)
  {
    hide Length, Index;
    var k := Index(t, from, offset);
    assert t[..|t|] == t;
    if k < |t| {
      LengthGrows(t, to, k, |t|);
    }
  }

  /** `offset_from_utf16` */
  method OffsetFromUtf16(content: string, offset: nat) returns (utf8Offset: nat)
    ensures utf8Offset == Convert(content, Utf16, Utf8, offset)
  {
    hide Length;
    utf8Offset := 0;
    var utf16Count, k := 0, 0;
    LengthZero(content);
    while k < |content|
      invariant 0 <= k <= |content|
      invariant utf16Count == Length(content[..k], Utf16) && utf8Offset == Length(content[..k], Utf8)
      invariant Index(content, Utf16, offset) == IndexFrom(content, Utf16, offset, k)
    {
      if utf16Count >= offset {
        return;
      }
      LengthStep(content, Utf16, k);
      LengthStep(content, Utf8, k);
      utf16Count := utf16Count + Width(content[k], Utf16);
      utf8Offset := utf8Offset + Width(content[k], Utf8);
      k := k + 1;
    }
  }

  /** `offset_to_utf16` */
  method OffsetToUtf16(content: string, offset: nat) returns (utf16Offset: nat)
    ensures utf16Offset == Convert(content, Utf8, Utf16, offset)
  {
    hide Length;
    utf16Offset := 0;
    var utf8Count, k := 0, 0;
    LengthZero(content);
    while k < |content|
      invariant 0 <= k <= |content|
      invariant utf8Count == Length(content[..k], Utf8) && utf16Offset == Length(content[..k], Utf16)
      invariant Index(content, Utf8, offset) == IndexFrom(content, Utf8, offset, k)
    {
      if utf8Count >= offset {
        return;
      }
      LengthStep(content, Utf16, k);
      LengthStep(content, Utf8, k);
      utf8Count := utf8Count + Width(content[k], Utf8);
      utf16Offset := utf16Offset + Width(content[k], Utf16);
      k := k + 1;
    }
  }

  lemma LengthZero(t: string)
    ensures Length(t[..0], Utf8) == 0 && Length(t[..0], Utf16) == 0
  {
  }
}
