/** The text field of the input example: selection, marked range and edits (crates/gpui/examples/input.rs). */
module TextInputs {
  import opened Options
  import opened Sequences
  import opened TextOffsets

  datatype Range = Range(start: nat, end: nat)

  ghost predicate OnBoundary(t: string, offset: nat) {
    Boundary(t, Utf8, offset)
  }

  ghost predicate RangeOn(t: string, r: Range) {
    OnBoundary(t, r.start) && OnBoundary(t, r.end)
  }

  /** The text before a byte offset, and from it on. */
  function Before(t: string, offset: nat): string {
    t[..Index(t, Utf8, offset)]
  }

  function From(t: string, offset: nat): string {
    t[Index(t, Utf8, offset)..]
  }

  /** Everything before the range, the new text, everything after the range. */
  function Splice(t: string, r: Range, text: string): string {
    Before(t, r.start) + text + From(t, r.end)
  }

  lemma CutsApart(t: string, offset: nat)
    requires OnBoundary(t, offset)
    ensures Before(t, offset) + From(t, offset) == t
    ensures Length(Before(t, offset), Utf8) == offset && offset + Length(From(t, offset), Utf8) == Length(t, Utf8)
  {
    BoundaryIndex(t, Utf8, offset);
    LengthAppend(Before(t, offset), From(t, offset), Utf8);
  }

  lemma PrefixOnBoundary(a: string, b: string)
    ensures OnBoundary(a + b, Length(a, Utf8))
  {
    assert (a + b)[..|a|] == a;
  }

  lemma EndsOnBoundary(t: string)
    ensures OnBoundary(t, 0) && OnBoundary(t, Length(t, Utf8))
  {
    assert t[..0] == "" && t[..|t|] == t;
    assert Length(t[..0], Utf8) == 0;
  }

  lemma BoundaryWithin(t: string, offset: nat)
    requires OnBoundary(t, offset)
    ensures offset <= Length(t, Utf8)
  {
    CutsApart(t, offset);
  }

  /** The new text lies on character boundaries of the spliced one, and nothing else has changed length. */
  lemma SpliceBoundaries(t: string, r: Range, text: string)
    requires RangeOn(t, r)
    ensures var u := Splice(t, r, text);
            && OnBoundary(u, r.start) && OnBoundary(u, r.start + Length(text, Utf8))
            && Length(u, Utf8) + r.end == Length(t, Utf8) + r.start + Length(text, Utf8)
  {
    hide Length, OnBoundary, Before, From;
    CutsApart(t, r.start);
    CutsApart(t, r.end);
    var a, b := Before(t, r.start), From(t, r.end);
    LengthAppend(a, text, Utf8);
    LengthAppend(a + text, b, Utf8);
    PrefixOnBoundary(a + text, b);
    PrefixOnBoundary(a, text + b);
    assert a + (text + b) == a + text + b;
  }

  /** Reading the spliced text back: what was before the range, the new text, and what was behind the range. */
  lemma SpliceContents(t: string, r: Range, text: string)
    requires RangeOn(t, r)
    ensures var u, end := Splice(t, r, text), r.start + Length(text, Utf8);
            && Before(u, r.start) == Before(t, r.start)
            && Before(u, end) == Before(t, r.start) + text
            && From(u, end) == From(t, r.end)
  {
    CutsApart(t, r.start);
    hide Before, From, OnBoundary, Length, Index;
    ThreeParts(Before(t, r.start), text, From(t, r.end));
  }

  lemma ThreeParts(a: string, text: string, b: string)
    ensures var u := a + text + b;
            && Before(u, Length(a, Utf8)) == a
            && Before(u, Length(a, Utf8) + Length(text, Utf8)) == a + text
            && From(u, Length(a, Utf8) + Length(text, Utf8)) == b
  {
    LengthAppend(a, text, Utf8);
    CutAfter(a, text + b);
    CutAfter(a + text, b);
    Associative(a, text, b);
    hide *;
  }

  lemma CutAfter(a: string, b: string)
    ensures Before(a + b, Length(a, Utf8)) == a && From(a + b, Length(a, Utf8)) == b
  {
    hide Length, Index;
    assert (a + b)[..|a|] == a && (a + b)[|a|..] == b;
    IndexOfBoundary(a + b, Utf8, |a|);
  }

  // ----- Grapheme boundaries -----

  /** Where the grapheme clusters of a text start, as the segmentation library reports it. */
  ghost predicate Graphemes(t: string, starts: seq<nat>) {
    && (forall i :: 0 <= i < |starts| ==> OnBoundary(t, starts[i]))
    && (forall i, j :: 0 <= i < j < |starts| ==> starts[i] < starts[j])
  }

  /** `previous_boundary`: the last start before the offset, or the beginning. */
  function PreviousBoundary(starts: seq<nat>, offset: nat): (p: nat)
    ensures p in starts || p == 0
    ensures p < offset || p == 0
    ensures forall s :: s in starts && s < offset ==> exists i :: 0 <= i < |starts| && starts[i] == p
  {
    if starts == [] then 0
    else
      var n := |starts| - 1;
      assert starts == starts[..n] + [starts[n]];
      if starts[n] < offset then assert starts[n] in starts; starts[n]
      else PreviousBoundary(starts[..n], offset)
  }

  /** `next_boundary`: the first start after the offset, or the end. */
  function NextBoundary(starts: seq<nat>, offset: nat, length: nat): (n: nat)
    ensures (n in starts && n > offset) || (n == length && forall i :: 0 <= i < |starts| ==> starts[i] <= offset)
  {
    if starts == [] then length
    else if starts[0] > offset then starts[0]
    else NextBoundary(starts[1..], offset, length)
  }

  /** With ascending starts they are the nearest ones on either side. */
  lemma {:induction false} PreviousIsNearest(starts: seq<nat>, offset: nat)
    requires forall i, j :: 0 <= i < j < |starts| ==> starts[i] < starts[j]
    ensures forall i :: 0 <= i < |starts| && starts[i] < offset ==> starts[i] <= PreviousBoundary(starts, offset)
    decreases |starts|
  {
    if starts != [] && starts[|starts| - 1] >= offset {
      PreviousIsNearest(starts[..|starts| - 1], offset);
    }
  }

  lemma {:induction false} NextIsNearest(starts: seq<nat>, offset: nat, length: nat)
    requires forall i, j :: 0 <= i < j < |starts| ==> starts[i] < starts[j]
    ensures forall i :: 0 <= i < |starts| && starts[i] > offset ==> NextBoundary(starts, offset, length) <= starts[i]
    decreases |starts|
  {
    if starts != [] && starts[0] <= offset {
      NextIsNearest(starts[1..], offset, length);
      assert forall i :: 0 < i < |starts| ==> starts[i] == starts[1..][i - 1];
    }
  }

  // ----- The text field -----

  class TextInput {
    var content: string
    var selected: Range
    var reversed: bool
    var marked: Option<Range>
    var bells: nat
    const segment: string -> seq<nat>

    ghost predicate Valid()
      reads this
    {
      && selected.start <= selected.end && RangeOn(content, selected)
      && (marked.Some? ==> marked.value.start <= marked.value.end && RangeOn(content, marked.value))
      && (forall t :: Graphemes(t, segment(t)))
    }

    /** The end of the selection that moves, and the one that stays. */
    function Cursor(): nat
      reads this
    {
      if reversed then selected.start else selected.end
    }

    ghost function Anchor(): nat
      reads this
    {
      if reversed then selected.end else selected.start
    }

    constructor (segment: string -> seq<nat>)
      requires forall t :: Graphemes(t, segment(t))
      ensures Valid() && content == "" && selected == Range(0, 0) && marked == None
    {
      content, selected, reversed, marked, bells := "", Range(0, 0), false, None, 0;
      this.segment := segment;
      new;
      EndsOnBoundary("");
    }

    method MoveTo(offset: nat)
      requires Valid() && OnBoundary(content, offset)
      modifies `selected
      ensures Valid() && selected == Range(offset, offset)
    {
      selected := Range(offset, offset);
    }

    /** The anchor stays and the cursor goes to the offset, on whichever side of the anchor that is. */
    method SelectTo(offset: nat)
      requires Valid() && OnBoundary(content, offset)
      modifies `selected, `reversed
      ensures Valid() && Anchor() == old(Anchor()) && Cursor() == offset
      ensures selected == if offset < old(Anchor()) then Range(offset, old(Anchor())) else Range(old(Anchor()), offset)
    {
      if reversed {
        selected := selected.(start := offset);
      } else {
        selected := selected.(end := offset);
      }
      if selected.end < selected.start {
        reversed := !reversed;
        selected := Range(selected.end, selected.start);
      }
    }

    method SelectAll()
      requires Valid()
      modifies `selected, `reversed
      ensures Valid() && selected == Range(0, Length(content, Utf8))
    {
      EndsOnBoundary(content);
      MoveTo(0);
      SelectTo(Length(content, Utf8));
    }

    /** The range an edit applies to: the one given, else the marked one, else the selection. */
    ghost function Target(range: Option<Range>): Range
      reads this
    {
      match range
      case Some(r) => Range(Convert(content, Utf16, Utf8, r.start), Convert(content, Utf16, Utf8, r.end))
      case None => if marked.Some? then marked.value else selected
    }

    method ResolveTarget(range: Option<Range>) returns (r: Range)
      requires Valid()
      ensures r == Target(range) && RangeOn(content, r)
    {
      match range {
        case Some(u) =>
          var start := OffsetFromUtf16(content, u.start);
          var end := OffsetFromUtf16(content, u.end);
          ConvertBoundary(content, Utf16, Utf8, u.start);
          ConvertBoundary(content, Utf16, Utf8, u.end);
          r := Range(start, end);
        case None =>
          r := if marked.Some? then marked.value else selected;
      }
    }

    /** `replace_text_in_range`, for any range at all: exactly a splice, with the cursor behind the new text. */
    method ReplaceTextInRange(range: Option<Range>, text: string)
      requires Valid()
      modifies `content, `selected, `marked
      ensures Valid() && marked == None
      ensures content == Splice(old(content), old(Target(range)), text)
      ensures selected == Range(old(Target(range)).start + Length(text, Utf8), old(Target(range)).start + Length(text, Utf8))
    {
      var r := ResolveTarget(range);
      SpliceBoundaries(content, r, text);
      content := Before(content, r.start) + text + From(content, r.end);
      var end := r.start + Length(text, Utf8);
      selected := Range(end, end);
      marked := None;
    }

    /** `replace_and_mark_text_in_range` without an explicit new selection: the new text becomes the marked
        range, unless it is empty. */
    method ReplaceAndMark(range: Option<Range>, text: string)
      requires Valid()
      modifies `content, `selected, `marked
      ensures Valid()
      ensures content == Splice(old(content), old(Target(range)), text)
      ensures var start, end := old(Target(range)).start, old(Target(range)).start + Length(text, Utf8);
              selected == Range(end, end) && marked == if text == "" then None else Some(Range(start, end))
    {
      var r := ResolveTarget(range);
      SpliceBoundaries(content, r, text);
      content := Before(content, r.start) + text + From(content, r.end);
      var end := r.start + Length(text, Utf8);
      marked := if text != "" then Some(Range(r.start, end)) else None;
      selected := Range(end, end);
    }

    method UnmarkText()
      requires Valid()
      modifies `marked
      ensures Valid() && marked == None
    {
      marked := None;
    }

    /** With nothing selected the cursor's left neighbour is removed, or the bell rings at the beginning;
        otherwise, or while there is a marked range, that range is removed instead. */
    method Backspace()
      requires Valid()
      modifies this
      ensures Valid()
      ensures var prev := PreviousBoundary(segment(old(content)), old(Cursor()));
              var empty := old(selected.start == selected.end);
              if empty && prev == old(Cursor()) then Rang(old(content), old(selected), old(marked), old(bells))
              else Erased(old(content), if old(marked).Some? then old(marked).value
                                        else if empty then Range(prev, old(Cursor())) else old(selected), old(bells))
    {
      if selected.start == selected.end {
        var prev := PreviousBoundary(segment(content), Cursor());
        StartsOnBoundary(content, prev);
        if Cursor() == prev {
          bells := bells + 1;
          return;
        }
        SelectTo(prev);
      }
      ReplaceTextInRange(None, "");
    }

    /** The same to the right. */
    method Delete()
      requires Valid()
      modifies this
      ensures Valid()
      ensures var next := NextBoundary(segment(old(content)), old(Cursor()), Length(old(content), Utf8));
              var empty := old(selected.start == selected.end);
              if empty && next == old(Cursor()) then Rang(old(content), old(selected), old(marked), old(bells))
              else Erased(old(content), if old(marked).Some? then old(marked).value
                                        else if empty then Range(old(Cursor()), next) else old(selected), old(bells))
    {
      if selected.start == selected.end {
        var next := NextBoundary(segment(content), Cursor(), Length(content, Utf8));
        StartsOnBoundary(content, next);
        BoundaryWithin(content, Cursor());
        if Cursor() == next {
          bells := bells + 1;
          return;
        }
        SelectTo(next);
      }
      ReplaceTextInRange(None, "");
    }

    /** Nothing happened but the bell. */
    ghost predicate Rang(text: string, range: Range, mark: Option<Range>, count: nat)
      reads this
    {
      content == text && selected == range && marked == mark && bells == count + 1
    }

    /** Exactly this range is gone, and the cursor is where it began. */
    ghost predicate Erased(text: string, range: Range, count: nat)
      reads this
    {
      content == Splice(text, range, "") && selected == Range(range.start, range.start) && marked == None && bells == count
    }

    lemma StartsOnBoundary(t: string, offset: nat)
      requires Valid() && (offset in segment(t) || offset == 0 || offset == Length(t, Utf8))
      ensures OnBoundary(t, offset)
    {
      EndsOnBoundary(t);
      assert Graphemes(t, segment(t));
    }

    method Reset()
      requires Valid()
      modifies this
      ensures Valid() && content == "" && selected == Range(0, 0) && !reversed && marked == None
    {
      content, selected, reversed, marked := "", Range(0, 0), false, None;
      EndsOnBoundary("");
    }
  }
}
