/**
 The element arena (crates/gpui/src/arena.rs): a bump allocator over chunks, whose boxes share a validity cell
 that is retired when the arena is cleared, and whose clear is put off while a draw is in progress.
 */
module Arenas {
  import opened Options

  const USIZE_MAX: nat := 0xFFFF_FFFF_FFFF_FFFF

  /** The layout of a type; alignments are never zero. */
  type Layout = l: RawLayout | l.align >= 1 witness RawLayout(0, 1)
  datatype RawLayout = RawLayout(size: nat, align: nat)

  // ----- Alignment -----

  /** `align_offset`: the distance to the next multiple of `align`. */
  function AlignOffset(addr: nat, align: nat): nat
    requires align >= 1
  {
    (align - addr % align) % align
  }

  function AlignUp(addr: nat, align: nat): nat
    requires align >= 1
  {
    addr + AlignOffset(addr, align)
  }

  lemma AlignUpIsMultiple(addr: nat, align: nat)
    requires align >= 1
    ensures AlignUp(addr, align) % align == 0
    ensures addr <= AlignUp(addr, align) < addr + align
  {
    var q, r := addr / align, addr % align;
    assert addr == q * align + r;
    if r == 0 {
      ModulusIs(align, 1, 0, align);
      assert AlignUp(addr, align) == addr;
    } else {
      ModulusIs(align - r, 0, align - r, align);
      assert AlignUp(addr, align) == (q + 1) * align;
      ModulusIs(AlignUp(addr, align), q + 1, 0, align);
    }
  }

  /** Quotient and remainder are unique. */
  lemma ModulusIs(a: nat, q: nat, r: nat, m: nat)
    requires r < m && a == q * m + r
    ensures a % m == r
  {
    QuotientUnique(q, r, a / m, a % m, m);
  }

  lemma QuotientUnique(q: nat, r: nat, d: nat, s: nat, m: nat)
    requires r < m && s < m && q * m + r == d * m + s
    ensures r == s
  {
    if q > d {
      Grows(d, q, m);
    } else if q < d {
      Grows(q, d, m);
    }
  }

  lemma {:induction false} Grows(a: nat, b: nat, m: nat)
    requires a < b
    ensures a * m + m <= b * m
    decreases b
  {
    assert b * m == (b - 1) * m + m;
    if a < b - 1 {
      Grows(a, b - 1, m);
    }
  }

  /** A fresh chunk has room for the layout. */
  predicate FitsAt(start: nat, layout: Layout, chunkSize: nat) {
    AlignUp(start, layout.align) + layout.size <= start + chunkSize
  }

  /** A layout fits a fresh chunk wherever that chunk lies exactly if there is room for the worst padding. */
  lemma FitsEverywhere(layout: Layout, chunkSize: nat)
    ensures (forall start: nat :: start >= 1 ==> FitsAt(start, layout, chunkSize))
            <==> layout.size + layout.align - 1 <= chunkSize
  {
    if layout.size + layout.align - 1 <= chunkSize {
      forall start: nat | start >= 1 ensures FitsAt(start, layout, chunkSize) {
        EnoughRoom(start, layout, chunkSize);
      }
    } else {
      AlignUpOfOne(layout.align);
      assert !FitsAt(1, layout, chunkSize);
    }
  }

  lemma EnoughRoom(start: nat, layout: Layout, chunkSize: nat)
    ensures layout.size + layout.align - 1 <= chunkSize ==> FitsAt(start, layout, chunkSize)
  {
    AlignUpIsMultiple(start, layout.align);
  }

  lemma AlignUpOfOne(align: nat)
    requires align >= 1
    ensures AlignUp(1, align) == align
  {
    if align > 1 {
      ModulusIs(1, 0, 1, align);
      ModulusIs(align - 1, 0, align - 1, align);
    }
  }

  // ----- Chunks -----

  datatype Chunk = Chunk(start: nat, end: nat, offset: nat)

  /** `Chunk::allocate`: the address of the block and the chunk after it. Additions that overflow fail. */
  function Allocate(c: Chunk, layout: Layout): Option<(nat, Chunk)> {
    var aligned := c.offset + AlignOffset(c.offset, layout.align);
    if aligned > USIZE_MAX then None
    else
      var next := aligned + layout.size;
      if next > USIZE_MAX then None
      else if next <= c.end then Some((aligned, c.(offset := next))) else None
  }

  ghost predicate ChunkValid(c: Chunk, chunkSize: nat) {
    0 < c.start <= c.offset <= c.end <= USIZE_MAX && c.end == c.start + chunkSize
  }

  /** The overflow checks never matter: a block is found exactly if it fits behind the offset. */
  lemma AllocateExactly(c: Chunk, layout: Layout, chunkSize: nat)
    requires ChunkValid(c, chunkSize)
    ensures Allocate(c, layout).Some? <==> AlignUp(c.offset, layout.align) + layout.size <= c.end
    ensures Allocate(c, layout).Some? ==>
              var (addr, after) := Allocate(c, layout).value;
              && addr == AlignUp(c.offset, layout.align) && addr % layout.align == 0
              && c.offset <= addr && addr + layout.size == after.offset
              && after == c.(offset := after.offset) && ChunkValid(after, chunkSize)
  {
    AlignUpIsMultiple(c.offset, layout.align);
  }

  ghost predicate Disjoint(a: Chunk, b: Chunk) {
    a.end <= b.start || b.end <= a.start
  }

  ghost predicate ChunksValid(chunks: seq<Chunk>, chunkSize: nat) {
    && (forall i :: 0 <= i < |chunks| ==> ChunkValid(chunks[i], chunkSize))
    && (forall i, j :: 0 <= i < j < |chunks| ==> Disjoint(chunks[i], chunks[j]))
  }

  /** Memory the system allocator may hand out for one more chunk. */
  ghost predicate FreeRegion(chunks: seq<Chunk>, start: nat, chunkSize: nat) {
    && 0 < start && start + chunkSize <= USIZE_MAX
    && forall i :: 0 <= i < |chunks| ==> Disjoint(chunks[i], Chunk(start, start + chunkSize, start))
  }

  // ----- Elements -----

  /** An element to be dropped on clear: its block, the chunk it lies in, and which allocation it was. */
  datatype Element = Element(value: nat, layout: Layout, chunk: nat, id: nat)

  ghost predicate InChunk(e: Element, chunks: seq<Chunk>, current: nat) {
    && e.chunk <= current && e.chunk < |chunks|
    && chunks[e.chunk].start <= e.value && e.value + e.layout.size <= chunks[e.chunk].offset
    && e.value % e.layout.align == 0
  }

  /** Blocks come one behind the other, chunk by chunk. */
  ghost predicate Behind(a: Element, b: Element) {
    a.chunk < b.chunk || (a.chunk == b.chunk && a.value + a.layout.size <= b.value)
  }

  ghost predicate ElementsValid(elements: seq<Element>, chunks: seq<Chunk>, current: nat) {
    && (forall i :: 0 <= i < |elements| ==> InChunk(elements[i], chunks, current))
    && (forall i, j :: 0 <= i < j < |elements| ==> Behind(elements[i], elements[j]))
  }

  ghost predicate EmptyPast(chunks: seq<Chunk>, current: nat) {
    forall i :: current < i < |chunks| ==> chunks[i].offset == chunks[i].start
  }

  /** Any two live blocks are disjoint in memory, whichever chunks they are in. */
  lemma BlocksDisjoint(elements: seq<Element>, chunks: seq<Chunk>, current: nat, chunkSize: nat, i: nat, j: nat)
    requires ChunksValid(chunks, chunkSize) && ElementsValid(elements, chunks, current)
    requires i < j < |elements|
    ensures elements[i].value + elements[i].layout.size <= elements[j].value
            || elements[j].value + elements[j].layout.size <= elements[i].value
  {
    assert Behind(elements[i], elements[j]) && InChunk(elements[i], chunks, current) && InChunk(elements[j], chunks, current);
    if elements[i].chunk < elements[j].chunk {
      assert Disjoint(chunks[elements[i].chunk], chunks[elements[j].chunk]);
    }
  }

  /** Placing a block at the end of chunk `n`, the new current one. */
  lemma PlaceBlock(elements: seq<Element>, chunks: seq<Chunk>, current: nat, n: nat, chunkSize: nat, layout: Layout, id: nat)
    requires ChunksValid(chunks, chunkSize) && ElementsValid(elements, chunks, current) && EmptyPast(chunks, current)
    requires current <= n <= current + 1 && n < |chunks| && Allocate(chunks[n], layout).Some?
    ensures var (addr, after) := Allocate(chunks[n], layout).value;
            && ChunksValid(chunks[n := after], chunkSize)
            && EmptyPast(chunks[n := after], n)
            && ElementsValid(elements + [Element(addr, layout, n, id)], chunks[n := after], n)
  {
    AllocateExactly(chunks[n], layout, chunkSize);
    var (addr, after) := Allocate(chunks[n], layout).value;
    var new_ := chunks[n := after];
    var e := Element(addr, layout, n, id);
    forall i, j | 0 <= i < j < |new_| ensures Disjoint(new_[i], new_[j]) {
      assert Disjoint(chunks[i], chunks[j]);
    }
    forall i | 0 <= i < |elements| ensures InChunk(elements[i], new_, n) && Behind(elements[i], e) {
      assert InChunk(elements[i], chunks, current);
    }
    assert InChunk(e, new_, n);
  }

  lemma ExtendChunks(elements: seq<Element>, chunks: seq<Chunk>, current: nat, chunkSize: nat, start: nat)
    requires ChunksValid(chunks, chunkSize) && ElementsValid(elements, chunks, current)
    requires FreeRegion(chunks, start, chunkSize) && current + 1 == |chunks|
    ensures var more := chunks + [Chunk(start, start + chunkSize, start)];
            ChunksValid(more, chunkSize) && ElementsValid(elements, more, current) && EmptyPast(more, current)
  {
    var more := chunks + [Chunk(start, start + chunkSize, start)];
    forall i | 0 <= i < |elements| ensures InChunk(elements[i], more, current) {
      assert InChunk(elements[i], chunks, current);
    }
  }

  // ----- The arena -----

  class ValidCell {
    var valid: bool

    constructor (valid: bool)
      ensures this.valid == valid
    {
      this.valid := valid;
    }
  }

  datatype ArenaBox = ArenaBox(ptr: nat, id: nat, cell: ValidCell)

  /** Allocation number k is either dropped, once, and its box's cell retired, or live, with its block as it was. */
  ghost predicate BoxesMatch(issued: seq<ArenaBox>, dropped: seq<nat>, elements: seq<Element>,
                             valid: ValidCell, retired: set<ValidCell>)
  {
    && |issued| == |dropped| + |elements|
    && (forall k :: 0 <= k < |dropped| ==> dropped[k] == k)
    && (forall k :: 0 <= k < |issued| ==> issued[k].id == k)
    && (forall k :: 0 <= k < |dropped| ==> issued[k].cell in retired)
    && (forall k :: 0 <= k < |elements| ==> elements[k].id == |dropped| + k)
    && (forall k :: |dropped| <= k < |issued| ==>
          issued[k].cell == valid && issued[k].ptr == elements[k - |dropped|].value)
  }

  lemma BoxesPush(issued: seq<ArenaBox>, dropped: seq<nat>, elements: seq<Element>,
                  valid: ValidCell, retired: set<ValidCell>, e: Element)
    requires BoxesMatch(issued, dropped, elements, valid, retired) && e.id == |issued|
    ensures BoxesMatch(issued + [ArenaBox(e.value, e.id, valid)], dropped, elements + [e], valid, retired)
  {
  }

  /** One draw: what it allocates, in order, and the draws nested in it. */
  datatype Draw = Draw(items: seq<DrawItem>)
  datatype DrawItem = Allocation(layout: Layout, start: nat) | Inner(draw: Draw)

  function DrawSize(draw: Draw): nat {
    1 + ItemsSize(draw.items)
  }

  function ItemsSize(items: seq<DrawItem>): nat {
    if items == [] then 0 else ItemSize(items[0]) + ItemsSize(items[1..])
  }

  function ItemSize(item: DrawItem): (n: nat)
    ensures n >= 1
  {
    match item
    case Allocation(_, _) => 1
    case Inner(draw) => 1 + DrawSize(draw)
  }

  class Arena {
    var chunks: seq<Chunk>
    var elements: seq<Element>
    var valid: ValidCell
    var current: nat
    const chunkSize: nat
    var scopeDepth: nat
    var allocations: nat  // numbers the elements, to tell them apart

    ghost var issued: seq<ArenaBox>
    ghost var dropped: seq<nat>
    ghost var retired: set<ValidCell>

    ghost predicate Valid()
      reads this, valid, retired
    {
      && chunkSize > 0 && current < |chunks|
      && ChunksValid(chunks, chunkSize) && EmptyPast(chunks, current) && ElementsValid(elements, chunks, current)
      && valid !in retired && valid.valid && (forall c :: c in retired ==> !c.valid)
      && allocations == |issued| && BoxesMatch(issued, dropped, elements, valid, retired)
    }

    constructor (chunkSize: nat, start: nat)
      requires chunkSize > 0 && 0 < start && start + chunkSize <= USIZE_MAX
      ensures Valid() && scopeDepth == 0 && issued == [] && dropped == [] && fresh(valid)
    {
      chunks := [Chunk(start, start + chunkSize, start)];
      elements := [];
      valid := new ValidCell(true);
      current, scopeDepth, allocations := 0, 0, 0;
      this.chunkSize := chunkSize;
      issued, dropped, retired := [], [], {};
    }

    method BeginScope()
      requires Valid()
      modifies `scopeDepth
      ensures Valid() && scopeDepth == old(scopeDepth) + 1
    {
      scopeDepth := scopeDepth + 1;
    }

    /** Fails, leaving everything as it is, when no scope is active. */
    method EndScope() returns (ok: bool)
      requires Valid()
      modifies `scopeDepth
      ensures Valid() && (ok <==> old(scopeDepth) > 0)
      ensures scopeDepth == if ok then old(scopeDepth) - 1 else old(scopeDepth)
    {
      ok := scopeDepth > 0;
      if ok {
        scopeDepth := scopeDepth - 1;
      }
    }

    /** Outside all scopes everything is dropped; inside one nothing happens. */
    method Clear()
      requires Valid()
      modifies this, valid
      ensures Valid() && issued == old(issued) && scopeDepth == old(scopeDepth)
      ensures old(scopeDepth) == 0 ==> elements == [] && |dropped| == |issued| && fresh(valid) && AllReset()
      ensures old(scopeDepth) > 0 ==> valid == old(valid) && elements == old(elements) && dropped == old(dropped)
                                      && chunks == old(chunks) && current == old(current)
    {
      if scopeDepth == 0 {
        ForceClear();
      }
    }

    ghost predicate AllReset()
      reads this
    {
      current == 0 && forall i :: 0 <= i < |chunks| ==> chunks[i].offset == chunks[i].start
    }

    /** The cell shared by all boxes is retired, every element is dropped, once and in order, and all memory
        is free again. */
    method ForceClear()
      requires Valid()
      modifies this, valid
      ensures Valid() && issued == old(issued) && scopeDepth == old(scopeDepth)
      ensures elements == [] && dropped == old(dropped) + old(Ids(elements))
      ensures fresh(valid) && AllReset()
    {
      valid.valid := false;
      retired := retired + {valid};
      valid := new ValidCell(true);
      dropped := dropped + Ids(elements);
      elements := [];
      ghost var before := chunks;
      var i := 0;
      while i <= current
        invariant 0 <= i <= current + 1
        invariant |chunks| == |before|
        invariant forall k :: 0 <= k < |chunks| ==>
                    chunks[k] == if k < i then before[k].(offset := before[k].start) else before[k]
        modifies `chunks
      {
        chunks := chunks[i := chunks[i].(offset := chunks[i].start)];
        i := i + 1;
      }
      ResetChunks(before, chunks, chunkSize);
      current := 0;
    }

    /** Where the chunk after the current one lies or would lie. */
    ghost function NextStart(start: nat): nat
      reads this
    {
      if current + 1 < |chunks| then chunks[current + 1].start else start
    }

    /** The current chunk has room for the layout behind its offset. */
    ghost predicate FitsHere(layout: Layout)
      requires current < |chunks|
      reads this
    {
      AlignUp(chunks[current].offset, layout.align) + layout.size <= chunks[current].end
    }

    /** The first address at which the layout may be placed: here if it fits, else in the next chunk. */
    ghost function FirstPlace(layout: Layout, start: nat): nat
      requires current < |chunks|
      reads this
    {
      AlignUp(if FitsHere(layout) then chunks[current].offset else NextStart(start), layout.align)
    }

    lemma NextStartPositive(start: nat)
      requires Valid() && FreeRegion(chunks, start, chunkSize)
      ensures NextStart(start) >= 1
    {
      if current + 1 < |chunks| {
        CurrentChunk(chunks, current + 1, chunkSize);
      }
    }

    /** `alloc`. `start` is where the system allocator would place a new chunk. The result is `None` when the
        code panics, which it does exactly if the block fits neither behind the offset nor into the next chunk. */
    method Alloc(layout: Layout, start: nat) returns (r: Option<ArenaBox>)
      requires Valid() && FreeRegion(chunks, start, chunkSize)
      modifies this
      ensures Valid() && valid == old(valid) && scopeDepth == old(scopeDepth) && dropped == old(dropped) && retired == old(retired)
      ensures r.None? <==> !old(FitsHere(layout)) && !FitsAt(old(NextStart(start)), layout, chunkSize)
      ensures r.Some? ==> r.value.ptr == old(FirstPlace(layout, start))
                          && current == (if old(FitsHere(layout)) then old(current) else old(current) + 1)
                          && chunks[current].offset == r.value.ptr + layout.size
      ensures layout.size + layout.align - 1 <= chunkSize ==> r.Some?
      ensures r.None? ==> elements == old(elements) && issued == old(issued)
      ensures r.Some? ==>
                && issued == old(issued) + [r.value] && r.value.cell == valid
                && |elements| == |old(elements)| + 1 && old(elements) <= elements
                && elements[|old(elements)|] == Element(r.value.ptr, layout, current, r.value.id)
    {
      NextStartPositive(start);
      EnoughRoom(NextStart(start), layout, chunkSize);
      hide ChunksValid, ElementsValid, EmptyPast, FreeRegion, Allocate, FitsAt, AlignUp, BoxesMatch;
      var n, place := FindPlace(layout, start);
      if place.None? {
        LaterChunk(elements, chunks, current);
        current := n;
        return None;
      }
      PlaceBlock(elements, chunks, current, n, chunkSize, layout, allocations);
      var (addr, after) := place.value;
      chunks, current := chunks[n := after], n;
      BoxesPush(issued, dropped, elements, valid, retired, Element(addr, layout, n, allocations));
      elements := elements + [Element(addr, layout, n, allocations)];
      r := Some(ArenaBox(addr, allocations, valid));
      allocations := allocations + 1;
      issued := issued + [r.value];
    }

    /** Tries the current chunk, then the next one, which is added when there is none. */
    method FindPlace(layout: Layout, start: nat) returns (n: nat, place: Option<(nat, Chunk)>)
      requires Valid() && FreeRegion(chunks, start, chunkSize)
      modifies `chunks
      ensures Valid() && current <= n <= current + 1 && n < |chunks|
      ensures place == Allocate(chunks[n], layout) && (place.None? ==> n == current + 1)
      ensures place.None? <==> !old(FitsHere(layout)) && !FitsAt(old(NextStart(start)), layout, chunkSize)
      ensures place.Some? ==> n == (if old(FitsHere(layout)) then current else current + 1)
      ensures place.Some? ==> place.value.0 == old(FirstPlace(layout, start))
                              && place.value.1.offset == place.value.0 + layout.size
    {
      n := current;
      CurrentChunk(chunks, n, chunkSize);
      AllocateExactly(chunks[n], layout, chunkSize);
      hide ChunksValid, ElementsValid, EmptyPast, FreeRegion, Allocate, AlignUp, BoxesMatch;
      place := Allocate(chunks[n], layout);
      if place.None? {
        if n + 1 >= |chunks| {
          ExtendChunks(elements, chunks, current, chunkSize, start);
          chunks := chunks + [Chunk(start, start + chunkSize, start)];
        }
        n := n + 1;
        CurrentChunk(chunks, n, chunkSize);
        NextIsEmpty(chunks, current);
        AllocateExactly(chunks[n], layout, chunkSize);
        place := Allocate(chunks[n], layout);
      }
    }

    /** `ArenaBox::validate`: it succeeds exactly for boxes whose element has not been dropped; the block is
        then still theirs, and no other live block overlaps it. */
    method Validate(box: ArenaBox) returns (ok: bool)
      requires Valid() && box in issued
      ensures ok <==> box.id !in dropped
      ensures ok ==> exists k :: 0 <= k < |elements| && elements[k].id == box.id && elements[k].value == box.ptr
                                 && forall j :: 0 <= j < |elements| && j != k ==> Apart(elements[j], elements[k])
    {
      ok := box.cell.valid;
      ghost var i :| 0 <= i < |issued| && issued[i] == box;
      assert i < |dropped| ==> dropped[i] == box.id;
      if ok {
        ghost var k := i - |dropped|;
        assert elements[k].id == box.id;
        forall j | 0 <= j < |elements| && j != k ensures Apart(elements[j], elements[k]) {
          BlocksDisjoint(elements, chunks, current, chunkSize, if j < k then j else k, if j < k then k else j);
        }
      }
    }

    /**
     A whole draw: its scope, everything in it, and the clear after it. Unless it is aborted it makes every
     allocation. Nested in another draw it drops nothing, and every box handed out so far keeps its cell; at the
     outermost level afterwards every element ever allocated has been dropped, exactly once.
     */
    method RunDraw(draw: Draw) returns (aborted: Option<DrawItem>)
      requires Valid()
      modifies this, valid
      ensures Valid() && old(issued) <= issued && old(scopeDepth) <= scopeDepth
      ensures aborted.None? ==> scopeDepth == old(scopeDepth) && |issued| == |old(issued)| + Allocations(draw.items)
      ensures aborted.Some? ==> CannotBeMade(aborted.value)
      ensures old(scopeDepth) > 0 || aborted.Some? ==>
                valid == old(valid) && dropped == old(dropped) && old(elements) <= elements
      ensures old(scopeDepth) == 0 && aborted.None? ==>
                elements == [] && |dropped| == |issued| && fresh(valid) && AllReset()
      decreases DrawSize(draw)
    {
      BeginScope();
      aborted := RunItems(draw.items);
      if aborted.Some? {
        return;
      }
      // All boxes of this draw, and of the draws around it, can still be dereferenced here.
      assert forall k :: |dropped| <= k < |issued| ==> issued[k].cell.valid;
      var _ := EndScope();
      Clear();
    }

    /** The program gives up on an allocation only if it is too large for a chunk of this size in the worst case, or
        the system allocator has no memory where the item says that the next chunk would lie. */
    ghost predicate CannotBeMade(item: DrawItem)
      reads this
    {
      item.Allocation?
      && (item.layout.size + item.layout.align - 1 > chunkSize || !FreeRegion(chunks, item.start, chunkSize))
    }

    method RunItems(items: seq<DrawItem>) returns (aborted: Option<DrawItem>)
      requires Valid() && scopeDepth > 0
      modifies this, valid
      ensures Valid() && old(scopeDepth) <= scopeDepth
      ensures aborted.None? ==> scopeDepth == old(scopeDepth) && |issued| == |old(issued)| + Allocations(items)
      ensures aborted.Some? ==> CannotBeMade(aborted.value)
      ensures valid == old(valid) && dropped == old(dropped) && old(issued) <= issued && old(elements) <= elements
      decreases ItemsSize(items)
    {
      aborted := None;
      if items != [] {
        match items[0] {
          case Allocation(layout, start) =>
            if !IsFree(chunks, start, chunkSize) {
              return Some(items[0]);
            }
            var box := AllocOr(layout, start, items[0]);
            if box.None? {
              return Some(items[0]);
            }
          case Inner(draw) =>
            assert ItemSize(items[0]) == 1 + DrawSize(draw);
            aborted := RunDraw(draw);
            if aborted.Some? {
              return;
            }
        }
        aborted := RunItems(items[1..]);
      }
    }

    /** An allocation; the panic of the code ends the draw. */
    method AllocOr(layout: Layout, start: nat, ghost item: DrawItem) returns (r: Option<ArenaBox>)
      requires Valid() && FreeRegion(chunks, start, chunkSize) && item == Allocation(layout, start)
      modifies this
      ensures Valid() && valid == old(valid) && scopeDepth == old(scopeDepth) && dropped == old(dropped)
      ensures retired == old(retired)
      ensures old(issued) <= issued && old(elements) <= elements
      ensures r.Some? ==> |issued| == |old(issued)| + 1
      ensures r.None? ==> CannotBeMade(item)
    {
      r := Alloc(layout, start);
    }
  }

  /** How many allocations a draw makes, with those of the draws nested in it. */
  function Allocations(items: seq<DrawItem>): nat
    decreases ItemsSize(items)
  {
    if items == [] then 0
    else
      assert items[0].Inner? ==> ItemSize(items[0]) == 1 + DrawSize(items[0].draw);
      (match items[0]
       case Allocation(_, _) => 1
       case Inner(draw) => Allocations(draw.items)) + Allocations(items[1..])
  }

  predicate IsFree(chunks: seq<Chunk>, start: nat, chunkSize: nat)
    ensures IsFree(chunks, start, chunkSize) <==> FreeRegion(chunks, start, chunkSize)
  {
    && 0 < start && start + chunkSize <= USIZE_MAX
    && forall i | 0 <= i < |chunks| :: chunks[i].end <= start || start + chunkSize <= chunks[i].start
  }

  ghost predicate Apart(a: Element, b: Element) {
    a.value + a.layout.size <= b.value || b.value + b.layout.size <= a.value
  }

  function Ids(elements: seq<Element>): (r: seq<nat>)
    ensures |r| == |elements| && forall i :: 0 <= i < |r| ==> r[i] == elements[i].id
  {
    seq(|elements|, i requires 0 <= i < |elements| => elements[i].id)
  }

  lemma ResetChunks(before: seq<Chunk>, after: seq<Chunk>, chunkSize: nat)
    requires ChunksValid(before, chunkSize) && |after| == |before|
    requires forall k :: 0 <= k < |after| ==> after[k] == before[k] || after[k] == before[k].(offset := before[k].start)
    ensures ChunksValid(after, chunkSize)
  {
    forall i | 0 <= i < |after| ensures ChunkValid(after[i], chunkSize) {
      assert ChunkValid(before[i], chunkSize);
    }
    forall i, j | 0 <= i < j < |after| ensures Disjoint(after[i], after[j]) {
      assert Disjoint(before[i], before[j]);
    }
  }

  lemma CurrentChunk(chunks: seq<Chunk>, n: nat, chunkSize: nat)
    requires ChunksValid(chunks, chunkSize) && n < |chunks|
    ensures ChunkValid(chunks[n], chunkSize)
  {
  }

  lemma NextIsEmpty(chunks: seq<Chunk>, current: nat)
    requires EmptyPast(chunks, current) && current + 1 < |chunks|
    ensures chunks[current + 1].offset == chunks[current + 1].start
  {
  }

  lemma LaterChunk(elements: seq<Element>, chunks: seq<Chunk>, current: nat)
    requires ElementsValid(elements, chunks, current) && EmptyPast(chunks, current)
    ensures ElementsValid(elements, chunks, current + 1) && EmptyPast(chunks, current + 1)
  {
    forall i | 0 <= i < |elements| ensures InChunk(elements[i], chunks, current + 1) {
      assert InChunk(elements[i], chunks, current);
    }
  }
}
