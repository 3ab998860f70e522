/** The page table as a value: first fit, taking and releasing runs of pages, and the clock. */
module Memory {
  import opened Common

  const HEADER_SIZE: nat := 8

  /** Pages are 1024 bytes; this is where page `i` starts in the pool. */
  function Offset(i: nat): nat { i * 1024 }

  datatype Page = Page(free: bool, used: bool)

  /** Stored in the first bytes of a block: its first page and its number of pages. */
  datatype Header = Header(id: nat, pageNum: nat)

  /** Pages needed for a payload and its header. */
  function PagesFor(bytes: nat): nat {
    (bytes + 8 + 1024 - 1) / 1024
  }

  /** What the payload of a block of `n` pages can hold. */
  function Capacity(n: nat): int {
    n * 1024 - 8
  }

  lemma PagesForIsEnough(bytes: nat)
    ensures Capacity(PagesFor(bytes)) >= bytes
    ensures forall n: nat :: n * 1024 >= bytes + 8 <==> n >= PagesFor(bytes)
    ensures PagesFor(bytes) > 0
    ensures forall n: nat :: n < PagesFor(bytes) ==> Capacity(n) < bytes
  {
  }

  // First fit

  ghost predicate AllFree(pages: seq<Page>, i: nat, n: nat) {
    i + n <= |pages| && forall j :: i <= j < i + n ==> pages[j].free
  }

  function Window(pages: seq<Page>, i: nat, n: nat): (r: bool)
    requires i + n <= |pages|
    ensures r == AllFree(pages, i, n)
    decreases n
  {
    n == 0 || (pages[i].free && Window(pages, i + 1, n - 1))
  }

  function FirstFitFrom(pages: seq<Page>, n: nat, i: nat): (r: Option<nat>)
    requires i <= |pages|
    decreases |pages| - i
    ensures match r
      case Some(w) => i <= w < |pages| && AllFree(pages, w, n) && forall v :: i <= v < w ==> !AllFree(pages, v, n)
      case None => forall v :: i <= v < |pages| ==> !AllFree(pages, v, n)
  {
    if i == |pages| || i + n > |pages| then None
    else if Window(pages, i, n) then Some(i)
    else FirstFitFrom(pages, n, i + 1)
  }

  /** The first window of `n` free pages. */
  function FirstFit(pages: seq<Page>, n: nat): (r: Option<nat>)
    ensures match r
      case Some(w) => w < |pages| && AllFree(pages, w, n) && forall v :: 0 <= v < w ==> !AllFree(pages, v, n)
      case None => forall v :: 0 <= v < |pages| ==> !AllFree(pages, v, n)
  {
    FirstFitFrom(pages, n, 0)
  }

  // Taking and releasing

  function Take(pages: seq<Page>, i: nat, n: nat): (r: seq<Page>)
    requires i + n <= |pages|
    ensures |r| == |pages|
    ensures forall j :: 0 <= j < |pages| ==> r[j] == if i <= j < i + n then Page(false, true) else pages[j]
  {
    seq(|pages|, j requires 0 <= j < |pages| => if i <= j < i + n then Page(false, true) else pages[j])
  }

  function Release(pages: seq<Page>, i: nat, n: nat): (r: seq<Page>)
    requires i + n <= |pages|
    ensures |r| == |pages|
    ensures forall j :: 0 <= j < |pages| ==> r[j] == if i <= j < i + n then pages[j].(free := true) else pages[j]
  {
    seq(|pages|, j requires 0 <= j < |pages| => if i <= j < i + n then pages[j].(free := true) else pages[j])
  }

  function CountFree(pages: seq<Page>): nat {
    if pages == [] then 0
    else CountFree(pages[..|pages| - 1]) + (if pages[|pages| - 1].free then 1 else 0)
  }

  lemma {:induction false} CountBounds(pages: seq<Page>)
    ensures CountFree(pages) <= |pages|
    ensures (forall j :: 0 <= j < |pages| ==> pages[j].free) ==> CountFree(pages) == |pages|
    ensures (forall j :: 0 <= j < |pages| ==> !pages[j].free) ==> CountFree(pages) == 0
  {
    if pages != [] {
      CountBounds(pages[..|pages| - 1]);
    }
  }

  lemma {:induction false} SameFree(a: seq<Page>, b: seq<Page>)
    requires |a| == |b| && forall j :: 0 <= j < |a| ==> a[j].free == b[j].free
    ensures CountFree(a) == CountFree(b)
  {
    if a != [] {
      SameFree(a[..|a| - 1], b[..|b| - 1]);
    }
  }

  ghost predicate SameOutside(a: seq<Page>, b: seq<Page>, i: nat, n: nat) {
    && |a| == |b| && i + n <= |a|
    && forall j :: 0 <= j < |a| && !(i <= j < i + n) ==> a[j] == b[j]
  }

  /** A window that is free in one table and taken in the other makes a difference of its length. */
  lemma {:induction false} CountFlipped(a: seq<Page>, b: seq<Page>, i: nat, n: nat)
    requires SameOutside(a, b, i, n)
    requires forall j :: i <= j < i + n ==> a[j].free && !b[j].free
    ensures CountFree(a) == CountFree(b) + n
    decreases |a|
  {
    if n == 0 {
      assert a == b;
    } else {
      var m := |a| - 1;
      CountFlipped(a[..m], b[..m], i, if i + n <= m then n else n - 1);
    }
  }

  lemma {:induction false} CountAtMost(a: seq<Page>, b: seq<Page>, i: nat, n: nat)
    requires SameOutside(a, b, i, n)
    ensures CountFree(a) <= CountFree(b) + n
    decreases |a|
  {
    if n == 0 {
      assert a == b;
    } else {
      var m := |a| - 1;
      CountAtMost(a[..m], b[..m], i, if i + n <= m then n else n - 1);
    }
  }

  lemma CountTake(pages: seq<Page>, i: nat, n: nat)
    requires AllFree(pages, i, n)
    ensures CountFree(Take(pages, i, n)) == CountFree(pages) - n
  {
    CountFlipped(pages, Take(pages, i, n), i, n);
  }

  lemma CountRelease(pages: seq<Page>, i: nat, n: nat)
    requires i + n <= |pages|
    ensures CountFree(Release(pages, i, n)) <= CountFree(pages) + n
    ensures (forall j :: i <= j < i + n ==> !pages[j].free) ==> CountFree(Release(pages, i, n)) == CountFree(pages) + n
  {
    CountAtMost(Release(pages, i, n), pages, i, n);
    if forall j :: i <= j < i + n ==> !pages[j].free {
      CountFlipped(Release(pages, i, n), pages, i, n);
    }
  }

  /** Releasing what was just taken restores which pages are free, and how many. */
  lemma TakeThenRelease(pages: seq<Page>, i: nat, n: nat)
    requires AllFree(pages, i, n)
    ensures var r := Release(Take(pages, i, n), i, n);
      && |r| == |pages| && (forall j :: 0 <= j < |pages| ==> r[j].free == pages[j].free)
      && CountFree(r) == CountFree(pages)
  {
    CountTake(pages, i, n);
    CountRelease(Take(pages, i, n), i, n);
  }

  // Blocks

  /** `blocks` maps the first page of every live block to its number of pages. */
  ghost predicate BlocksOk(pages: seq<Page>, headers: seq<Header>, blocks: map<nat, nat>) {
    && |headers| == |pages|
    && (forall b :: b in blocks ==> blocks[b] > 0 && b + blocks[b] <= |pages| && headers[b] == Header(b, blocks[b]))
    && (forall b, c :: b in blocks && c in blocks && b < c ==> b + blocks[b] <= c)
    && (forall j :: 0 <= j < |pages| ==> (!pages[j].free <==> InSomeBlock(blocks, j)))
  }

  ghost predicate InBlock(blocks: map<nat, nat>, b: nat, j: nat) {
    b in blocks && b <= j < b + blocks[b]
  }

  ghost predicate InSomeBlock(blocks: map<nat, nat>, j: nat) {
    exists b :: InBlock(blocks, b, j)
  }

  lemma AllocateKeepsBlocks(pages: seq<Page>, headers: seq<Header>, blocks: map<nat, nat>, i: nat, n: nat)
    requires BlocksOk(pages, headers, blocks) && AllFree(pages, i, n) && n > 0
    ensures i !in blocks
    ensures BlocksOk(Take(pages, i, n), headers[i := Header(i, n)], blocks[i := n])
    ensures forall b :: b in blocks ==> b + blocks[b] <= i || i + n <= b
  {
    forall b | b in blocks
      ensures b + blocks[b] <= i || i + n <= b
    {
      assert InBlock(blocks, b, b) && InSomeBlock(blocks, b);
      if b < i < b + blocks[b] {
        assert InBlock(blocks, b, i) && InSomeBlock(blocks, i);
      }
    }
    assert i in blocks ==> InBlock(blocks, i, i);
    var blocks' := blocks[i := n];
    forall j | 0 <= j < |pages|
      ensures !Take(pages, i, n)[j].free <==> InSomeBlock(blocks', j)
    {
      if i <= j < i + n {
        assert InBlock(blocks', i, j);
      } else {
        if b :| InBlock(blocks, b, j) {
          assert InBlock(blocks', b, j);
        }
        if b :| InBlock(blocks', b, j) {
          assert InBlock(blocks, b, j);
        }
      }
    }
  }

  lemma FreeKeepsBlocks(pages: seq<Page>, headers: seq<Header>, blocks: map<nat, nat>, i: nat)
    requires BlocksOk(pages, headers, blocks) && i in blocks
    ensures forall j :: i <= j < i + blocks[i] ==> !pages[j].free
    ensures BlocksOk(Release(pages, i, blocks[i]), headers, blocks - {i})
  {
    var n, blocks' := blocks[i], blocks - {i};
    forall j | i <= j < i + n
      ensures !pages[j].free
    {
      assert InBlock(blocks, i, j);
    }
    forall j | 0 <= j < |pages|
      ensures !Release(pages, i, n)[j].free <==> InSomeBlock(blocks', j)
    {
      if b :| InBlock(blocks', b, j) {
        assert InBlock(blocks, b, j);
      }
      if !(i <= j < i + n) {
        if b :| InBlock(blocks, b, j) {
          assert InBlock(blocks', b, j);
        }
      }
    }
  }

  // Runs without eviction

  /** What the allocator keeps, with the blocks that its clients hold. */
  datatype MemState = MemState(pages: seq<Page>, freePageNum: nat, headers: seq<Header>, blocks: map<nat, nat>)

  /** The live blocks are disjoint and match their headers, exactly their pages are taken, and the counter is right. */
  ghost predicate Sound(m: MemState) {
    BlocksOk(m.pages, m.headers, m.blocks) && m.freePageNum == CountFree(m.pages)
  }

  /** First fit for `n` pages; a fragmented table leaves everything as it was. */
  function AllocPages(m: MemState, n: nat): MemState
    requires |m.headers| == |m.pages| && n <= m.freePageNum
  {
    match FirstFit(m.pages, n)
    case None => m
    case Some(i) =>
      MemState(Take(m.pages, i, n), m.freePageNum - n, m.headers[i := Header(i, n)], m.blocks[i := n])
  }

  function FreeBlock(m: MemState, b: nat): MemState
    requires b < |m.headers| && m.headers[b].id + m.headers[b].pageNum <= |m.pages|
  {
    var h := m.headers[b];
    MemState(Release(m.pages, h.id, h.pageNum), m.freePageNum + h.pageNum, m.headers, m.blocks - {b})
  }

  lemma AllocPagesSound(m: MemState, n: nat)
    requires Sound(m) && 0 < n <= m.freePageNum
    ensures Sound(AllocPages(m, n))
    ensures match FirstFit(m.pages, n)
      case None => AllocPages(m, n) == m
      case Some(i) =>
        && i !in m.blocks && AllocPages(m, n).blocks == m.blocks[i := n]
        && forall b :: b in m.blocks ==> b + m.blocks[b] <= i || i + n <= b
  {
    if FirstFit(m.pages, n).Some? {
      var i := FirstFit(m.pages, n).value;
      CountTake(m.pages, i, n);
      AllocateKeepsBlocks(m.pages, m.headers, m.blocks, i, n);
    }
  }

  lemma FreeBlockSound(m: MemState, b: nat)
    requires Sound(m) && b in m.blocks
    ensures b < |m.headers| && m.headers[b] == Header(b, m.blocks[b]) && b + m.blocks[b] <= |m.pages|
    ensures Sound(FreeBlock(m, b))
  {
    FreeKeepsBlocks(m.pages, m.headers, m.blocks, b);
    CountRelease(m.pages, b, m.blocks[b]);
  }

  /** An allocation directly followed by its release leaves the free map, the counter and the blocks as they were. */
  lemma AllocThenFree(m: MemState, n: nat)
    requires Sound(m) && 0 < n <= m.freePageNum && FirstFit(m.pages, n).Some?
    ensures var i := FirstFit(m.pages, n).value;
      var a := AllocPages(m, n);
      && i < |a.headers| && a.headers[i] == Header(i, n) && i + n <= |a.pages|
      && var r := FreeBlock(a, i);
      && r.freePageNum == m.freePageNum && r.blocks == m.blocks
      && forall j :: 0 <= j < |m.pages| ==> r.pages[j].free == m.pages[j].free
  {
    var i := FirstFit(m.pages, n).value;
    TakeThenRelease(m.pages, i, n);
    AllocPagesSound(m, n);
    AddThenRemove(m.blocks, i, n);
  }

  lemma AddThenRemove(blocks: map<nat, nat>, i: nat, n: nat)
    requires i !in blocks
    ensures blocks[i := n] - {i} == blocks
  {
  }

  /** Marking one page free and counting it, which is what an eviction does. */
  function EvictPage(m: MemState, i: nat): (r: MemState)
    requires i < |m.pages|
    ensures |r.pages| == |m.pages| && r.freePageNum == m.freePageNum + 1
    ensures forall j :: 0 <= j < |m.pages| ==> r.pages[j] == if j == i then m.pages[j].(free := true) else m.pages[j]
  {
    m.(pages := Release(m.pages, i, 1), freePageNum := m.freePageNum + 1)
  }

  /**
    No eviction keeps a sound allocator sound: if the page was free it is now counted twice, and if it
    was taken a live block has lost it.
  */
  lemma EvictionIsNeverSound(m: MemState, i: nat)
    requires Sound(m) && i < |m.pages|
    ensures m.pages[i].free <==> BlocksOk(EvictPage(m, i).pages, m.headers, m.blocks)
    ensures m.pages[i].free <==> EvictPage(m, i).freePageNum != CountFree(EvictPage(m, i).pages)
    ensures !Sound(EvictPage(m, i))
  {
    var r := Release(m.pages, i, 1);
    if m.pages[i].free {
      assert r == m.pages;
    } else {
      CountRelease(m.pages, i, 1);
      assert InSomeBlock(m.blocks, i) && r[i].free;
    }
  }

  /** An allocation leaves the other blocks where they are. */
  lemma StillThere(k: MemState, m: nat, p: nat)
    requires Sound(k) && 0 < m <= k.freePageNum && p in k.blocks && FirstFit(k.pages, m).Some?
    ensures var a := AllocPages(k, m);
      p < |a.headers| && a.headers[p] == Header(p, k.blocks[p]) && p + k.blocks[p] <= |a.pages|
  {
    AllocPagesSound(k, m);
    FreeBlockSound(AllocPages(k, m), p);
  }

  /** `n` pages for the contents of block `b`, and `b` released; nothing if there is no window. */
  function ReallocPages(m: MemState, b: nat, n: nat): MemState
    requires Sound(m) && b in m.blocks && 0 < n <= m.freePageNum
  {
    if FirstFit(m.pages, n) == None then m
    else
      StillThere(m, n, b);
      FreeBlock(AllocPages(m, n), b)
  }

  lemma ReallocSound(m: MemState, b: nat, n: nat)
    requires Sound(m) && b in m.blocks && 0 < n <= m.freePageNum
    ensures Sound(ReallocPages(m, b, n))
    ensures match FirstFit(m.pages, n)
      case None => ReallocPages(m, b, n) == m
      case Some(i) =>
        && i !in m.blocks && ReallocPages(m, b, n).blocks == m.blocks[i := n] - {b}
        && i + n <= |m.pages|
        && forall c :: c in m.blocks ==> c + m.blocks[c] <= i || i + n <= c
  {
    AllocPagesSound(m, n);
    if FirstFit(m.pages, n).Some? {
      FreeBlockSound(AllocPages(m, n), b);
    }
  }

  datatype MemOp = Alloc(bytes: nat) | Dealloc(block: nat) | Realloc(block: nat, bytes: nat)

  /** The operation needs no eviction, and names a block that its caller holds. */
  ghost predicate OpAllowed(m: MemState, op: MemOp)
    requires Sound(m)
  {
    match op
    case Alloc(bytes) => PagesFor(bytes) <= m.freePageNum
    case Dealloc(b) => b in m.blocks
    case Realloc(b, bytes) =>
      b in m.blocks && m.blocks[b] > 0 && PagesFor(Capacity(m.blocks[b]) + bytes) <= m.freePageNum
  }

  ghost function DoOp(m: MemState, op: MemOp): (r: MemState)
    requires Sound(m) && OpAllowed(m, op)
    ensures Sound(r)
  {
    match op
    case Alloc(bytes) =>
      if bytes == 0 then m
      else
        AllocPagesSound(m, PagesFor(bytes));
        AllocPages(m, PagesFor(bytes))
    case Dealloc(b) =>
      FreeBlockSound(m, b);
      FreeBlock(m, b)
    case Realloc(b, bytes) =>
      ReallocSound(m, b, PagesFor(Capacity(m.blocks[b]) + bytes));
      ReallocPages(m, b, PagesFor(Capacity(m.blocks[b]) + bytes))
  }

  ghost predicate EvictionFree(m: MemState, ops: seq<MemOp>)
    requires Sound(m)
    decreases |ops|
  {
    ops != [] ==> OpAllowed(m, ops[0]) && EvictionFree(DoOp(m, ops[0]), ops[1..])
  }

  /** The state after a run of operations that never has to evict. */
  ghost function RunOps(m: MemState, ops: seq<MemOp>): MemState
    requires Sound(m) && EvictionFree(m, ops)
    decreases |ops|
  {
    if ops == [] then m else RunOps(DoOp(m, ops[0]), ops[1..])
  }

  /** `asked` records for every live block how many bytes its owner asked for; its payload holds them. */
  ghost predicate Holds(m: MemState, asked: map<nat, nat>) {
    && asked.Keys == m.blocks.Keys
    && forall b :: b in asked ==> asked[b] <= Capacity(m.blocks[b])
  }

  ghost function AskedAt(m: MemState, asked: map<nat, nat>, bytes: nat): map<nat, nat> {
    match FirstFit(m.pages, PagesFor(bytes))
    case None => asked
    case Some(i) => asked[i := bytes]
  }

  /** The record after an operation; a reallocation asks for the old payload and the new bytes. */
  ghost function AskedAfter(m: MemState, asked: map<nat, nat>, op: MemOp): map<nat, nat>
    requires Sound(m) && OpAllowed(m, op)
  {
    match op
    case Alloc(bytes) => if bytes == 0 then asked else AskedAt(m, asked, bytes)
    case Dealloc(b) => asked - {b}
    case Realloc(b, bytes) =>
      var total: nat := Capacity(m.blocks[b]) + bytes;
      if FirstFit(m.pages, PagesFor(total)) == None then asked else AskedAt(m, asked, total) - {b}
  }

  ghost function RunAsked(m: MemState, asked: map<nat, nat>, ops: seq<MemOp>): map<nat, nat>
    requires Sound(m) && EvictionFree(m, ops)
    decreases |ops|
  {
    if ops == [] then asked else RunAsked(DoOp(m, ops[0]), AskedAfter(m, asked, ops[0]), ops[1..])
  }

  lemma ReallocHolds(m: MemState, asked: map<nat, nat>, b: nat, total: nat)
    requires Sound(m) && Holds(m, asked) && b in m.blocks && 0 < PagesFor(total) <= m.freePageNum
    requires FirstFit(m.pages, PagesFor(total)).Some?
    ensures Holds(ReallocPages(m, b, PagesFor(total)), AskedAt(m, asked, total) - {b})
  {
    StillThere(m, PagesFor(total), b);
  }

  lemma AllocOpHolds(m: MemState, asked: map<nat, nat>, bytes: nat)
    requires Sound(m) && OpAllowed(m, Alloc(bytes)) && Holds(m, asked)
    ensures Holds(DoOp(m, Alloc(bytes)), AskedAfter(m, asked, Alloc(bytes)))
  {
  }

  lemma ReallocOpHolds(m: MemState, asked: map<nat, nat>, b: nat, bytes: nat)
    requires Sound(m) && OpAllowed(m, Realloc(b, bytes)) && Holds(m, asked)
    ensures Holds(DoOp(m, Realloc(b, bytes)), AskedAfter(m, asked, Realloc(b, bytes)))
  {
    var total: nat := Capacity(m.blocks[b]) + bytes;
    if FirstFit(m.pages, PagesFor(total)).Some? {
      ReallocHolds(m, asked, b, total);
    }
  }

  lemma OpHolds(m: MemState, asked: map<nat, nat>, op: MemOp)
    requires Sound(m) && OpAllowed(m, op) && Holds(m, asked)
    ensures Holds(DoOp(m, op), AskedAfter(m, asked, op))
  {
    match op {
      case Alloc(bytes) => AllocOpHolds(m, asked, bytes);
      case Dealloc(b) =>
        FreeBlockSound(m, b);
      case Realloc(b, bytes) => ReallocOpHolds(m, asked, b, bytes);
    }
  }

  /**
    Every run that never has to evict keeps the allocator sound, and every live block's payload as large
    as was asked for.
  */
  lemma {:induction false} RunsStaySound(m: MemState, asked: map<nat, nat>, ops: seq<MemOp>)
    requires Sound(m) && EvictionFree(m, ops) && Holds(m, asked)
    ensures Sound(RunOps(m, ops))
    ensures Holds(RunOps(m, ops), RunAsked(m, asked, ops))
    decreases |ops|
  {
    if ops != [] {
      OpHolds(m, asked, ops[0]);
      RunsStaySound(DoOp(m, ops[0]), AskedAfter(m, asked, ops[0]), ops[1..]);
    }
  }

  // The clock

  /** The page `d` places after the hand. */
  function PageAt(hand: nat, d: nat, len: nat): nat
    requires hand < len && d <= len
  {
    if hand + d < len then hand + d else hand + d - len
  }

  function FirstUnusedFrom(pages: seq<Page>, hand: nat, d: nat, limit: nat): (r: Option<nat>)
    requires hand < |pages| && d <= limit <= |pages|
    decreases limit - d
    ensures match r
      case Some(e) => d <= e < limit && !pages[PageAt(hand, e, |pages|)].used
                      && forall f :: d <= f < e ==> pages[PageAt(hand, f, |pages|)].used
      case None => forall f :: d <= f < limit ==> pages[PageAt(hand, f, |pages|)].used
  {
    if d == limit then None
    else if !pages[PageAt(hand, d, |pages|)].used then Some(d)
    else FirstUnusedFrom(pages, hand, d + 1, limit)
  }

  /** The clock looks at every page from hand 0, and from any other hand at all but the page before it. */
  function Reach(hand: nat, len: nat): nat
    requires hand < len
  {
    if hand == 0 then len else len - 1
  }

  /** The first page not used lately, counted from the hand. */
  function FirstUnused(pages: seq<Page>, hand: nat): (r: Option<nat>)
    requires hand < |pages|
  {
    FirstUnusedFrom(pages, hand, 0, Reach(hand, |pages|))
  }

  /** The pages with the `used` bits of `n` pages from the hand on cleared. */
  function Cleared(pages: seq<Page>, hand: nat, n: nat): (r: seq<Page>)
    requires hand < |pages| && n <= |pages|
    ensures |r| == |pages|
    ensures forall j :: 0 <= j < |pages| ==> r[j].free == pages[j].free
    ensures forall d :: 0 <= d < |pages| ==>
      r[PageAt(hand, d, |pages|)] ==
        if d < n then pages[PageAt(hand, d, |pages|)].(used := false) else pages[PageAt(hand, d, |pages|)]
  {
    if n == 0 then pages
    else
      var c := Cleared(pages, hand, n - 1);
      c[PageAt(hand, n - 1, |pages|) := c[PageAt(hand, n - 1, |pages|)].(used := false)]
  }

  /** The returned page (none for a failure), the pages and the hand left behind. */
  datatype ClockResult = ClockResult(page: Option<nat>, pages: seq<Page>, hand: nat)

  /**
    One run of the clock. The page it returns is not the unused page it found but the one after it.
    From hand 0 it cannot fail: a second pass finds page 0, cleared by the first.
  */
  function Clock(pages: seq<Page>, hand: nat): (r: ClockResult)
    requires hand < |pages|
    ensures |r.pages| == |pages| && r.hand < |pages|
    ensures r.page.Some? ==> r.page.value == r.hand
    ensures forall j :: 0 <= j < |pages| ==> r.pages[j].free == pages[j].free
  {
    match FirstUnused(pages, hand)
    case Some(d) =>
      var next := PageAt(hand, d + 1, |pages|);
      ClockResult(Some(next), Cleared(pages, hand, d), next)
    case None =>
      if hand == 0 then ClockResult(Some(PageAt(0, 1, |pages|)), Cleared(pages, 0, |pages|), PageAt(0, 1, |pages|))
      else ClockResult(None, Cleared(pages, hand, |pages| - 1), hand)
  }

  /** The clock fails exactly from a nonzero hand with every page but the one before the hand used. */
  lemma ClockFailsIff(pages: seq<Page>, hand: nat)
    requires hand < |pages|
    ensures Clock(pages, hand).page == None <==>
      hand > 0 && forall j :: 0 <= j < |pages| && j != hand - 1 ==> pages[j].used
  {
    if hand > 0 && Clock(pages, hand).page == None {
      forall j | 0 <= j < |pages| && j != hand - 1
        ensures pages[j].used
      {
        var d := if j >= hand then j - hand else j + |pages| - hand;
        assert PageAt(hand, d, |pages|) == j;
      }
    }
  }

  /** After a failure, with the `used` bits left alone, the next call succeeds at once. */
  lemma ClockRecovers(pages: seq<Page>, hand: nat)
    requires hand < |pages| && Clock(pages, hand).page == None
    ensures var r := Clock(pages, hand);
      r.hand == hand && Clock(r.pages, r.hand).page == Some(PageAt(hand, 1, |pages|))
  {
    var r := Clock(pages, hand);
    assert PageAt(hand, 0, |pages|) == hand;
    assert !r.pages[hand].used;
  }

  // Eviction

  /** Whether the counter now allows the request, and what is left behind. */
  datatype Eviction = Eviction(done: bool, m: MemState, hand: nat)

  /** Gives up pages that the clock returns until the counter allows `n` pages or the clock gives up. */
  function EvictFor(m: MemState, hand: nat, n: nat): (r: Eviction)
    requires hand < |m.pages|
    ensures |r.m.pages| == |m.pages| && r.hand < |m.pages|
    ensures r.m.headers == m.headers && r.m.blocks == m.blocks
    ensures r.done ==> n <= r.m.freePageNum
    ensures n <= m.freePageNum ==> r == Eviction(true, m, hand)
    decreases if n > m.freePageNum then n - m.freePageNum else 0
  {
    if n <= m.freePageNum then Eviction(true, m, hand)
    else
      var c := Clock(m.pages, hand);
      var m1 := m.(pages := c.pages);
      match c.page
      case None => Eviction(false, m1, c.hand)
      case Some(p) => EvictFor(EvictPage(m1, p), c.hand, n)
  }

  /** The state after one run of the clock and the eviction of the page it returns, if any. */
  function AfterClock(m: MemState, hand: nat): MemState
    requires hand < |m.pages|
  {
    var c := Clock(m.pages, hand);
    var m1 := m.(pages := c.pages);
    if c.page.Some? then EvictPage(m1, c.hand) else m1
  }

  lemma NextEviction(m: MemState, hand: nat, n: nat)
    requires hand < |m.pages| && n > m.freePageNum
    ensures var c := Clock(m.pages, hand);
      EvictFor(m, hand, n) ==
        if c.page.Some? then EvictFor(AfterClock(m, hand), c.hand, n) else Eviction(false, AfterClock(m, hand), c.hand)
  {
  }

  /** The first `k` runs of the clock all return a page. */
  predicate Gives(m: MemState, hand: nat, k: nat)
    requires hand < |m.pages|
    decreases k
  {
    k > 0 ==> Clock(m.pages, hand).page.Some? && Gives(AfterClock(m, hand), Clock(m.pages, hand).hand, k - 1)
  }

  /** What `k` runs of the clock leave, each followed by the eviction of its page. */
  function AfterRounds(m: MemState, hand: nat, k: nat): MemState
    requires hand < |m.pages|
    decreases k
  {
    if k == 0 then m else AfterRounds(AfterClock(m, hand), Clock(m.pages, hand).hand, k - 1)
  }

  /** Where they leave the hand. */
  function HandAfter(m: MemState, hand: nat, k: nat): nat
    requires hand < |m.pages|
    decreases k
  {
    if k == 0 then hand else HandAfter(AfterClock(m, hand), Clock(m.pages, hand).hand, k - 1)
  }

  /** By how many pages the counter falls short of a request. */
  function Short(m: MemState, n: nat): nat {
    if n > m.freePageNum then n - m.freePageNum else 0
  }

  /** `e` is what `short` runs of the clock leave, or as many as it returned pages if it gave up before. */
  ghost predicate EvictsShort(m: MemState, hand: nat, short: nat, e: Eviction)
    requires hand < |m.pages|
  {
    && (e.done <==> Gives(m, hand, short))
    && (e.done ==>
          && e.m == AfterRounds(m, hand, short) && e.hand == HandAfter(m, hand, short)
          && e.m.freePageNum == m.freePageNum + short)
    && (!e.done ==>
          && m.freePageNum <= e.m.freePageNum < m.freePageNum + short
          && var k := e.m.freePageNum - m.freePageNum;
          && Gives(m, hand, k) && !Gives(m, hand, k + 1)
          && e.m == AfterRounds(m, hand, k + 1) && e.hand == HandAfter(m, hand, k + 1))
  }

  lemma RoundsNext(m: MemState, hand: nat, m1: MemState, hand1: nat, k: nat)
    requires hand < |m.pages| && Clock(m.pages, hand).page.Some?
    requires m1 == AfterClock(m, hand) && hand1 == Clock(m.pages, hand).hand
    ensures m1.freePageNum == m.freePageNum + 1
    ensures Gives(m, hand, k + 1) <==> Gives(m1, hand1, k)
    ensures AfterRounds(m, hand, k + 1) == AfterRounds(m1, hand1, k)
    ensures HandAfter(m, hand, k + 1) == HandAfter(m1, hand1, k)
  {
  }

  lemma EvictsOneMore(m: MemState, hand: nat, m1: MemState, hand1: nat, short: nat, e: Eviction)
    requires hand < |m.pages| && Clock(m.pages, hand).page.Some?
    requires m1 == AfterClock(m, hand) && hand1 == Clock(m.pages, hand).hand
    requires EvictsShort(m1, hand1, short, e)
    ensures EvictsShort(m, hand, short + 1, e)
  {
    RoundsNext(m, hand, m1, hand1, short);
    if !e.done {
      var k: nat := e.m.freePageNum - m1.freePageNum;
      RoundsNext(m, hand, m1, hand1, k);
      RoundsNext(m, hand, m1, hand1, k + 1);
    }
  }

  lemma EvictsNothing(m: MemState, hand: nat, short: nat)
    requires hand < |m.pages| && short > 0 && Clock(m.pages, hand).page == None
    ensures EvictsShort(m, hand, short, Eviction(false, AfterClock(m, hand), Clock(m.pages, hand).hand))
  {
    assert Gives(m, hand, 0) && !Gives(m, hand, 1);
    assert AfterRounds(m, hand, 1) == AfterClock(m, hand) && HandAfter(m, hand, 1) == Clock(m.pages, hand).hand;
  }

  /**
    Making room succeeds if and only if the clock returns as many pages as the counter is short of, and
    then exactly these pages have been evicted. Otherwise it has evicted what the clock returned.
  */
  lemma {:induction false} EvictForIs(m: MemState, hand: nat, n: nat)
    requires hand < |m.pages|
    ensures EvictsShort(m, hand, Short(m, n), EvictFor(m, hand, n))
    decreases Short(m, n)
  {
    if n > m.freePageNum {
      NextEviction(m, hand, n);
      if Clock(m.pages, hand).page.Some? {
        var e := EvictFor(m, hand, n);
        var m1, hand1 := AfterClock(m, hand), Clock(m.pages, hand).hand;
        EvictForIs(m1, hand1, n);
        assert Short(m, n) == Short(m1, n) + 1;
        EvictsOneMore(m, hand, m1, hand1, Short(m1, n), e);
      } else {
        EvictsNothing(m, hand, Short(m, n));
      }
    }
  }

  /** Free pages are counted twice, or a page of one of `blocks` has been given up. */
  ghost predicate Spoiled(blocks: map<nat, nat>, m: MemState) {
    || m.freePageNum > CountFree(m.pages)
    || exists j :: 0 <= j < |m.pages| && m.pages[j].free && InSomeBlock(blocks, j)
  }

  lemma EvictionSpoils(m: MemState, i: nat)
    requires Sound(m) && i < |m.pages|
    ensures Spoiled(m.blocks, EvictPage(m, i))
  {
    EvictionIsNeverSound(m, i);
    CountRelease(m.pages, i, 1);
    if !m.pages[i].free {
      assert EvictPage(m, i).pages[i].free;
      assert InSomeBlock(m.blocks, i);
    }
  }

  /** Nothing that an eviction does can repair what an earlier one has spoiled. */
  lemma EvictionKeepsSpoiled(blocks: map<nat, nat>, m: MemState, i: nat)
    requires Spoiled(blocks, m) && i < |m.pages|
    ensures Spoiled(blocks, EvictPage(m, i))
  {
    CountRelease(m.pages, i, 1);
    if j :| 0 <= j < |m.pages| && m.pages[j].free && InSomeBlock(blocks, j) {
      assert EvictPage(m, i).pages[j].free;
    }
  }

  /** The clock itself spoils nothing and repairs nothing. */
  lemma ClockKeepsState(blocks: map<nat, nat>, m: MemState, hand: nat)
    requires hand < |m.pages|
    ensures var m1 := m.(pages := Clock(m.pages, hand).pages);
      && CountFree(m1.pages) == CountFree(m.pages)
      && (Sound(m) ==> Sound(m1))
      && (Spoiled(blocks, m) ==> Spoiled(blocks, m1))
  {
    var pages := Clock(m.pages, hand).pages;
    SameFree(pages, m.pages);
    if j :| 0 <= j < |m.pages| && m.pages[j].free && InSomeBlock(blocks, j) {
      assert pages[j].free;
    }
  }

  lemma {:induction false} EvictForKeepsSpoiled(blocks: map<nat, nat>, m: MemState, hand: nat, n: nat)
    requires hand < |m.pages| && Spoiled(blocks, m)
    ensures Spoiled(blocks, EvictFor(m, hand, n).m)
    ensures EvictFor(m, hand, n).m.freePageNum >= m.freePageNum
    decreases if n > m.freePageNum then n - m.freePageNum else 0
  {
    if n > m.freePageNum {
      var c := Clock(m.pages, hand);
      var m1 := m.(pages := c.pages);
      ClockKeepsState(blocks, m, hand);
      if c.page.Some? {
        EvictionKeepsSpoiled(blocks, m1, c.page.value);
        EvictForKeepsSpoiled(blocks, EvictPage(m1, c.page.value), c.hand, n);
      }
    }
  }

  /** Making room spoils a sound state if and only if it gives up any page at all. */
  lemma EvictForSpoilsIff(m: MemState, hand: nat, n: nat)
    requires Sound(m) && hand < |m.pages|
    ensures var e := EvictFor(m, hand, n);
      && (Spoiled(m.blocks, e.m) <==> e.m.freePageNum != m.freePageNum)
      && (!Spoiled(m.blocks, e.m) ==> Sound(e.m))
      && (e.done ==> (e.m.freePageNum == m.freePageNum <==> n <= m.freePageNum))
  {
    NotSpoiled(m);
    if n > m.freePageNum {
      var c := Clock(m.pages, hand);
      var m1 := m.(pages := c.pages);
      ClockKeepsState(m.blocks, m, hand);
      NotSpoiled(m1);
      if c.page.Some? {
        EvictionSpoils(m1, c.page.value);
        EvictForKeepsSpoiled(m.blocks, EvictPage(m1, c.page.value), c.hand, n);
      }
    }
  }

  lemma NotSpoiled(m: MemState)
    requires Sound(m)
    ensures !Spoiled(m.blocks, m)
  {
  }

  /**
    From `m` to `m'` the counter is right and every page of every block of `m` is still taken and lies
    outside the `n` pages from `i` on that were handed out.
  */
  ghost predicate Intact(m: MemState, m': MemState, i: nat, n: nat) {
    && m'.freePageNum == CountFree(m'.pages) && |m'.pages| == |m.pages|
    && forall j :: 0 <= j < |m.pages| && InSomeBlock(m.blocks, j) ==> !m'.pages[j].free && !(i <= j < i + n)
  }

  /** What was spoiled is not repaired by handing out a free window, and nothing else is spoiled by it. */
  lemma IntactAfterAllocIff(m: MemState, m': MemState, n: nat)
    requires |m'.pages| == |m.pages| && |m'.headers| == |m'.pages|
    requires CountFree(m'.pages) <= m'.freePageNum && n <= m'.freePageNum && FirstFit(m'.pages, n).Some?
    ensures Intact(m, AllocPages(m', n), FirstFit(m'.pages, n).value, n) <==> !Spoiled(m.blocks, m')
  {
    var i := FirstFit(m'.pages, n).value;
    var a := AllocPages(m', n);
    CountTake(m'.pages, i, n);
    if j :| 0 <= j < |m'.pages| && m'.pages[j].free && InSomeBlock(m.blocks, j) {
      assert a.pages[j].free || i <= j < i + n;
    }
  }

  /**
    Main result: an allocation that succeeds on a sound state leaves every block and the counter intact
    if and only if the counter allowed it to begin with, so that nothing had to be evicted.
  */
  lemma AllocationIsIntactIff(m: MemState, hand: nat, n: nat)
    requires Sound(m) && hand < |m.pages|
    requires var e := EvictFor(m, hand, n); e.done && FirstFit(e.m.pages, n).Some?
    ensures var e := EvictFor(m, hand, n);
      Intact(m, AllocPages(e.m, n), FirstFit(e.m.pages, n).value, n) <==> n <= m.freePageNum
  {
    EvictForSpoilsIff(m, hand, n);
    EvictForCounts(m, hand, n);
    IntactAfterAllocIff(m, EvictFor(m, hand, n).m, n);
  }

  /** Without a window, or with the clock giving up, the same holds for the evictions alone. */
  lemma EvictionIsIntactIff(m: MemState, hand: nat, n: nat)
    requires Sound(m) && hand < |m.pages|
    ensures var e := EvictFor(m, hand, n);
      && (Intact(m, e.m, 0, 0) <==> e.m.freePageNum == m.freePageNum)
      && (e.done ==> (Intact(m, e.m, 0, 0) <==> n <= m.freePageNum))
  {
    EvictForSpoilsIff(m, hand, n);
    EvictForCounts(m, hand, n);
  }

  /** The counter stays at or above the number of free pages. */
  lemma {:induction false} EvictForCounts(m: MemState, hand: nat, n: nat)
    requires hand < |m.pages| && CountFree(m.pages) <= m.freePageNum
    ensures CountFree(EvictFor(m, hand, n).m.pages) <= EvictFor(m, hand, n).m.freePageNum
    decreases if n > m.freePageNum then n - m.freePageNum else 0
  {
    if n > m.freePageNum {
      var c := Clock(m.pages, hand);
      SameFree(c.pages, m.pages);
      if c.page.Some? {
        CountRelease(c.pages, c.page.value, 1);
        EvictForCounts(EvictPage(m.(pages := c.pages), c.page.value), c.hand, n);
      }
    }
  }

  lemma NoneFree(m: MemState)
    requires Sound(m) && m.freePageNum == 0
    ensures forall j :: 0 <= j < |m.pages| ==> !m.pages[j].free
  {
    forall j | 0 <= j < |m.pages|
      ensures !m.pages[j].free
    {
      if m.pages[j].free {
        CountTake(m.pages, j, 1);
      }
    }
  }

  /** A page taken from a one-page block and handed out again is the same page table with an owner too many. */
  lemma ReissuedPage(m: MemState, b: nat)
    requires Sound(m) && m.freePageNum == 0 && b in m.blocks && m.blocks[b] == 1 && b < |m.pages|
    ensures var e := EvictPage(m, b);
      && FirstFit(e.pages, 1) == Some(b)
      && Sound(AllocPages(e, 1)) && AllocPages(e, 1).blocks == m.blocks
      && !Intact(m, AllocPages(e, 1), b, 1)
  {
    var e := EvictPage(m, b);
    NoneFree(m);
    OnlyWindow(e.pages, b);
    var a := AllocPages(e, 1);
    assert a.headers == m.headers && a.blocks == m.blocks && a.freePageNum == m.freePageNum;
    SoundByFreeBits(m, a);
    assert InBlock(m.blocks, b, b) && InSomeBlock(m.blocks, b);
  }

  lemma OnlyWindow(pages: seq<Page>, b: nat)
    requires b < |pages| && forall j :: 0 <= j < |pages| ==> (pages[j].free <==> j == b)
    ensures FirstFit(pages, 1) == Some(b)
  {
    assert AllFree(pages, b, 1);
    forall v | 0 <= v < b
      ensures !AllFree(pages, v, 1)
    {
      assert !pages[v].free;
    }
  }

  /** Soundness does not look at the `used` bits. */
  lemma SoundByFreeBits(m: MemState, a: MemState)
    requires Sound(m) && a.(pages := m.pages) == m && |a.pages| == |m.pages|
    requires forall j :: 0 <= j < |m.pages| ==> a.pages[j].free == m.pages[j].free
    ensures Sound(a)
  {
    SameFree(a.pages, m.pages);
  }

  lemma OneEviction(m: MemState, hand: nat, p: nat)
    requires hand < |m.pages| && Clock(m.pages, hand).page == Some(p)
    ensures EvictFor(m, hand, m.freePageNum + 1) ==
      Eviction(true, EvictPage(m.(pages := Clock(m.pages, hand).pages), p), p)
  {
  }

  /**
    Soundness alone does not show the damage: with no page free, when the clock returns the page of a
    one-page block, that page is handed out again, and the result is sound with one owner forgotten.
  */
  lemma ReissuedPageLooksSound(m: MemState, hand: nat, b: nat)
    requires Sound(m) && m.freePageNum == 0 && b in m.blocks && m.blocks[b] == 1
    requires hand < |m.pages| && Clock(m.pages, hand).page == Some(b)
    ensures var e := EvictFor(m, hand, 1);
      && e.done && FirstFit(e.m.pages, 1) == Some(b)
      && Sound(AllocPages(e.m, 1)) && AllocPages(e.m, 1).blocks == m.blocks
      && !Intact(m, AllocPages(e.m, 1), b, 1)
  {
    ClockKeepsState(m.blocks, m, hand);
    OneEviction(m, hand, b);
    ReissuedPage(m.(pages := Clock(m.pages, hand).pages), b);
  }
}
