/** The page allocator over a fixed pool: tables, free stack, headers and payload updated in place. */
module Allocator {
  import opened Common
  import opened Memory

  const MB: nat := 1048576

  /** `Crash` ends the simulator; a block is named by its first page. */
  datatype AllocResult = Null | MemFull | Crash | Block(page: nat)

  /** What a request answers and leaves behind. */
  datatype Outcome = Outcome(result: AllocResult, m: MemState, hand: nat)

  /**
    A request for `bytes` of a memory of `size`: null for nothing or for all of it; otherwise pages are
    evicted until the counter allows it, and the first window is taken. Without one the simulator ends.
  */
  function Request(m: MemState, hand: nat, bytes: nat, size: nat): Outcome
    requires |m.headers| == |m.pages| && (0 < bytes < size ==> hand < |m.pages|)
  {
    if bytes == 0 || bytes >= size then Outcome(Null, m, hand)
    else
      var n := PagesFor(bytes);
      var e := EvictFor(m, hand, n);
      if !e.done then Outcome(MemFull, e.m, e.hand)
      else match FirstFit(e.m.pages, n)
        case None => Outcome(Crash, e.m, e.hand)
        case Some(i) => Outcome(Block(i), AllocPages(e.m, n), e.hand)
  }

  /** The first page and the number of pages that a request hands out. */
  function HandedOut(r: AllocResult, bytes: nat): (nat, nat) {
    match r case Block(i) => (i, PagesFor(bytes)) case _ => (0, 0)
  }

  /**
    A request on a sound state that does not find the memory full leaves the blocks and the counter
    intact if and only if the counter allowed it to begin with; one that does, if and only if the clock
    gave up before anything was evicted.
  */
  lemma RequestIsIntactIff(m: MemState, hand: nat, bytes: nat, size: nat)
    requires Sound(m) && 0 < bytes < size && hand < |m.pages|
    ensures var o := Request(m, hand, bytes, size);
      var w := HandedOut(o.result, bytes);
      Intact(m, o.m, w.0, w.1) <==>
        if o.result == MemFull then o.m.freePageNum == m.freePageNum else PagesFor(bytes) <= m.freePageNum
  {
    var n := PagesFor(bytes);
    EvictionIsIntactIff(m, hand, n);
    var e := EvictFor(m, hand, n);
    if e.done && FirstFit(e.m.pages, n).Some? {
      AllocationIsIntactIff(m, hand, n);
    }
  }

  /**
    A request finds the memory full if and only if the clock gives up before it has returned as many pages
    as the counter is short of. Otherwise these are evicted, and the first window of free pages is taken.
  */
  lemma RequestIs(m: MemState, hand: nat, bytes: nat, size: nat)
    requires |m.headers| == |m.pages| && hand < |m.pages| && 0 < bytes < size
    ensures var o, n := Request(m, hand, bytes, size), PagesFor(bytes);
      var short := if n > m.freePageNum then n - m.freePageNum else 0;
      && (o.result == MemFull <==> !Gives(m, hand, short))
      && (o.result == MemFull ==> EvictsShort(m, hand, short, Eviction(false, o.m, o.hand)))
      && (o.result != MemFull ==>
            var m1 := AfterRounds(m, hand, short);
            && o.hand == HandAfter(m, hand, short) && n <= m1.freePageNum && |m1.headers| == |m1.pages|
            && match FirstFit(m1.pages, n)
               case None => o.result == Crash && o.m == m1
               case Some(i) => o.result == Block(i) && o.m == AllocPages(m1, n))
  {
    EvictForIs(m, hand, PagesFor(bytes));
  }

  /**
    On a memory with every page free, a request that fits the table is answered with block 0, and takes
    its pages; one that needs more pages than there are is never answered with a block.
  */
  lemma FreshRequest(m: MemState, hand: nat, bytes: nat, size: nat)
    requires |m.headers| == |m.pages| == m.freePageNum && hand < |m.pages| && 0 < bytes < size
    requires forall j :: 0 <= j < |m.pages| ==> m.pages[j].free
    ensures var o, n := Request(m, hand, bytes, size), PagesFor(bytes);
      if n <= |m.pages| then
        && o.result == Block(0) && o.hand == hand && o.m.freePageNum == |m.pages| - n
        && o.m.headers == m.headers[0 := Header(0, n)]
        && |o.m.pages| == |m.pages| && forall j :: 0 <= j < |m.pages| ==> o.m.pages[j].free == (j >= n)
      else !o.result.Block?
  {
    if PagesFor(bytes) <= |m.pages| {
      FirstFitIs(m.pages, PagesFor(bytes), 0);
    }
  }

  /** The next page round the table. */
  function After(i: nat, len: nat): (r: nat)
    requires i < len
    ensures r < len && r == PageAt(i, 1, len)
  {
    if i + 1 == len then 0 else i + 1
  }

  class Mem {
    const size: nat
    const pages: array<Page>
    const headers: array<Header>
    const freeStack: array<nat>
    const pool: array<bv8>
    var freeStackTop: nat
    var freePageNum: nat
    var hand: nat
    ghost var blocks: map<nat, nat>

    /** On every run, eviction included. */
    ghost predicate Valid()
      reads this, pages, freeStack
    {
      && size < 4 * MB
      && pages.Length == headers.Length == freeStack.Length == size / 1024
      && pool.Length == size
      && freeStackTop == freeStack.Length
      && (forall i :: 0 <= i < freeStack.Length ==> freeStack[i] == i)
      && (pages.Length > 0 ==> hand < pages.Length)
      && CountFree(pages[..]) <= freePageNum
    }

    ghost function State(): MemState
      reads this, pages, headers
    {
      MemState(pages[..], freePageNum, headers[..], blocks)
    }

    /** Sizes of 4 MB and more fall back to the default of 1 MB. */
    constructor (memSize: nat)
      ensures Valid() && Sound(State()) && blocks == map[] && freePageNum == pages.Length
      ensures size == if memSize >= 4 * MB then MB else memSize
      ensures pages.Length == size / 1024 && hand == 0
      ensures forall i :: 0 <= i < pages.Length ==> pages[i] == Page(true, false)
    {
      var s := if memSize >= 4 * MB then MB else memSize;
      var len := s / 1024;
      size := s;
      pages := new Page[len](i => Page(true, false));
      headers := new Header[len](i => Header(0, 0));
      freeStack := new nat[len](i => 0);
      pool := new bv8[s];
      freeStackTop := 0;
      freePageNum := len;
      hand := 0;
      blocks := map[];
      new;
      var i := 0;
      while i < len
        invariant 0 <= i <= len == freeStack.Length && freeStackTop == i
        invariant forall j :: 0 <= j < i ==> freeStack[j] == j
        invariant forall j :: 0 <= j < len ==> pages[j] == Page(true, false)
        invariant hand == 0 && freePageNum == len && blocks == map[]
      {
        PushFreeStack(i);
        i := i + 1;
      }
      CountBounds(pages[..]);
    }

    /** A full stack takes no more. */
    method PushFreeStack(i: nat)
      modifies this`freeStackTop, freeStack
      ensures old(freeStackTop) < freeStack.Length ==>
        freeStackTop == old(freeStackTop) + 1 && freeStack[..] == old(freeStack[..])[old(freeStackTop) := i]
      ensures old(freeStackTop) >= freeStack.Length ==>
        freeStackTop == old(freeStackTop) && forall l :: 0 <= l < freeStack.Length ==> freeStack[l] == old(freeStack[l])
    {
      if freeStackTop < freeStack.Length {
        freeStack[freeStackTop] := i;
        freeStackTop := freeStackTop + 1;
      }
    }

    // The clock

    /** Returns -1 when it gives up; it visits at most one page more than there are. */
    method SecondChance() returns (r: int, ghost visits: nat)
      requires Valid() && pages.Length > 0
      modifies this`hand, pages
      ensures Valid() && visits <= pages.Length + 1
      ensures var c := Clock(old(pages[..]), old(hand));
        && pages[..] == c.pages && hand == c.hand
        && r == (match c.page case None => -1 case Some(p) => p)
    {
      var curr: nat := hand;
      ghost var before := pages[..];
      visits := 0;
      while true
        invariant hand == old(hand) && curr < pages.Length
        invariant ClockAt(before, pages[..], hand, visits, curr)
        decreases pages.Length + 1 - visits
      {
        ghost var now := pages[..];
        if !pages[curr].used {
          ClockFinds(before, now, hand, visits, curr);
          visits := visits + 1;
          hand := After(curr, pages.Length);
          SameFree(before, pages[..]);
          return hand, visits;
        }
        ClockGoesOn(before, now, hand, visits, curr);
        pages[curr] := pages[curr].(used := false);
        assert pages[..] == now[curr := now[curr].(used := false)];
        visits := visits + 1;
        curr := After(curr, pages.Length);
        if curr == hand - 1 {
          break;
        }
      }
      SameFree(before, pages[..]);
      hand := After(curr, pages.Length);
      return -1, visits;
    }

    // Allocation

    /** Gives up pages one at a time until the counter allows `n`; each round raises the counter, so it ends. */
    method Evict(n: nat) returns (ok: bool)
      requires Valid() && pages.Length > 0
      modifies this`hand, this`freePageNum, this`freeStackTop, freeStack, pages
      ensures Valid()
      ensures Eviction(ok, State(), hand) == EvictFor(old(State()), old(hand), n)
    {
      while n > freePageNum
        invariant Valid()
        invariant EvictFor(State(), hand, n) == EvictFor(old(State()), old(hand), n)
        decreases n - freePageNum
      {
        NextEviction(State(), hand, n);
        ok := EvictOne();
        if !ok {
          return;
        }
      }
      return true;
    }

    /** The page that the clock returns is given up. */
    method EvictOne() returns (ok: bool)
      requires Valid() && pages.Length > 0
      modifies this`hand, this`freePageNum, this`freeStackTop, freeStack, pages
      ensures Valid()
      ensures ok == Clock(old(pages[..]), old(hand)).page.Some?
      ensures State() == AfterClock(old(State()), old(hand)) && hand == Clock(old(pages[..]), old(hand)).hand
    {
      ghost var m, c := State(), Clock(pages[..], hand);
      var notUsed, _ := SecondChance();
      assert State() == m.(pages := c.pages) && hand == c.hand;
      ok := notUsed != -1;
      if ok {
        GiveUp(notUsed);
      }
    }

    /** Marks one page free and counts it, whether or not it was free before. */
    method GiveUp(i: nat)
      requires Valid() && i < pages.Length
      modifies this`freePageNum, this`freeStackTop, freeStack, pages
      ensures Valid() && freePageNum == old(freePageNum) + 1
      ensures pages[..] == Release(old(pages[..]), i, 1)
    {
      CountRelease(pages[..], i, 1);
      pages[i] := pages[i].(free := true);
      freePageNum := freePageNum + 1;
      PushFreeStack(i);
      assert pages[..] == Release(old(pages[..]), i, 1);
    }

    /** The nested scan. */
    method FindWindow(n: nat) returns (r: Option<nat>)
      ensures r == FirstFit(pages[..], n)
    {
      var i := 0;
      while i < pages.Length
        invariant 0 <= i <= pages.Length
        invariant forall v :: 0 <= v < i ==> !AllFree(pages[..], v, n)
      {
        if i + n > pages.Length {
          break;
        }
        var contiguous := true;
        var j := i;
        while j < i + n
          invariant i <= j <= i + n
          invariant contiguous
          invariant forall l :: i <= l < j ==> pages[l].free
        {
          if !pages[j].free {
            contiguous := false;
            break;
          }
          j := j + 1;
        }
        if contiguous {
          FirstFitIs(pages[..], n, i);
          return Some(i);
        }
        i := i + 1;
      }
      NoFit(pages[..], n, i);
      return None;
    }

    method MarkTaken(i: nat, n: nat)
      requires i + n <= pages.Length
      modifies pages
      ensures pages[..] == Take(old(pages[..]), i, n)
    {
      var j := i;
      while j < i + n
        invariant i <= j <= i + n
        invariant forall l :: 0 <= l < pages.Length ==>
          pages[l] == if i <= l < j then Page(false, true) else old(pages[l])
      {
        pages[j] := Page(false, true);
        j := j + 1;
      }
      assert pages[..] == Take(old(pages[..]), i, n);
    }

    /** The scan, and on success the bookkeeping of the new block. */
    method AllocateWindow(n: nat) returns (r: Option<nat>)
      requires Valid() && n <= freePageNum
      modifies this`freePageNum, this`blocks, pages, headers
      ensures Valid()
      ensures r == FirstFit(old(pages[..]), n)
      ensures State() == AllocPages(old(State()), n)
    {
      r := FindWindow(n);
      if r.Some? {
        var i := r.value;
        CountTake(pages[..], i, n);
        freePageNum := freePageNum - n;
        MarkTaken(i, n);
        headers[i] := Header(i, n);
        blocks := blocks[i := n];
      }
    }

    /**
      Null for requests of nothing or of at least the whole memory; the simulator ends when the free
      pages are there but not next to each other. Without eviction this is first fit, and only then are
      the blocks already held, and the counter, left intact.
    */
    method CAlloc(bytes: nat) returns (r: AllocResult)
      requires Valid() && (0 < bytes < size ==> pages.Length > 0)
      modifies this`hand, this`freePageNum, this`freeStackTop, this`blocks, freeStack, pages, headers
      ensures Valid()
      ensures bytes == 0 || bytes >= size ==> r == Null && State() == old(State())
      ensures 0 < bytes < size && PagesFor(bytes) <= old(freePageNum) ==>
        && State() == AllocPages(old(State()), PagesFor(bytes))
        && r == (match FirstFit(old(pages[..]), PagesFor(bytes)) case None => Crash case Some(i) => Block(i))
      ensures r.Block? ==>
        && r.page + PagesFor(bytes) <= pages.Length
        && headers[..] == old(headers[..])[r.page := Header(r.page, PagesFor(bytes))]
      ensures !r.Block? ==> headers[..] == old(headers[..])
      ensures Outcome(r, State(), hand) == Request(old(State()), old(hand), bytes, size)
      ensures Sound(old(State())) && 0 < bytes < size ==>
        var w := HandedOut(r, bytes);
        Intact(old(State()), State(), w.0, w.1) <==>
          if r == MemFull then freePageNum == old(freePageNum) else PagesFor(bytes) <= old(freePageNum)
    {
      ghost var m, h := State(), hand;
      if Sound(m) && 0 < bytes < size {
        RequestIsIntactIff(m, h, bytes, size);
      }
      if bytes == 0 {
        return Null;
      }
      var n := PagesFor(bytes);
      if bytes >= size {
        return Null;
      }
      if n > freePageNum || n > pages.Length {
        var ok := Evict(n);
        if !ok {
          return MemFull;
        }
      }
      var w := AllocateWindow(n);
      if w == None {
        return Crash;
      }
      return Block(w.value);
    }

    method MarkFree(i: nat, n: nat)
      requires i + n <= pages.Length && freeStackTop >= freeStack.Length
      modifies this`freeStackTop, freeStack, pages
      ensures pages[..] == Release(old(pages[..]), i, n)
      ensures freeStackTop == old(freeStackTop)
      ensures forall l :: 0 <= l < freeStack.Length ==> freeStack[l] == old(freeStack[l])
    {
      var j := i;
      while j < i + n
        invariant i <= j <= i + n
        invariant freeStackTop == old(freeStackTop)
        invariant forall l :: 0 <= l < freeStack.Length ==> freeStack[l] == old(freeStack[l])
        invariant forall l :: 0 <= l < pages.Length ==>
          pages[l] == if i <= l < j then old(pages[l]).(free := true) else old(pages[l])
      {
        pages[j] := pages[j].(free := true);
        PushFreeStack(j);
        j := j + 1;
      }
      assert pages[..] == Release(old(pages[..]), i, n);
    }

    /** Marks every page of the block free, by its header, and counts them. */
    method CDealloc(block: Option<nat>)
      requires Valid()
      requires block.Some? ==>
        block.value < headers.Length && headers[block.value].id + headers[block.value].pageNum <= pages.Length
      modifies this`freePageNum, this`freeStackTop, this`blocks, freeStack, pages
      ensures Valid()
      ensures State() == if block == None then old(State()) else FreeBlock(old(State()), block.value)
      ensures block.Some? ==>
        var h := old(headers[block.value]);
        && freePageNum == old(freePageNum) + h.pageNum
        && forall i :: 0 <= i < pages.Length ==>
             pages[i] == if h.id <= i < h.id + h.pageNum then old(pages[i]).(free := true) else old(pages[i])
    {
      if block.Some? {
        FreeByHeader(block.value);
      }
    }

    method FreeByHeader(b: nat)
      requires Valid()
      requires b < headers.Length && headers[b].id + headers[b].pageNum <= pages.Length
      modifies this`freePageNum, this`freeStackTop, this`blocks, freeStack, pages
      ensures Valid() && State() == FreeBlock(old(State()), b)
    {
      var h := headers[b];
      CountRelease(pages[..], h.id, h.pageNum);
      MarkFree(h.id, h.pageNum);
      Settle(b, h.pageNum);
    }

    /** The counter and the record of live blocks after a release. */
    method Settle(b: nat, n: nat)
      modifies this`freePageNum, this`blocks
      ensures freePageNum == old(freePageNum) + n && blocks == old(blocks) - {b}
    {
      freePageNum := freePageNum + n;
      blocks := blocks - {b};
    }

    // Reallocation

    /** `memcpy`, lowest byte first. */
    method MemCpy(dst: nat, src: nat, len: nat)
      requires dst + len <= pool.Length && src + len <= pool.Length
      modifies pool
      ensures forall x :: 0 <= x < pool.Length && !(dst <= x < dst + len) ==> pool[x] == old(pool[x])
      ensures dst == src || dst + len <= src || src + len <= dst ==>
        pool[dst..dst + len] == old(pool[src..src + len])
    {
      var i := 0;
      while i < len
        invariant 0 <= i <= len
        invariant forall x :: 0 <= x < pool.Length && !(dst <= x < dst + i) ==> pool[x] == old(pool[x])
        invariant dst == src || dst + len <= src || src + len <= dst ==> pool[dst..dst + i] == old(pool[src..src + i])
      {
        pool[dst + i] := pool[src + i];
        i := i + 1;
        assert pool[dst..dst + i] == pool[dst..dst + i - 1] + [pool[dst + i - 1]];
        assert old(pool[src..src + i]) == old(pool[src..src + i - 1]) + [old(pool[src + i - 1])];
      }
    }

    /** The payload of a block. */
    ghost function Payload(b: nat, n: nat): seq<bv8>
      requires n > 0 && PayloadAt(b) + Capacity(n) <= pool.Length
      reads pool
    {
      pool[PayloadAt(b)..PayloadAt(b) + Capacity(n)]
    }

    lemma BlockInPool(b: nat, n: nat)
      requires Valid() && n > 0 && b + n <= pages.Length
      ensures PayloadAt(b) + Capacity(n) <= pool.Length
      ensures PayloadAt(b) == b * 1024 + 8 && PayloadAt(b) + Capacity(n) == (b + n) * 1024
    {
    }

    /** Copies a payload into another block that is at least as large. */
    method CopyPayload(dst: nat, m: nat, src: nat, n: nat)
      requires Valid() && 0 < n <= m && dst + m <= pages.Length && src + n <= pages.Length
      modifies pool
      ensures Valid()
      ensures PayloadAt(dst) + Capacity(n) <= pool.Length && PayloadAt(src) + Capacity(n) <= pool.Length
      ensures forall x :: 0 <= x < pool.Length && !(PayloadAt(dst) <= x < PayloadAt(dst) + Capacity(m)) ==> pool[x] == old(pool[x])
      ensures dst == src || dst + m <= src || src + n <= dst ==> Payload(dst, n) == old(Payload(src, n))
    {
      BlockInPool(dst, m);
      BlockInPool(src, n);
      if dst + m <= src || src + n <= dst {
        PayloadsApart(dst, n, src, n);
      }
      MemCpy(PayloadAt(dst), PayloadAt(src), Capacity(n));
    }

    /** The block has a header in range, and its pages are there. */
    ghost predicate Headed(b: nat)
      reads headers
    {
      && b < headers.Length && headers[b].pageNum > 0
      && headers[b].id + headers[b].pageNum <= pages.Length && b + headers[b].pageNum <= pages.Length
    }

    /** The bytes that a reallocation asks for. */
    ghost function Total(b: nat, bytes: nat): nat
      requires Headed(b)
      reads headers
    {
      Capacity(headers[b].pageNum) + bytes
    }

    /** The block that is handed out does not cover a part of block `b`; only after an eviction could it. */
    ghost predicate KeepsApart(b: nat, total: nat)
      requires Valid() && Headed(b)
      reads this, pages, headers, freeStack
    {
      match Request(State(), hand, total, size).result
      case Block(i) => i == b || i + PagesFor(total) <= b || b + headers[b].pageNum <= i
      case _ => true
    }

    /**
      A larger block with the old payload in front, and the old block released. The caller must keep the
      total in 32 bits. The copy comes before the release.
    */
    method CRealloc(block: Option<nat>, bytes: nat) returns (r: AllocResult)
      requires Valid()
      requires block.Some? ==>
        && Headed(block.value) && Total(block.value, bytes) < 0x1_0000_0000
        && KeepsApart(block.value, Total(block.value, bytes))
      modifies this`hand, this`freePageNum, this`freeStackTop, this`blocks, freeStack, pages, headers, pool
      ensures Valid()
      ensures block == None ==> r == Null && State() == old(State())
      ensures block.Some? ==>
        var p, total := block.value, old(Total(block.value, bytes));
        && Regrown(old(State()), old(hand), old(pool[..]), p, old(headers[block.value].pageNum), total, r)
        && MovedIfRoom(old(State()), old(pool[..]), p, total, r)
      ensures block.Some? && r.Block? ==>
        && r.page < headers.Length && headers[r.page].id == r.page
        && headers[r.page].pageNum * 1024 >= old(headers[block.value].pageNum) * 1024 + bytes
    {
      if block == None {
        return Null;
      }
      ghost var k, h, bytesBefore := State(), hand, pool[..];
      var n := headers[block.value].pageNum;
      var total := n * 1024 - 8 + bytes;
      MorePages(n, bytes);
      r := Grow(block.value, n, total, PagesFor(total));
      RegrownIsMoved(k, h, bytesBefore, block.value, n, total, r);
    }

    /** Allocates `m` pages for `total` bytes, copies, and releases. */
    method Grow(p: nat, n: nat, total: nat, m: nat) returns (r: AllocResult)
      requires Valid() && Headed(p) && headers[p].pageNum == n
      requires total > 0 && m == PagesFor(total) && n <= m && KeepsApart(p, total)
      modifies this`hand, this`freePageNum, this`freeStackTop, this`blocks, freeStack, pages, headers, pool
      ensures Valid() && Regrown(old(State()), old(hand), old(pool[..]), p, n, total, r)
    {
      r := CAlloc(total);
      if !r.Block? {
        return if r == Crash then Crash else Null;
      }
      CopyAndFree(r.page, m, p, n);
    }

    /** What a reallocation of block `p` leaves, whatever the state it starts from. */
    ghost predicate Regrown(k: MemState, h: nat, bytesBefore: seq<bv8>, p: nat, n: nat, total: nat, r: AllocResult)
      reads this, pages, headers, pool
    {
      && |k.headers| == |k.pages| && h < |k.pages| && p < |k.headers|
      && var o := Request(k, h, total, size);
      && hand == o.hand
      && match o.result
         case Block(i) =>
           && r == Block(i)
           && o.m.headers[p].id + o.m.headers[p].pageNum <= |o.m.pages|
           && State() == FreeBlock(o.m, p) && Copied(bytesBefore, i, PagesFor(total), p, n)
         case Crash => r == Crash && State() == o.m && pool[..] == bytesBefore
         case _ => r == Null && State() == o.m && pool[..] == bytesBefore
    }

    /** From a sound state, and without eviction, the block moves, or there is no window for it. */
    ghost predicate MovedIfRoom(k: MemState, bytesBefore: seq<bv8>, p: nat, total: nat, r: AllocResult)
      reads this, pages, headers, pool
    {
      Sound(k) && p in k.blocks && 0 < total < size && PagesFor(total) <= k.freePageNum ==>
        match FirstFit(k.pages, PagesFor(total))
        case None => r == Crash
        case Some(i) => r == Block(i) && Moved(k, bytesBefore, p, i, PagesFor(total))
    }

    lemma RegrownIsMoved(k: MemState, h: nat, bytesBefore: seq<bv8>, p: nat, n: nat, total: nat, r: AllocResult)
      requires Valid() && |k.pages| == pages.Length
      requires Regrown(k, h, bytesBefore, p, n, total, r) && k.headers[p].pageNum == n <= PagesFor(total)
      ensures MovedIfRoom(k, bytesBefore, p, total, r)
    {
      var m := PagesFor(total);
      if Sound(k) && p in k.blocks && 0 < total < size && m <= k.freePageNum && FirstFit(k.pages, m).Some? {
        StillThere(k, m, p);
        MovedInParts(k, bytesBefore, p, FirstFit(k.pages, m).value, m);
      }
    }

    method CopyAndFree(dst: nat, m: nat, src: nat, n: nat)
      requires Valid() && 0 < n <= m && dst + m <= pages.Length && src + n <= pages.Length
      requires headers[src].id + headers[src].pageNum <= pages.Length
      modifies this`freePageNum, this`freeStackTop, this`blocks, freeStack, pages, pool
      ensures Valid() && State() == FreeBlock(old(State()), src)
      ensures Copied(old(pool[..]), dst, m, src, n)
    {
      CopyPayload(dst, m, src, n);
      FreeByHeader(src);
    }

    /** Only the target block has changed, and it starts with the source's payload if they are apart or the same. */
    ghost predicate Copied(bytesBefore: seq<bv8>, dst: nat, m: nat, src: nat, n: nat)
      reads pool
    {
      && 0 < n && |bytesBefore| == pool.Length
      && PayloadAt(dst) + Capacity(n) <= pool.Length && PayloadAt(src) + Capacity(n) <= pool.Length
      && (forall x :: 0 <= x < pool.Length && !(PayloadAt(dst) <= x < PayloadAt(dst) + Capacity(m)) ==> pool[x] == bytesBefore[x])
      && (dst == src || dst + m <= src || src + n <= dst ==>
            pool[PayloadAt(dst)..PayloadAt(dst) + Capacity(n)] == bytesBefore[PayloadAt(src)..PayloadAt(src) + Capacity(n)])
    }

    lemma MovedInParts(k: MemState, bytesBefore: seq<bv8>, p: nat, i: nat, n: nat)
      requires Valid() && Sound(k) && p in k.blocks && 0 < k.blocks[p] <= n && |k.pages| == pages.Length
      requires n <= k.freePageNum && FirstFit(k.pages, n) == Some(i)
      requires State() == ReallocPages(k, p, n)
      requires Copied(bytesBefore, i, n, p, k.blocks[p])
      ensures Moved(k, bytesBefore, p, i, n)
    {
      ReallocSound(k, p, n);
      BlockInPool(i, n);
      OthersUntouched(k, bytesBefore, p, i, n);
    }

    /**
      Block `p` of the old state has moved to the `n` pages from `i` on: the state is sound, the old block
      is gone and the new one is there, its payload starts with the old one, and no other block's
      payload has changed.
    */
    ghost predicate Moved(k: MemState, bytesBefore: seq<bv8>, p: nat, i: nat, n: nat)
      reads this, pages, headers, pool
    {
      && Sound(k) && p in k.blocks && 0 < k.blocks[p] <= n <= k.freePageNum
      && State() == ReallocPages(k, p, n) && Sound(State())
      && blocks == k.blocks[i := n] - {p}
      && (i + n <= p || p + k.blocks[p] <= i)
      && |bytesBefore| == pool.Length
      && PayloadAt(i) + Capacity(n) <= pool.Length
      && (forall b :: b in k.blocks ==> k.blocks[b] > 0 && PayloadAt(b) + Capacity(k.blocks[b]) <= pool.Length)
      && pool[PayloadAt(i)..PayloadAt(i) + Capacity(k.blocks[p])]
         == bytesBefore[PayloadAt(p)..PayloadAt(p) + Capacity(k.blocks[p])]
      && (forall b :: b in k.blocks && b != p ==>
            pool[PayloadAt(b)..PayloadAt(b) + Capacity(k.blocks[b])]
            == bytesBefore[PayloadAt(b)..PayloadAt(b) + Capacity(k.blocks[b])])
    }

    lemma OthersUntouched(k: MemState, bytesBefore: seq<bv8>, p: nat, i: nat, n: nat)
      requires Valid() && Sound(k) && |k.pages| == pages.Length && |bytesBefore| == pool.Length
      requires i + n <= pages.Length && n > 0
      requires forall b :: b in k.blocks ==> b + k.blocks[b] <= i || i + n <= b
      requires forall x :: 0 <= x < pool.Length && !(PayloadAt(i) <= x < PayloadAt(i) + Capacity(n)) ==> pool[x] == bytesBefore[x]
      ensures forall b :: b in k.blocks ==>
        && k.blocks[b] > 0 && PayloadAt(b) + Capacity(k.blocks[b]) <= pool.Length
        && pool[PayloadAt(b)..PayloadAt(b) + Capacity(k.blocks[b])]
           == bytesBefore[PayloadAt(b)..PayloadAt(b) + Capacity(k.blocks[b])]
    {
      forall b | b in k.blocks
        ensures k.blocks[b] > 0 && PayloadAt(b) + Capacity(k.blocks[b]) <= pool.Length
        ensures pool[PayloadAt(b)..PayloadAt(b) + Capacity(k.blocks[b])]
           == bytesBefore[PayloadAt(b)..PayloadAt(b) + Capacity(k.blocks[b])]
      {
        BlockInPool(b, k.blocks[b]);
        PayloadsApart(b, k.blocks[b], i, n);
      }
    }
  }

  /** Where the payload of a block starts. */
  function PayloadAt(b: nat): nat {
    Offset(b) + HEADER_SIZE
  }

  lemma MorePages(n: nat, bytes: nat)
    requires n > 0
    ensures PagesFor(Capacity(n) + bytes) >= n && Capacity(PagesFor(Capacity(n) + bytes)) >= Capacity(n) + bytes
  {
    PagesForIsEnough(Capacity(n) + bytes);
  }

  /** Two runs of pages that do not meet have payloads that do not meet. */
  lemma PayloadsApart(b: nat, n: nat, c: nat, m: nat)
    requires n > 0 && m > 0 && (b + n <= c || c + m <= b)
    ensures PayloadAt(b) + Capacity(n) <= PayloadAt(c) || PayloadAt(c) + Capacity(m) <= PayloadAt(b)
  {
  }

  lemma FirstFitIs(pages: seq<Page>, n: nat, i: nat)
    requires i < |pages| && AllFree(pages, i, n)
    requires forall v :: 0 <= v < i ==> !AllFree(pages, v, n)
    ensures FirstFit(pages, n) == Some(i)
  {
  }

  lemma NoFit(pages: seq<Page>, n: nat, i: nat)
    requires i <= |pages| && (i == |pages| || i + n > |pages|)
    requires forall v :: 0 <= v < i ==> !AllFree(pages, v, n)
    ensures FirstFit(pages, n) == None
  {
  }

  /** The clock has passed `v` used pages, cleared them, and is now at `curr`. */
  ghost predicate ClockAt(before: seq<Page>, now: seq<Page>, hand: nat, v: nat, curr: nat) {
    && hand < |before| && v <= Reach(hand, |before|) && (hand > 0 ==> v < Reach(hand, |before|))
    && curr == PageAt(hand, v, |before|) && curr < |before|
    && now == Cleared(before, hand, v)
    && forall d :: 0 <= d < v ==> before[PageAt(hand, d, |before|)].used
  }

  lemma ClockFinds(before: seq<Page>, now: seq<Page>, hand: nat, v: nat, curr: nat)
    requires ClockAt(before, now, hand, v, curr) && !now[curr].used
    ensures Clock(before, hand) == ClockResult(Some(After(curr, |before|)), now, After(curr, |before|))
  {
    if v < Reach(hand, |before|) {
      ClockStops(before, hand, v, now);
    } else {
      SecondPass(before);
    }
  }

  lemma ClockGoesOn(before: seq<Page>, now: seq<Page>, hand: nat, v: nat, curr: nat)
    requires ClockAt(before, now, hand, v, curr) && now[curr].used
    ensures var now', curr' := now[curr := now[curr].(used := false)], After(curr, |before|);
      if curr' == hand - 1 then Clock(before, hand) == ClockResult(None, now', After(curr', |before|))
      else ClockAt(before, now', hand, v + 1, curr')
    ensures v < |before|
  {
    FirstPageCleared(before, now);
    AfterPageAt(hand, v, |before|);
    NotYetCleared(before, hand, v);
    ClearedOneMore(before, hand, v);
    if After(curr, |before|) == hand - 1 {
      assert v + 1 == |before| - 1;
      ClockGivesUp(before, hand);
    }
  }

  lemma ClearedOneMore(pages: seq<Page>, hand: nat, v: nat)
    requires hand < |pages| && v < |pages|
    ensures var c, i := Cleared(pages, hand, v), PageAt(hand, v, |pages|);
      Cleared(pages, hand, v + 1) == c[i := c[i].(used := false)]
  {
  }

  lemma FirstUnusedIs(pages: seq<Page>, hand: nat, v: nat)
    requires hand < |pages| && v < Reach(hand, |pages|)
    requires forall d :: 0 <= d < v ==> pages[PageAt(hand, d, |pages|)].used
    requires !pages[PageAt(hand, v, |pages|)].used
    ensures FirstUnused(pages, hand) == Some(v)
  {
  }

  lemma NoneUnused(pages: seq<Page>, hand: nat)
    requires hand < |pages|
    requires forall d :: 0 <= d < Reach(hand, |pages|) ==> pages[PageAt(hand, d, |pages|)].used
    ensures FirstUnused(pages, hand) == None
  {
  }

  lemma AfterPageAt(hand: nat, v: nat, len: nat)
    requires hand < len && v < len
    ensures After(PageAt(hand, v, len), len) == PageAt(hand, v + 1, len)
  {
  }

  lemma NotYetCleared(pages: seq<Page>, hand: nat, v: nat)
    requires hand < |pages| && v < |pages|
    ensures Cleared(pages, hand, v)[PageAt(hand, v, |pages|)] == pages[PageAt(hand, v, |pages|)]
  {
  }

  /** The clock stops at the first unused page and returns the one after it; the pages before it lose their bit. */
  lemma FirstPass(pages: seq<Page>, hand: nat, v: nat)
    requires hand < |pages| && v < Reach(hand, |pages|)
    requires forall d :: 0 <= d < v ==> pages[PageAt(hand, d, |pages|)].used
    requires !pages[PageAt(hand, v, |pages|)].used
    ensures Clock(pages, hand) ==
      ClockResult(Some(PageAt(hand, v + 1, |pages|)), Cleared(pages, hand, v), PageAt(hand, v + 1, |pages|))
  {
    FirstUnusedIs(pages, hand, v);
  }

  /** The clock found an unused page after `v` used ones. */
  lemma ClockStops(pages: seq<Page>, hand: nat, v: nat, now: seq<Page>)
    requires hand < |pages| && v < Reach(hand, |pages|)
    requires forall d :: 0 <= d < v ==> pages[PageAt(hand, d, |pages|)].used
    requires now == Cleared(pages, hand, v) && !now[PageAt(hand, v, |pages|)].used
    ensures var next := After(PageAt(hand, v, |pages|), |pages|);
      Clock(pages, hand) == ClockResult(Some(next), now, next)
  {
    AfterPageAt(hand, v, |pages|);
    NotYetCleared(pages, hand, v);
    FirstPass(pages, hand, v);
  }

  /** From hand 0 with every page used, it stops at page 0 on the second pass. */
  lemma SecondPass(pages: seq<Page>)
    requires |pages| > 0
    requires forall d :: 0 <= d < |pages| ==> pages[PageAt(0, d, |pages|)].used
    ensures var next := After(PageAt(0, |pages|, |pages|), |pages|);
      Clock(pages, 0) == ClockResult(Some(next), Cleared(pages, 0, |pages|), next)
  {
    NoneUnused(pages, 0);
    AfterPageAt(0, 0, |pages|);
  }

  lemma FirstPageCleared(pages: seq<Page>, now: seq<Page>)
    requires 0 < |pages|
    ensures now == Cleared(pages, 0, |pages|) ==> !now[0].used
  {
    assert PageAt(0, 0, |pages|) == 0;
  }

  lemma ClockGivesUp(pages: seq<Page>, hand: nat)
    requires 0 < hand < |pages|
    requires forall d :: 0 <= d < |pages| - 1 ==> pages[PageAt(hand, d, |pages|)].used
    ensures Clock(pages, hand) == ClockResult(None, Cleared(pages, hand, |pages| - 1), hand)
  {
    NoneUnused(pages, hand);
  }
}
