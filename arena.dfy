/**
 * The offset allocator as a value: an arena of `peak` bytes, of which `used` are handed out,
 * with an address-ordered map of free blocks. `AllocStep` and `FreeStep` are `alloc` and `free`
 * of src/core/allocator.cc; the class in allocator.dfy is proved to perform exactly these steps.
 *
 * The lemmas state the invariants the allocator keeps under correct use (free blocks disjoint,
 * never adjacent, none ending at `peak`, everything 8-aligned, `used + free bytes == peak`)
 * and that freeing every live allocation returns the arena to empty.
 */
module Arena {
  import opened Common

  /** Width of `uint64_t`, the widest element type: every size and offset is a multiple of it. */
  const Alignment: nat := 8

  predicate IsAligned(x: nat) {
    x % Alignment == 0
  }

  /**
   * getAlignedSize. Over `size_t`, `((size - 1) / 8 + 1) * 8` wraps to 0 at `size == 0`
   * (the subtraction underflows, the product overflows), so a zero request stays zero.
   */
  function AlignedSize(size: nat): (r: nat)
    ensures IsAligned(r)
    ensures size <= r < size + Alignment
    ensures r == 0 <==> size == 0
  {
    if size == 0 then 0 else ((size - 1) / Alignment + 1) * Alignment
  }

  datatype Block = Block(addr: nat, size: nat) {
    function End(): nat { addr + size }
  }

  /** Allocator state: `realised` stands for `ptr != nullptr`. */
  datatype Arena = Arena(used: nat, peak: nat, realised: bool, free: seq<Block>)

  /** A newly constructed allocator. */
  const Empty: Arena := Arena(0, 0, false, [])

  // ---------------------------------------------------------------------------------------
  // The ordered map of free blocks, keyed by address.

  /** Keys strictly increase: the sequence is a `std::map<size_t, size_t>` read in key order. */
  ghost predicate KeysAscending(free: seq<Block>) {
    forall i, j :: 0 <= i < j < |free| ==> free[i].addr < free[j].addr
  }

  /** Number of leading entries whose key is below `key`: `lower_bound(key)` as an index. */
  function LowerBound(free: seq<Block>, key: nat): (p: nat)
    ensures p <= |free|
    ensures forall i :: 0 <= i < p ==> free[i].addr < key
    ensures p < |free| ==> free[p].addr >= key
  {
    if free == [] || free[0].addr >= key then 0 else 1 + LowerBound(free[1..], key)
  }

  /** `free[b.addr] = b.size`: overwrite the entry with that key, or insert it in key order. */
  function Put(free: seq<Block>, b: Block): (r: seq<Block>)
    ensures LowerBound(free, b.addr) < |r| && r[LowerBound(free, b.addr)] == b
  {
    var p := LowerBound(free, b.addr);
    if p < |free| && free[p].addr == b.addr then free[p := b] else free[..p] + [b] + free[p..]
  }

  lemma {:induction false} LowerBoundAt(free: seq<Block>, key: nat, p: nat)
    requires p <= |free| && (p < |free| ==> free[p].addr >= key)
    requires forall i :: 0 <= i < p ==> free[i].addr < key
    ensures LowerBound(free, key) == p
    decreases p
  {
    if p > 0 {
      assert free[0].addr < key;
      LowerBoundAt(free[1..], key, p - 1);
    }
  }

  function EraseAt(free: seq<Block>, i: nat): seq<Block>
    requires i < |free|
  {
    free[..i] + free[i + 1..]
  }

  /** Index of the first block, in address order, at or after `i` that holds `n` bytes. */
  function FirstFitFrom(free: seq<Block>, i: nat, n: nat): (r: Option<nat>)
    decreases |free| - i
    ensures r.Some? ==> i <= r.value < |free| && free[r.value].size >= n
    ensures r.Some? ==> forall j :: i <= j < r.value ==> free[j].size < n
    ensures r.None? ==> forall j :: i <= j < |free| ==> free[j].size < n
  {
    if i >= |free| then None
    else if free[i].size >= n then Some(i)
    else FirstFitFrom(free, i + 1, n)
  }

  function FirstFit(free: seq<Block>, n: nat): Option<nat> {
    FirstFitFrom(free, 0, n)
  }

  /** Two neighbouring entries `s[i]`, `s[i + 1]` replaced by one entry under the key of `s[i]` holding both. */
  function MergeAt(s: seq<Block>, i: nat): seq<Block>
    requires i + 1 < |s|
  {
    s[..i] + [Block(s[i].addr, s[i].size + s[i + 1].size)] + s[i + 2..]
  }

  /**
   * The non-tail branch of `free` after `freeBlocks[addr] = size`: merge the entry at `p` with a
   * following entry that starts where it ends, then with a preceding entry that ends where it starts.
   */
  function Coalesce(free: seq<Block>, p: nat): seq<Block>
    requires p < |free|
  {
    var f := if p + 1 < |free| && free[p].End() == free[p + 1].addr then MergeAt(free, p) else free;
    if p > 0 && f[p - 1].End() == f[p].addr then MergeAt(f, p - 1) else f
  }

  /** The non-tail branch of `free` in full: the block is put into the map, then merged with its neighbours. */
  function Reinsert(free: seq<Block>, b: Block): seq<Block> {
    Coalesce(Put(free, b), LowerBound(free, b.addr))
  }

  /** Hands out the first `n` bytes of `free[i]`: the entry is erased and any remainder re-inserted under its new key. */
  function Carve(free: seq<Block>, i: nat, n: nat): seq<Block>
    requires i < |free| && n <= free[i].size
  {
    var b := free[i];
    var rest := EraseAt(free, i);
    if b.size > n then Put(rest, Block(b.addr + n, b.size - n)) else rest
  }

  /** The tail branch of `free`: while the last free block ends at `peak`, drop it and retreat. */
  function Retreat(peak: nat, free: seq<Block>): (nat, seq<Block>)
    decreases |free|
  {
    if free == [] then (peak, free)
    else
      var last := free[|free| - 1];
      if last.End() == peak then Retreat(last.addr, free[..|free| - 1]) else (peak, free)
  }

  // ---------------------------------------------------------------------------------------
  // alloc, free, getPtr

  /**
   * `alloc(size)`: None when the source's assertion fails (after realisation, or for a request
   * that aligns to zero); otherwise the new state and the returned offset.
   */
  function AllocStep(a: Arena, size: nat): (r: Option<(Arena, nat)>)
    ensures r.None? <==> a.realised || size == 0
    ensures r.Some? ==> r.value.0.used == a.used + AlignedSize(size) && !r.value.0.realised
    ensures r.Some? && FirstFit(a.free, AlignedSize(size)).None? ==>
              r.value.1 == a.peak && r.value.0.peak == a.peak + AlignedSize(size) && r.value.0.free == a.free
  {
    if a.realised then None
    else
      var n := AlignedSize(size);
      if n == 0 then None
      else
        match FirstFit(a.free, n)
        case Some(i) => Some((a.(used := a.used + n, free := Carve(a.free, i, n)), a.free[i].addr))
        case None => Some((a.(peak := a.peak + n, used := a.used + n), a.peak))
  }

  /**
   * First fit: when some free block holds the request, alloc does not grow the arena and returns
   * the start of the lowest-addressed such block.
   */
  lemma AllocIsFirstFit(a: Arena, size: nat, b: Block)
    requires KeysAscending(a.free) && AllocStep(a, size).Some?
    requires b in a.free && b.size >= AlignedSize(size)
    ensures AllocStep(a, size).value.0.peak == a.peak
    ensures exists c :: c in a.free && c.size >= AlignedSize(size) && c.addr == AllocStep(a, size).value.1
    ensures forall c :: c in a.free && c.size >= AlignedSize(size) ==> AllocStep(a, size).value.1 <= c.addr
  {
    var n := AlignedSize(size);
    var k :| 0 <= k < |a.free| && a.free[k] == b;
    assert a.free[k].size >= n;
    var i := FirstFit(a.free, n).value;
    assert AllocStep(a, size) == Some((a.(used := a.used + n, free := Carve(a.free, i, n)), a.free[i].addr));
    assert a.free[i] in a.free;
    forall c | c in a.free && c.size >= n ensures a.free[i].addr <= c.addr {
      var j :| 0 <= j < |a.free| && a.free[j] == c;
      assert i <= j;
    }
  }

  /**
   * `free(addr, size)`: None when the source's assertion fails (after realisation, a zero size,
   * a range past `peak`, or more bytes than are in use); otherwise the new state.
   */
  function FreeStep(a: Arena, addr: nat, size: nat): (r: Option<Arena>)
    ensures r.None? <==> a.realised || size == 0 || addr + AlignedSize(size) > a.peak || a.used < AlignedSize(size)
    ensures r.Some? ==> r.value.used == a.used - AlignedSize(size) && !r.value.realised
    ensures r.Some? && addr + AlignedSize(size) == a.peak ==> r.value.peak <= addr
    ensures r.Some? && addr + AlignedSize(size) < a.peak ==> r.value.peak == a.peak
  {
    if a.realised then None
    else
      var n := AlignedSize(size);
      if n == 0 || addr + n > a.peak || a.used < n then None
      else if addr + n == a.peak then
        var (peak', free') := Retreat(addr, a.free);
        RetreatLowers(addr, a.free);
        Some(Arena(a.used - n, peak', false, free'))
      else
        Some(a.(used := a.used - n, free := Reinsert(a.free, Block(addr, n))))
  }

  lemma {:induction false} RetreatLowers(peak: nat, free: seq<Block>)
    ensures Retreat(peak, free).0 <= peak
    decreases |free|
  {
    if free != [] {
      var last := free[|free| - 1];
      if last.End() == peak {
        RetreatLowers(last.addr, free[..|free| - 1]);
      }
    }
  }

  /** `getPtr` on the value level: the arena is realised; sizes stay as planned. */
  function Realise(a: Arena): Arena {
    a.(realised := true)
  }

  // ---------------------------------------------------------------------------------------
  // Invariants kept under correct use

  function Total(s: seq<Block>): nat {
    if s == [] then 0 else s[0].size + Total(s[1..])
  }

  /** Free blocks are in address order, pairwise disjoint and never adjacent. */
  ghost predicate Separated(free: seq<Block>) {
    forall i, j :: 0 <= i < j < |free| ==> free[i].End() < free[j].addr
  }

  ghost predicate GoodBlock(b: Block) {
    b.size > 0 && IsAligned(b.addr) && IsAligned(b.size)
  }

  ghost predicate GoodBlocks(s: seq<Block>) {
    forall i :: 0 <= i < |s| ==> GoodBlock(s[i])
  }

  /**
   * The allocator invariant: separated, aligned, non-empty free blocks, the last of which ends
   * strictly below `peak`, and every byte below `peak` either used or free.
   */
  ghost predicate Inv(a: Arena) {
    && Separated(a.free)
    && GoodBlocks(a.free)
    && (a.free != [] ==> a.free[|a.free| - 1].End() < a.peak)
    && IsAligned(a.peak)
    && a.used + Total(a.free) == a.peak
  }

  ghost predicate Disjoint(x: Block, y: Block) {
    x.End() <= y.addr || y.End() <= x.addr
  }

  ghost predicate WithinPeak(live: seq<Block>, peak: nat) {
    forall i :: 0 <= i < |live| ==> live[i].End() <= peak
  }

  ghost predicate Pairwise(live: seq<Block>) {
    forall i, j :: 0 <= i < j < |live| ==> Disjoint(live[i], live[j])
  }

  /** Every block of `xs` is disjoint from every block of `ys`. */
  ghost predicate Apart(xs: seq<Block>, ys: seq<Block>) {
    forall i, j :: 0 <= i < |xs| && 0 <= j < |ys| ==> Disjoint(xs[i], ys[j])
  }

  /**
   * `live` lists the allocations handed out and not yet freed: aligned, non-empty, inside the
   * arena, disjoint from each other and from every free block, and adding up to `used`.
   */
  ghost predicate Tracks(a: Arena, live: seq<Block>) {
    && !a.realised
    && Inv(a)
    && GoodBlocks(live)
    && WithinPeak(live, a.peak)
    && Pairwise(live)
    && Apart(live, a.free)
    && a.used == Total(live)
  }

  function Without(live: seq<Block>, k: nat): seq<Block>
    requires k < |live|
  {
    live[..k] + live[k + 1..]
  }

  /** Index in `live` of entry `x` of `Without(live, k)`. */
  function Skip(x: nat, k: nat): nat {
    if x < k then x else x + 1
  }

  // ---------------------------------------------------------------------------------------
  // Helper facts

  lemma {:induction false} TotalConcat(s: seq<Block>, t: seq<Block>)
    ensures Total(s + t) == Total(s) + Total(t)
  {
    if s == [] {
      assert s + t == t;
    } else {
      assert (s + t)[1..] == s[1..] + t;
      TotalConcat(s[1..], t);
    }
  }

  lemma TotalSplit(s: seq<Block>, k: nat)
    requires k < |s|
    ensures Total(s) == Total(s[..k]) + s[k].size + Total(s[k + 1..])
  {
    assert s == s[..k] + [s[k]] + s[k + 1..];
    TotalSplice(s[..k], s[k], s[k + 1..]);
  }

  lemma TotalRange(s: seq<Block>, lo: nat, hi: nat)
    requires lo <= hi <= |s|
    ensures Total(s) == Total(s[..lo]) + Total(s[lo..hi]) + Total(s[hi..])
  {
    assert s == s[..lo] + s[lo..hi] + s[hi..];
    TotalConcat(s[..lo] + s[lo..hi], s[hi..]);
    TotalConcat(s[..lo], s[lo..hi]);
  }

  lemma TotalSplice(pre: seq<Block>, m: Block, post: seq<Block>)
    ensures Total(pre + [m] + post) == Total(pre) + m.size + Total(post)
  {
    TotalConcat(pre + [m], post);
    TotalConcat(pre, [m]);
    assert [m][1..] == [];
  }

  lemma TotalSmall(x: Block, y: Block)
    ensures Total([x]) == x.size
    ensures Total([x, y]) == x.size + y.size
  {
    assert [x][1..] == [];
    assert [x, y][1..] == [y];
    assert [y][1..] == [];
  }

  lemma {:induction false} TotalAligned(s: seq<Block>)
    requires GoodBlocks(s)
    ensures IsAligned(Total(s))
    decreases |s|
  {
    if s != [] {
      assert GoodBlocks(s[1..]) by {
        forall i | 0 <= i < |s| - 1 ensures GoodBlock(s[1..][i]) {
          assert s[1..][i] == s[i + 1];
        }
      }
      TotalAligned(s[1..]);
      assert GoodBlock(s[0]);
    }
  }

  lemma SeparatedAscending(free: seq<Block>)
    requires Separated(free)
    ensures KeysAscending(free)
  {
  }

  lemma SeparatedSlice(s: seq<Block>, lo: nat, hi: nat)
    requires Separated(s) && GoodBlocks(s) && lo <= hi <= |s|
    ensures Separated(s[lo..hi]) && GoodBlocks(s[lo..hi])
  {
    forall i, j | 0 <= i < j < hi - lo ensures s[lo..hi][i].End() < s[lo..hi][j].addr {
      assert s[lo..hi][i] == s[lo + i] && s[lo..hi][j] == s[lo + j];
    }
    forall i | 0 <= i < hi - lo ensures GoodBlock(s[lo..hi][i]) {
      assert s[lo..hi][i] == s[lo + i];
    }
  }

  /** The bytes of a separated list fit between its first address and its last end. */
  lemma {:induction false} TotalWithinSpan(s: seq<Block>)
    requires Separated(s) && GoodBlocks(s) && s != []
    ensures Total(s) <= s[|s| - 1].End() - s[0].addr
    decreases |s|
  {
    if |s| == 1 {
      assert s[1..] == [];
    } else {
      SeparatedSlice(s, 1, |s|);
      assert s[1..|s|] == s[1..];
      TotalWithinSpan(s[1..]);
      assert s[0].End() < s[1].addr;
      assert s[1..][|s[1..]| - 1] == s[|s| - 1];
    }
  }

  /** Under the invariant every free block ends strictly below `peak`. */
  lemma FreeBelowPeak(a: Arena)
    requires Inv(a)
    ensures forall i :: 0 <= i < |a.free| ==> a.free[i].End() < a.peak
  {
    forall i | 0 <= i < |a.free| ensures a.free[i].End() < a.peak {
      if i < |a.free| - 1 {
        assert a.free[i].End() < a.free[|a.free| - 1].addr;
      }
    }
  }

  /** Splicing `[m]` between two separated lists keeps them separated when it fits between them. */
  lemma SeparatedSplice(pre: seq<Block>, m: Block, post: seq<Block>)
    requires Separated(pre) && Separated(post) && GoodBlocks(pre) && GoodBlocks(post) && GoodBlock(m)
    requires pre != [] ==> pre[|pre| - 1].End() < m.addr
    requires post != [] ==> m.End() < post[0].addr
    ensures Separated(pre + [m] + post) && GoodBlocks(pre + [m] + post)
  {
    var r := pre + [m] + post;
    forall i, j | 0 <= i < j < |r| ensures r[i].End() < r[j].addr {
      if j < |pre| {
        assert r[i] == pre[i] && r[j] == pre[j];
      } else if i < |pre| {
        assert r[i] == pre[i];
        assert pre[i].End() <= pre[|pre| - 1].End() by {
          if i < |pre| - 1 { assert pre[i].End() < pre[|pre| - 1].addr; }
        }
        if j > |pre| {
          assert r[j] == post[j - |pre| - 1];
          assert post[0].addr <= post[j - |pre| - 1].addr by {
            if j - |pre| - 1 > 0 { assert post[0].End() < post[j - |pre| - 1].addr; }
          }
        }
      } else if i == |pre| {
        assert r[j] == post[j - |pre| - 1];
        assert post[0].addr <= post[j - |pre| - 1].addr by {
          if j - |pre| - 1 > 0 { assert post[0].End() < post[j - |pre| - 1].addr; }
        }
      } else {
        assert r[i] == post[i - |pre| - 1] && r[j] == post[j - |pre| - 1];
      }
    }
    forall i | 0 <= i < |r| ensures GoodBlock(r[i]) {
      if i < |pre| { assert r[i] == pre[i]; }
      else if i > |pre| { assert r[i] == post[i - |pre| - 1]; }
    }
  }

  /** Dropping the block at `i` keeps a separated list separated. */
  lemma SeparatedErase(s: seq<Block>, i: nat)
    requires Separated(s) && GoodBlocks(s) && i < |s|
    ensures Separated(EraseAt(s, i)) && GoodBlocks(EraseAt(s, i))
  {
    var r := EraseAt(s, i);
    forall x, y | 0 <= x < y < |r| ensures r[x].End() < r[y].addr {
      assert r[x] == s[Skip(x, i)] && r[y] == s[Skip(y, i)];
    }
    forall x | 0 <= x < |r| ensures GoodBlock(r[x]) {
      assert r[x] == s[Skip(x, i)];
    }
  }

  /** In a separated list only the last block can end at `peak`, so the cascade stops after one step. */
  lemma RetreatOnce(peak: nat, free: seq<Block>)
    requires Separated(free) && GoodBlocks(free)
    ensures free != [] && free[|free| - 1].End() == peak ==>
              Retreat(peak, free) == (free[|free| - 1].addr, free[..|free| - 1])
    ensures free == [] || free[|free| - 1].End() != peak ==> Retreat(peak, free) == (peak, free)
  {
    if free != [] && free[|free| - 1].End() == peak {
      var init := free[..|free| - 1];
      var p := free[|free| - 1].addr;
      if init != [] {
        assert init[|init| - 1] == free[|free| - 2];
        assert free[|free| - 2].End() < p;
      }
    }
  }

  lemma AlignedAdd(x: nat, y: nat)
    requires IsAligned(x) && IsAligned(y)
    ensures IsAligned(x + y)
  {
  }

  lemma AlignedSub(x: nat, y: nat)
    requires IsAligned(x) && IsAligned(y) && y <= x
    ensures IsAligned(x - y)
  {
  }

  /** A block disjoint from `outer` is disjoint from every block inside it. */
  lemma DisjointInside(x: Block, outer: Block, inner: Block)
    requires outer.addr <= inner.addr && inner.End() <= outer.End()
    requires Disjoint(x, outer)
    ensures Disjoint(x, inner)
  {
  }

  lemma ApartSlice(xs: seq<Block>, ys: seq<Block>, lo: nat, hi: nat)
    requires Apart(xs, ys) && lo <= hi <= |ys|
    ensures Apart(xs, ys[lo..hi])
  {
    forall i, j | 0 <= i < |xs| && 0 <= j < hi - lo ensures Disjoint(xs[i], ys[lo..hi][j]) {
      assert ys[lo..hi][j] == ys[lo + j];
    }
  }

  lemma ApartSplice(xs: seq<Block>, pre: seq<Block>, mid: seq<Block>, post: seq<Block>)
    requires Apart(xs, pre) && Apart(xs, mid) && Apart(xs, post)
    ensures Apart(xs, pre + mid + post)
  {
    var r := pre + mid + post;
    forall i, j | 0 <= i < |xs| && 0 <= j < |r| ensures Disjoint(xs[i], r[j]) {
      if j < |pre| { assert r[j] == pre[j]; }
      else if j < |pre| + |mid| { assert r[j] == mid[j - |pre|]; }
      else { assert r[j] == post[j - |pre| - |mid|]; }
    }
  }

  /** The facts of `Tracks` about the live list survive dropping one entry. */
  lemma WithoutKeeps(live: seq<Block>, k: nat, peak: nat)
    requires k < |live| && GoodBlocks(live) && Pairwise(live) && WithinPeak(live, peak)
    ensures |Without(live, k)| == |live| - 1
    ensures forall x :: 0 <= x < |live| - 1 ==> Skip(x, k) < |live| && Skip(x, k) != k
    ensures forall x :: 0 <= x < |live| - 1 ==> Without(live, k)[x] == live[Skip(x, k)]
    ensures GoodBlocks(Without(live, k)) && Pairwise(Without(live, k)) && WithinPeak(Without(live, k), peak)
    ensures Total(live) == Total(Without(live, k)) + live[k].size
  {
    var w := Without(live, k);
    forall x | 0 <= x < |w| ensures w[x] == live[Skip(x, k)] {
    }
    forall x, y | 0 <= x < y < |w| ensures Disjoint(w[x], w[y]) {
      assert w[x] == live[Skip(x, k)] && w[y] == live[Skip(y, k)];
    }
    TotalSplit(live, k);
    TotalConcat(live[..k], live[k + 1..]);
  }

  // ---------------------------------------------------------------------------------------
  // The ordered map of free blocks stays ordered

  lemma PutAscending(free: seq<Block>, b: Block)
    requires KeysAscending(free)
    ensures KeysAscending(Put(free, b))
  {
    var p := LowerBound(free, b.addr);
    if !(p < |free| && free[p].addr == b.addr) {
      var r := free[..p] + [b] + free[p..];
      forall i, j | 0 <= i < j < |r| ensures r[i].addr < r[j].addr {
        if i < p {
          assert r[i] == free[i];
        } else if i == p {
          assert r[j] == free[j - 1];
          assert free[p].addr <= free[j - 1].addr by {
            if j - 1 > p { assert free[p].addr < free[j - 1].addr; }
          }
        } else {
          assert r[i] == free[i - 1];
        }
        if j < p { assert r[j] == free[j]; }
        else if j > p { assert r[j] == free[j - 1]; }
      }
    }
  }

  lemma EraseAscending(free: seq<Block>, i: nat)
    requires KeysAscending(free) && i < |free|
    ensures KeysAscending(EraseAt(free, i))
  {
    var r := EraseAt(free, i);
    forall x, y | 0 <= x < y < |r| ensures r[x].addr < r[y].addr {
      assert r[x] == free[Skip(x, i)] && r[y] == free[Skip(y, i)];
    }
  }

  lemma CarveAscending(free: seq<Block>, i: nat, n: nat)
    requires KeysAscending(free) && i < |free| && n <= free[i].size
    ensures KeysAscending(Carve(free, i, n))
  {
    EraseAscending(free, i);
    if free[i].size > n {
      PutAscending(EraseAt(free, i), Block(free[i].addr + n, free[i].size - n));
    }
  }

  lemma MergeAscending(s: seq<Block>, i: nat)
    requires KeysAscending(s) && i + 1 < |s|
    ensures |MergeAt(s, i)| == |s| - 1 && MergeAt(s, i)[i].addr == s[i].addr
    ensures KeysAscending(MergeAt(s, i))
  {
    var r := MergeAt(s, i);
    forall x, y | 0 <= x < y < |r| ensures r[x].addr < r[y].addr {
      var x' := if x <= i then x else x + 1;
      var y' := if y <= i then y else y + 1;
      assert r[x].addr == s[x'].addr && r[y].addr == s[y'].addr;
    }
  }

  lemma CoalesceAscending(free: seq<Block>, p: nat)
    requires KeysAscending(free) && p < |free|
    ensures KeysAscending(Coalesce(free, p))
  {
    var f := if p + 1 < |free| && free[p].End() == free[p + 1].addr then MergeAt(free, p) else free;
    if p + 1 < |free| && free[p].End() == free[p + 1].addr {
      MergeAscending(free, p);
    }
    assert KeysAscending(f) && p < |f|;
    if p > 0 && f[p - 1].End() == f[p].addr {
      MergeAscending(f, p - 1);
    }
  }

  lemma {:induction false} RetreatAscending(peak: nat, free: seq<Block>)
    requires KeysAscending(free)
    ensures KeysAscending(Retreat(peak, free).1)
    decreases |free|
  {
    if free != [] && free[|free| - 1].End() == peak {
      RetreatAscending(free[|free| - 1].addr, free[..|free| - 1]);
    }
  }

  /** Both steps keep the free list a well-formed ordered map, whatever the caller passes. */
  lemma StepsKeepAscending(a: Arena, size: nat, addr: nat)
    requires KeysAscending(a.free)
    ensures AllocStep(a, size).Some? ==> KeysAscending(AllocStep(a, size).value.0.free)
    ensures FreeStep(a, addr, size).Some? ==> KeysAscending(FreeStep(a, addr, size).value.free)
  {
    var n := AlignedSize(size);
    if AllocStep(a, size).Some? {
      match FirstFit(a.free, n)
      case Some(i) => CarveAscending(a.free, i, n);
      case None =>
    }
    if FreeStep(a, addr, size).Some? {
      if addr + n == a.peak {
        RetreatAscending(addr, a.free);
      } else {
        PutAscending(a.free, Block(addr, n));
        CoalesceAscending(Put(a.free, Block(addr, n)), LowerBound(a.free, addr));
        assert FreeStep(a, addr, size).value.free == Reinsert(a.free, Block(addr, n));
      }
    }
  }

  // ---------------------------------------------------------------------------------------
  // alloc keeps the invariant

  /** The free list after carving `n` bytes from the front of `free[i]`. */
  lemma CarveForm(free: seq<Block>, i: nat, n: nat)
    requires i < |free| && 0 < n <= free[i].size
    requires forall j :: 0 <= j < i ==> free[j].addr < free[i].addr
    requires i + 1 < |free| ==> free[i].End() <= free[i + 1].addr
    ensures free[i].size > n ==> Carve(free, i, n) == free[i := Block(free[i].addr + n, free[i].size - n)]
    ensures free[i].size == n ==> Carve(free, i, n) == EraseAt(free, i)
  {
    var b := free[i];
    if b.size > n {
      var rem := Block(b.addr + n, b.size - n);
      var rest := EraseAt(free, i);
      assert rest[..i] == free[..i];
      assert rest[i..] == free[i + 1..];
      forall j | 0 <= j < i ensures rest[j].addr < rem.addr {
        assert rest[j] == free[j];
      }
      if i < |rest| {
        assert rest[i] == free[i + 1];
      }
      LowerBoundAt(rest, rem.addr, i);
      assert Put(rest, rem) == rest[..i] + [rem] + rest[i..];
      assert free[i := rem] == free[..i] + [rem] + free[i + 1..];
    }
  }

  /** Shrinking one block of a separated list, keeping it inside its old range, keeps the list separated. */
  lemma ShrinkSeparated(free: seq<Block>, i: nat, m: Block)
    requires Separated(free) && GoodBlocks(free) && i < |free| && GoodBlock(m)
    requires free[i].addr <= m.addr && m.End() <= free[i].End()
    ensures Separated(free[i := m]) && GoodBlocks(free[i := m])
  {
    var r := free[i := m];
    forall x, y | 0 <= x < y < |r| ensures r[x].End() < r[y].addr {
      assert free[x].End() < free[y].addr;
    }
  }

  lemma TotalUpdate(s: seq<Block>, i: nat, m: Block)
    requires i < |s|
    ensures Total(s[i := m]) + s[i].size == Total(s) + m.size
  {
    TotalSplit(s, i);
    TotalSplit(s[i := m], i);
    assert s[i := m][..i] == s[..i] && s[i := m][i + 1..] == s[i + 1..];
  }

  /** Carving keeps the free list separated, aligned and below `peak`, and takes exactly `n` bytes from it. */
  lemma CarveKeepsShape(free: seq<Block>, i: nat, n: nat, peak: nat)
    requires Separated(free) && GoodBlocks(free) && i < |free| && 0 < n <= free[i].size && IsAligned(n)
    requires forall j :: 0 <= j < |free| ==> free[j].End() < peak
    ensures Separated(Carve(free, i, n)) && GoodBlocks(Carve(free, i, n))
    ensures forall j :: 0 <= j < |Carve(free, i, n)| ==> Carve(free, i, n)[j].End() < peak
    ensures Total(Carve(free, i, n)) + n == Total(free)
  {
    CarveForm(free, i, n);
    if free[i].size > n {
      ShrinkKeepsShape(free, i, n, peak);
    } else {
      EraseKeepsShape(free, i, peak);
    }
  }

  lemma ShrinkKeepsShape(free: seq<Block>, i: nat, n: nat, peak: nat)
    requires Separated(free) && GoodBlocks(free) && i < |free| && 0 < n < free[i].size && IsAligned(n)
    requires forall j :: 0 <= j < |free| ==> free[j].End() < peak
    ensures var r := free[i := Block(free[i].addr + n, free[i].size - n)];
      Separated(r) && GoodBlocks(r) && (forall j :: 0 <= j < |r| ==> r[j].End() < peak) && Total(r) + n == Total(free)
  {
    var b := free[i];
    assert GoodBlock(b);
    var rem := Block(b.addr + n, b.size - n);
    AlignedAdd(b.addr, n);
    AlignedSub(b.size, n);
    ShrinkSeparated(free, i, rem);
    TotalUpdate(free, i, rem);
  }

  lemma EraseKeepsShape(free: seq<Block>, i: nat, peak: nat)
    requires Separated(free) && GoodBlocks(free) && i < |free|
    requires forall j :: 0 <= j < |free| ==> free[j].End() < peak
    ensures var r := EraseAt(free, i);
      Separated(r) && GoodBlocks(r) && (forall j :: 0 <= j < |r| ==> r[j].End() < peak) && Total(r) + free[i].size == Total(free)
  {
    SeparatedErase(free, i);
    TotalSplit(free, i);
    TotalConcat(free[..i], free[i + 1..]);
    var r := EraseAt(free, i);
    forall j | 0 <= j < |r| ensures r[j].End() < peak {
      assert r[j] == free[Skip(j, i)];
    }
  }

  /** Carving keeps the free list apart from the live blocks, and the carved bytes apart from the rest. */
  lemma CarveApart(live: seq<Block>, free: seq<Block>, i: nat, n: nat)
    requires Separated(free) && i < |free| && 0 < n <= free[i].size && Apart(live, free)
    ensures Apart(live, Carve(free, i, n))
    ensures forall j :: 0 <= j < |Carve(free, i, n)| ==> Disjoint(Block(free[i].addr, n), Carve(free, i, n)[j])
  {
    CarveForm(free, i, n);
    var b := free[i];
    var r := Carve(free, i, n);
    forall j | 0 <= j < |r| ensures (forall x :: 0 <= x < |live| ==> Disjoint(live[x], r[j])) && Disjoint(Block(b.addr, n), r[j]) {
      if b.size > n && j == i {
        forall x | 0 <= x < |live| ensures Disjoint(live[x], r[j]) {
          DisjointInside(live[x], b, r[j]);
        }
      } else {
        var k := if b.size > n then j else Skip(j, i);
        assert r[j] == free[k];
        if k < i { assert free[k].End() < b.addr; }
        else { assert b.End() < free[k].addr; }
      }
    }
  }

  /** Adding a block disjoint from everything keeps the facts of `Tracks` about the live list. */
  lemma AppendLive(live: seq<Block>, nb: Block, peak: nat, free: seq<Block>)
    requires GoodBlocks(live) && WithinPeak(live, peak) && Pairwise(live) && Apart(live, free)
    requires GoodBlock(nb) && nb.End() <= peak
    requires forall x :: 0 <= x < |live| ==> Disjoint(live[x], nb)
    requires forall j :: 0 <= j < |free| ==> Disjoint(nb, free[j])
    ensures GoodBlocks(live + [nb]) && WithinPeak(live + [nb], peak) && Pairwise(live + [nb])
    ensures Apart(live + [nb], free)
    ensures Total(live + [nb]) == Total(live) + nb.size
  {
    var live' := live + [nb];
    forall x | 0 <= x < |live'| ensures GoodBlock(live'[x]) && live'[x].End() <= peak {
      if x < |live| { assert live'[x] == live[x]; }
    }
    forall x, y | 0 <= x < y < |live'| ensures Disjoint(live'[x], live'[y]) {
      assert live'[x] == live[x];
      if y < |live| { assert live'[y] == live[y]; }
    }
    forall x, j | 0 <= x < |live'| && 0 <= j < |free| ensures Disjoint(live'[x], free[j]) {
      if x < |live| { assert live'[x] == live[x]; }
    }
    TotalSplice(live, nb, []);
    assert live + [nb] + [] == live';
    assert Total([]) == 0;
  }

  /** alloc served by extending the arena. */
  lemma AllocExtendTracks(a: Arena, live: seq<Block>, size: nat)
    requires Tracks(a, live) && size > 0 && FirstFit(a.free, AlignedSize(size)).None?
    ensures AllocStep(a, size) == Some((a.(used := a.used + AlignedSize(size), peak := a.peak + AlignedSize(size)), a.peak))
    ensures Tracks(a.(used := a.used + AlignedSize(size), peak := a.peak + AlignedSize(size)),
                   live + [Block(a.peak, AlignedSize(size))])
  {
    var n := AlignedSize(size);
    var nb := Block(a.peak, n);
    var a' := a.(used := a.used + n, peak := a.peak + n);
    ExtendApart(a, live, n);
    AlignedAdd(a.peak, n);
    assert WithinPeak(live, a'.peak);
    AppendLive(live, nb, a'.peak, a.free);
    assert Inv(a');
  }

  /** A block placed at the peak is apart from every free block and every handed-out block. */
  lemma ExtendApart(a: Arena, live: seq<Block>, n: nat)
    requires Tracks(a, live) && n > 0 && IsAligned(n)
    ensures GoodBlock(Block(a.peak, n)) && IsAligned(a.peak)
    ensures forall x :: 0 <= x < |live| ==> Disjoint(live[x], Block(a.peak, n))
    ensures forall j :: 0 <= j < |a.free| ==> Disjoint(Block(a.peak, n), a.free[j]) && a.free[j].End() < a.peak
  {
    FreeBelowPeak(a);
    forall x | 0 <= x < |live| ensures Disjoint(live[x], Block(a.peak, n)) {
      assert live[x].End() <= a.peak;
    }
  }

  /** alloc served by the first free block that fits. */
  lemma AllocFitTracks(a: Arena, live: seq<Block>, n: nat, i: nat)
    requires Tracks(a, live) && 0 < n && IsAligned(n) && i < |a.free| && n <= a.free[i].size
    ensures Tracks(a.(used := a.used + n, free := Carve(a.free, i, n)), live + [Block(a.free[i].addr, n)])
  {
    var b := a.free[i];
    var nb := Block(b.addr, n);
    var free' := Carve(a.free, i, n);
    var a' := a.(used := a.used + n, free := free');
    assert GoodBlock(b);
    FreeBelowPeak(a);
    CarveKeepsShape(a.free, i, n, a.peak);
    assert Inv(a');
    CarveApart(live, a.free, i, n);
    forall x | 0 <= x < |live| ensures Disjoint(live[x], nb) {
      DisjointInside(live[x], b, nb);
    }
    AppendLive(live, nb, a.peak, free');
  }

  /**
   * alloc under correct use: any non-zero request succeeds with an aligned offset, and the new
   * block joins the live allocations with the invariant kept.
   */
  lemma AllocKeepsTracks(a: Arena, live: seq<Block>, size: nat)
    requires Tracks(a, live) && size > 0
    ensures AllocStep(a, size).Some?
    ensures IsAligned(AllocStep(a, size).value.1)
    ensures Tracks(AllocStep(a, size).value.0, live + [Block(AllocStep(a, size).value.1, AlignedSize(size))])
  {
    match FirstFit(a.free, AlignedSize(size))
    case None => AllocExtendTracks(a, live, size);
    case Some(i) =>
      assert GoodBlock(a.free[i]);
      AllocFitTracks(a, live, AlignedSize(size), i);
  }

  // ---------------------------------------------------------------------------------------
  // free keeps the invariant

  lemma PutInsert(free: seq<Block>, b: Block)
    requires LowerBound(free, b.addr) < |free| ==> free[LowerBound(free, b.addr)].addr != b.addr
    ensures Put(free, b) == free[..LowerBound(free, b.addr)] + [b] + free[LowerBound(free, b.addr)..]
  {
  }

  /**
   * `m` is block `b`, inserted at index `p` of `free`, merged with the run `free[lo..hi]` of its
   * neighbours that touch it (at most one on each side).
   */
  ghost predicate IsRun(free: seq<Block>, b: Block, p: nat, lo: nat, hi: nat, m: Block) {
    && lo <= p <= hi <= |free| && lo + 1 >= p && hi <= p + 1
    && (lo < p <==> p > 0 && free[p - 1].End() == b.addr)
    && (hi > p <==> p < |free| && b.End() == free[p].addr)
    && m.addr == (if lo < p then free[p - 1].addr else b.addr)
    && m.size == (if lo < p then free[p - 1].size else 0) + b.size + (if hi > p then free[p].size else 0)
  }

  /** Coalescing a block inserted at `p` replaces the run of its touching neighbours by one block. */
  lemma CoalesceForm(free: seq<Block>, b: Block, p: nat) returns (lo: nat, hi: nat, m: Block)
    requires p <= |free|
    ensures IsRun(free, b, p, lo, hi, m)
    ensures Coalesce(free[..p] + [b] + free[p..], p) == free[..lo] + [m] + free[hi..]
  {
    var size;
    hi, size := MergeNextForm(free, b, p);
    lo, m := MergePrevForm(free, Block(b.addr, size), p, hi);
  }

  /** The first merge of `Coalesce`: the inserted block absorbs a following block it touches. */
  lemma MergeNextForm(free: seq<Block>, b: Block, p: nat) returns (hi: nat, size: nat)
    requires p <= |free|
    ensures p <= hi <= |free| && hi <= p + 1
    ensures hi > p <==> p < |free| && b.End() == free[p].addr
    ensures size == b.size + (if hi > p then free[p].size else 0)
    ensures var put := free[..p] + [b] + free[p..];
            (if p + 1 < |put| && put[p].End() == put[p + 1].addr then MergeAt(put, p) else put)
              == free[..p] + [Block(b.addr, size)] + free[hi..]
  {
    var put := free[..p] + [b] + free[p..];
    assert put[p] == b;
    if p + 1 < |put| { assert put[p + 1] == free[p]; }
    var next := p + 1 < |put| && put[p].End() == put[p + 1].addr;
    hi := if next then p + 1 else p;
    size := if next then b.size + free[p].size else b.size;
    if next {
      assert put[..p] == free[..p];
      assert put[p + 2..] == free[p + 1..];
    }
  }

  /** The second merge of `Coalesce`: a preceding block that touches the merged block absorbs it. */
  lemma MergePrevForm(free: seq<Block>, c: Block, p: nat, hi: nat) returns (lo: nat, m: Block)
    requires p <= hi <= |free|
    ensures lo <= p && lo + 1 >= p
    ensures lo < p <==> p > 0 && free[p - 1].End() == c.addr
    ensures m.addr == (if lo < p then free[p - 1].addr else c.addr)
    ensures m.size == (if lo < p then free[p - 1].size else 0) + c.size
    ensures var f := free[..p] + [c] + free[hi..];
            (if p > 0 && f[p - 1].End() == f[p].addr then MergeAt(f, p - 1) else f)
              == free[..lo] + [m] + free[hi..]
  {
    var f := free[..p] + [c] + free[hi..];
    assert f[p] == c;
    if p > 0 { assert f[p - 1] == free[p - 1]; }
    if p > 0 && f[p - 1].End() == f[p].addr {
      lo := p - 1;
      m := Block(free[p - 1].addr, free[p - 1].size + c.size);
      assert f[..p - 1] == free[..p - 1];
      assert f[p + 1..] == free[hi..];
    } else {
      lo := p;
      m := c;
    }
  }

  lemma RunSize(free: seq<Block>, b: Block, p: nat, lo: nat, hi: nat, m: Block)
    requires IsRun(free, b, p, lo, hi, m)
    ensures m.size == Total(free[lo..hi]) + b.size
  {
    if lo < p && hi > p {
      assert free[lo..hi] == [free[p - 1], free[p]];
      TotalSmall(free[p - 1], free[p]);
    } else if lo < p {
      assert free[lo..hi] == [free[p - 1]];
      TotalSmall(free[p - 1], b);
    } else if hi > p {
      assert free[lo..hi] == [free[p]];
      TotalSmall(free[p], b);
    } else {
      assert free[lo..hi] == [];
    }
  }

  /** The merged block is well formed and still separated from the blocks around the run. */
  lemma RunGood(free: seq<Block>, b: Block, p: nat, lo: nat, hi: nat, m: Block)
    requires IsRun(free, b, p, lo, hi, m) && Separated(free) && GoodBlocks(free) && GoodBlock(b)
    requires p > 0 ==> free[p - 1].End() <= b.addr
    requires p < |free| ==> b.End() <= free[p].addr
    ensures GoodBlock(m)
    ensures lo > 0 ==> free[lo - 1].End() < m.addr
    ensures hi < |free| ==> m.End() < free[hi].addr
    ensures m.End() == (if hi > p then free[p].End() else b.End())
  {
    if lo < p { assert GoodBlock(free[p - 1]); }
    if hi > p { assert GoodBlock(free[p]); }
    if lo > 0 && lo < p { assert free[lo - 1].End() < free[lo].addr; }
    if hi < |free| && hi > p { assert free[p].End() < free[hi].addr; }
    var s1 := if lo < p then free[p - 1].size else 0;
    var s2 := if hi > p then free[p].size else 0;
    AlignedAdd(s1, b.size);
    AlignedAdd(s1 + b.size, s2);
  }

  /** A non-empty block apart from `b` and from the run is apart from the merged block. */
  lemma RunDisjoint(free: seq<Block>, b: Block, p: nat, lo: nat, hi: nat, m: Block, x: Block)
    requires IsRun(free, b, p, lo, hi, m)
    requires x.size > 0 && Disjoint(x, b)
    requires forall j :: lo <= j < hi ==> Disjoint(x, free[j])
    ensures Disjoint(x, m)
  {
    if lo < p { assert Disjoint(x, free[p - 1]); }
    if hi > p { assert Disjoint(x, free[p]); }
  }

  /** The non-tail free of a block lying outside every free block, as a run replacement. */
  lemma ReinsertForm(free: seq<Block>, b: Block) returns (p: nat, lo: nat, hi: nat, m: Block)
    requires Separated(free) && GoodBlocks(free) && GoodBlock(b)
    requires forall j :: 0 <= j < |free| ==> Disjoint(b, free[j])
    ensures IsRun(free, b, p, lo, hi, m) && Reinsert(free, b) == free[..lo] + [m] + free[hi..]
    ensures GoodBlock(m)
    ensures lo > 0 ==> free[lo - 1].End() < m.addr
    ensures hi < |free| ==> m.End() < free[hi].addr
    ensures m.End() == (if hi > p then free[p].End() else b.End())
  {
    p := LowerBound(free, b.addr);
    if p > 0 { assert Disjoint(b, free[p - 1]); }
    if p < |free| { assert Disjoint(b, free[p]); }
    PutInsert(free, b);
    lo, hi, m := CoalesceForm(free, b, p);
    RunGood(free, b, p, lo, hi, m);
  }

  /** Reinserting keeps the free list separated, aligned and below `peak`, and adds exactly `b`'s bytes. */
  lemma ReinsertKeepsShape(free: seq<Block>, b: Block, peak: nat)
    requires Separated(free) && GoodBlocks(free) && GoodBlock(b) && b.End() < peak
    requires forall j :: 0 <= j < |free| ==> Disjoint(b, free[j]) && free[j].End() < peak
    ensures Separated(Reinsert(free, b)) && GoodBlocks(Reinsert(free, b))
    ensures Reinsert(free, b) != [] && Reinsert(free, b)[|Reinsert(free, b)| - 1].End() < peak
    ensures Total(Reinsert(free, b)) == Total(free) + b.size
  {
    var p, lo, hi, m := ReinsertForm(free, b);
    RunSize(free, b, p, lo, hi, m);
    RunSeparated(free, lo, hi, m);
    RunTotal(free, lo, hi, m);
    RunBelow(free, lo, hi, m, peak);
  }

  /** Blocks apart from the free list and from `b` stay apart from the free list after reinserting `b`. */
  lemma ReinsertApart(xs: seq<Block>, free: seq<Block>, b: Block)
    requires Separated(free) && GoodBlocks(free) && GoodBlock(b) && GoodBlocks(xs) && Apart(xs, free)
    requires forall j :: 0 <= j < |free| ==> Disjoint(b, free[j])
    requires forall x :: 0 <= x < |xs| ==> Disjoint(xs[x], b)
    ensures Apart(xs, Reinsert(free, b))
  {
    var p, lo, hi, m := ReinsertForm(free, b);
    forall x | 0 <= x < |xs| ensures Disjoint(xs[x], m) {
      assert GoodBlock(xs[x]);
      RunDisjoint(free, b, p, lo, hi, m, xs[x]);
    }
    RunApart(xs, free, lo, hi, m);
  }

  /** free of a live block that does not reach `peak`. */
  lemma FreeInsideTracks(a: Arena, live: seq<Block>, k: nat, size: nat)
    requires Tracks(a, live) && k < |live| && AlignedSize(size) == live[k].size && live[k].End() < a.peak
    ensures FreeStep(a, live[k].addr, size).Some?
    ensures FreeStep(a, live[k].addr, size).value.free == Reinsert(a.free, live[k])
    ensures Tracks(FreeStep(a, live[k].addr, size).value, Without(live, k))
  {
    var b := live[k];
    FreeInsideKeeps(a, live, k);
    assert GoodBlock(b);
    var a' := a.(used := a.used - b.size, free := Reinsert(a.free, b));
    assert FreeStep(a, b.addr, size) == Some(a');
  }

  /** The arena a free inside the span leaves keeps tracking the blocks still handed out. */
  lemma FreeInsideKeeps(a: Arena, live: seq<Block>, k: nat)
    requires Tracks(a, live) && k < |live| && live[k].End() < a.peak
    ensures live[k].size <= a.used
    ensures Tracks(a.(used := a.used - live[k].size, free := Reinsert(a.free, live[k])), Without(live, k))
  {
    var b := live[k];
    var w := Without(live, k);
    WithoutKeeps(live, k, a.peak);
    ApartWithout(live, k, a.free);
    FreedBlockApart(a, live, k);
    ReinsertKeepsShape(a.free, b, a.peak);
    ReinsertApart(w, a.free, b);
    var a' := a.(used := a.used - b.size, free := Reinsert(a.free, b));
    assert Inv(a');
  }

  /** A handed-out block lies apart from every free block and from every other handed-out block. */
  lemma FreedBlockApart(a: Arena, live: seq<Block>, k: nat)
    requires Tracks(a, live) && k < |live| && live[k].End() < a.peak
    ensures GoodBlock(live[k])
    ensures forall j :: 0 <= j < |a.free| ==> Disjoint(live[k], a.free[j]) && a.free[j].End() < a.peak
    ensures forall x :: 0 <= x < |Without(live, k)| ==> Disjoint(Without(live, k)[x], live[k])
  {
    var b := live[k];
    assert GoodBlock(b);
    WithoutKeeps(live, k, a.peak);
    var w := Without(live, k);
    FreeBelowPeak(a);
    forall j | 0 <= j < |a.free| ensures Disjoint(b, a.free[j]) { }
    forall x | 0 <= x < |w| ensures Disjoint(w[x], b) {
      assert w[x] == live[Skip(x, k)];
    }
  }

  lemma RunSeparated(free: seq<Block>, lo: nat, hi: nat, m: Block)
    requires Separated(free) && GoodBlocks(free) && lo <= hi <= |free| && GoodBlock(m)
    requires lo > 0 ==> free[lo - 1].End() < m.addr
    requires hi < |free| ==> m.End() < free[hi].addr
    ensures Separated(free[..lo] + [m] + free[hi..]) && GoodBlocks(free[..lo] + [m] + free[hi..])
  {
    SeparatedSlice(free, 0, lo);
    SeparatedSlice(free, hi, |free|);
    assert free[0..lo] == free[..lo] && free[hi..|free|] == free[hi..];
    SeparatedSplice(free[..lo], m, free[hi..]);
  }

  lemma RunTotal(free: seq<Block>, lo: nat, hi: nat, m: Block)
    requires lo <= hi <= |free|
    ensures Total(free[..lo] + [m] + free[hi..]) + Total(free[lo..hi]) == Total(free) + m.size
  {
    TotalRange(free, lo, hi);
    TotalSplice(free[..lo], m, free[hi..]);
  }

  lemma RunBelow(free: seq<Block>, lo: nat, hi: nat, m: Block, peak: nat)
    requires lo <= hi <= |free| && m.End() < peak
    requires forall j :: 0 <= j < |free| ==> free[j].End() < peak
    ensures var r := free[..lo] + [m] + free[hi..]; r[|r| - 1].End() < peak
  {
    var r := free[..lo] + [m] + free[hi..];
    if hi < |free| { assert r[|r| - 1] == free[|free| - 1]; }
  }

  lemma RunApart(xs: seq<Block>, free: seq<Block>, lo: nat, hi: nat, m: Block)
    requires Apart(xs, free) && lo <= hi <= |free|
    requires forall x :: 0 <= x < |xs| ==> Disjoint(xs[x], m)
    ensures Apart(xs, free[..lo] + [m] + free[hi..])
  {
    ApartSlice(xs, free, 0, lo);
    ApartSlice(xs, free, hi, |free|);
    assert free[0..lo] == free[..lo] && free[hi..|free|] == free[hi..];
    ApartSplice(xs, free[..lo], [m], free[hi..]);
  }

  lemma ApartWithout(live: seq<Block>, k: nat, free: seq<Block>)
    requires k < |live| && Apart(live, free)
    ensures Apart(Without(live, k), free)
  {
    var w := Without(live, k);
    forall x, j | 0 <= x < |w| && 0 <= j < |free| ensures Disjoint(w[x], free[j]) {
      assert w[x] == live[Skip(x, k)];
    }
  }

  /**
   * The tail cascade on a separated list lying below `addr`: the new peak is aligned, the list
   * shrinks to a prefix still ending below it, and the bytes given back are exactly the gap.
   */
  lemma RetreatShape(free: seq<Block>, addr: nat)
    requires Separated(free) && GoodBlocks(free) && IsAligned(addr)
    requires forall j :: 0 <= j < |free| ==> free[j].End() <= addr
    ensures var (peak', free') := Retreat(addr, free);
      && peak' <= addr && IsAligned(peak') && |free'| <= |free| && free' == free[..|free'|]
      && Separated(free') && GoodBlocks(free')
      && (free' != [] ==> free'[|free'| - 1].End() < peak')
      && Total(free') + addr == Total(free) + peak'
      && (forall x: Block :: x.End() <= addr && x.size > 0 && (free != [] ==> Disjoint(x, free[|free| - 1])) ==> x.End() <= peak')
  {
    RetreatOnce(addr, free);
    if free != [] && free[|free| - 1].End() == addr {
      var last := free[|free| - 1];
      var init := free[..|free| - 1];
      assert GoodBlock(last);
      SeparatedSlice(free, 0, |free| - 1);
      assert free[0..|free| - 1] == init;
      TotalSplit(free, |free| - 1);
      assert free[|free|..] == [];
      if init != [] { assert init[|init| - 1].End() < last.addr; }
    } else if free != [] {
      assert free[|free| - 1].End() < addr;
    }
  }

  /** free of the live block that ends at `peak`: the arena shrinks, by one more free block if it touches. */
  lemma FreeTailTracks(a: Arena, live: seq<Block>, k: nat, size: nat)
    requires Tracks(a, live) && k < |live| && AlignedSize(size) == live[k].size && live[k].End() == a.peak
    ensures FreeStep(a, live[k].addr, size).Some?
    ensures Tracks(FreeStep(a, live[k].addr, size).value, Without(live, k))
  {
    var b := live[k];
    FreeTailKeeps(a, live, k);
    assert GoodBlock(b);
    var (peak', free') := Retreat(b.addr, a.free);
    assert FreeStep(a, b.addr, size) == Some(Arena(a.used - b.size, peak', false, free'));
  }

  /** The arena a free at the end of the span leaves keeps tracking the blocks still handed out. */
  lemma FreeTailKeeps(a: Arena, live: seq<Block>, k: nat)
    requires Tracks(a, live) && k < |live| && live[k].End() == a.peak
    ensures live[k].size <= a.used
    ensures var (peak', free') := Retreat(live[k].addr, a.free);
            Tracks(Arena(a.used - live[k].size, peak', false, free'), Without(live, k))
  {
    var b := live[k];
    var free := a.free;
    WithoutKeeps(live, k, a.peak);
    var w := Without(live, k);
    TailBlockAbove(a, live, k);
    RetreatShape(free, b.addr);
    var (peak', free') := Retreat(b.addr, free);
    var a' := Arena(a.used - b.size, peak', false, free');
    assert Inv(a');
    forall x | 0 <= x < |w| ensures w[x].End() <= peak' {
      var y := Skip(x, k);
      assert w[x] == live[y] && GoodBlock(live[y]);
      assert Disjoint(live[y], b);
      if free != [] { assert Disjoint(live[y], free[|free| - 1]); }
    }
    ApartWithout(live, k, free);
    ApartSlice(w, free, 0, |free'|);
  }

  /** A handed-out block that ends at the peak lies above every free block. */
  lemma TailBlockAbove(a: Arena, live: seq<Block>, k: nat)
    requires Tracks(a, live) && k < |live| && live[k].End() == a.peak
    ensures GoodBlock(live[k]) && IsAligned(live[k].addr)
    ensures forall j :: 0 <= j < |a.free| ==> a.free[j].End() <= live[k].addr
  {
    assert GoodBlock(live[k]);
    FreeBelowPeak(a);
    forall j | 0 <= j < |a.free| ensures a.free[j].End() <= live[k].addr {
      assert Disjoint(live[k], a.free[j]);
      assert GoodBlock(a.free[j]);
    }
  }

  /** free under correct use: freeing a live block with its own size succeeds and keeps the invariant. */
  lemma FreeKeepsTracks(a: Arena, live: seq<Block>, k: nat, size: nat)
    requires Tracks(a, live) && k < |live| && AlignedSize(size) == live[k].size
    ensures FreeStep(a, live[k].addr, size).Some?
    ensures Tracks(FreeStep(a, live[k].addr, size).value, Without(live, k))
  {
    if live[k].End() == a.peak {
      FreeTailTracks(a, live, k, size);
    } else {
      FreeInsideTracks(a, live, k, size);
    }
  }

  // ---------------------------------------------------------------------------------------
  // Freeing everything empties the arena

  /** With nothing in use, the invariant leaves no room for free blocks: the arena is empty. */
  lemma NothingUsedMeansEmpty(a: Arena)
    requires Inv(a) && a.used == 0
    ensures a.peak == 0 && a.free == []
  {
    if a.free != [] {
      TotalWithinSpan(a.free);
      assert false;
    }
  }

  lemma MultisetWithout(s: seq<Block>, k: nat)
    requires k < |s|
    ensures multiset(Without(s, k)) == multiset(s) - multiset{s[k]}
  {
    assert s == s[..k] + [s[k]] + s[k + 1..];
  }

  /** Frees the given blocks one after the other, stopping at the first failure. */
  function FreeAll(a: Arena, frees: seq<Block>): Option<Arena>
    decreases |frees|
  {
    if frees == [] then Some(a)
    else match FreeStep(a, frees[0].addr, frees[0].size)
      case None => None
      case Some(a') => FreeAll(a', frees[1..])
  }

  /** Freeing every live allocation, in any order, returns the allocator to its initial state. */
  lemma {:induction false} FreeEverything(a: Arena, live: seq<Block>, frees: seq<Block>)
    requires Tracks(a, live) && multiset(frees) == multiset(live)
    ensures FreeAll(a, frees) == Some(Empty)
    decreases |frees|
  {
    if frees == [] {
      assert |live| == |multiset(live)| == 0;
      NothingUsedMeansEmpty(a);
    } else {
      var k := FreeFirstOf(a, live, frees);
      FreeEverything(FreeStep(a, frees[0].addr, frees[0].size).value, Without(live, k), frees[1..]);
    }
  }

  /** The first block of a list of frees covering the handed-out blocks is freed and leaves the rest. */
  lemma FreeFirstOf(a: Arena, live: seq<Block>, frees: seq<Block>) returns (k: nat)
    requires Tracks(a, live) && multiset(frees) == multiset(live) && frees != []
    ensures k < |live| && live[k] == frees[0]
    ensures FreeStep(a, frees[0].addr, frees[0].size).Some?
    ensures Tracks(FreeStep(a, frees[0].addr, frees[0].size).value, Without(live, k))
    ensures multiset(frees[1..]) == multiset(Without(live, k))
  {
    var b := frees[0];
    assert b in multiset(live);
    k :| 0 <= k < |live| && live[k] == b;
    assert GoodBlock(live[k]);
    FreeKeepsTracks(a, live, k, b.size);
    MultisetWithout(live, k);
    MultisetWithout(frees, 0);
    assert Without(frees, 0) == frees[1..];
  }

  // ---------------------------------------------------------------------------------------
  // Worked scenarios

  /**
   * Three 16-byte allocations, then freeing the second (recorded as a free block) and the third
   * (a tail free that also retreats past the second): the arena shrinks to the first block.
   */
  lemma TailFreeRetreatsPastFreeBlocks()
    ensures var (s1, x) := AllocStep(Empty, 16).value;
            var (s2, y) := AllocStep(s1, 16).value;
            var (s3, z) := AllocStep(s2, 16).value;
            var s4 := FreeStep(s3, y, 16).value;
            && x == 0 && y == 16 && z == 32 && s3.peak == 48
            && s4.free == [Block(16, 16)] && s4.peak == 48
            && FreeStep(s4, z, 16) == Some(Arena(16, 16, false, []))
  {
    assert AlignedSize(16) == 16 && FirstFit([], 16) == None;
    var s1 := Arena(16, 16, false, []);
    var s2 := Arena(32, 32, false, []);
    var s3 := Arena(48, 48, false, []);
    assert AllocStep(Empty, 16) == Some((s1, 0));
    assert AllocStep(s1, 16) == Some((s2, 16));
    assert AllocStep(s2, 16) == Some((s3, 32));
    assert Reinsert([], Block(16, 16)) == [Block(16, 16)];
    var s4 := Arena(32, 48, false, [Block(16, 16)]);
    assert FreeStep(s3, 16, 16) == Some(s4);
    assert Retreat(32, s4.free) == Retreat(16, []);
  }

  /**
   * Allocate 32 bytes, free them, allocate 16: the free was a tail free, so the arena is empty
   * again and the new block is placed at offset 0 by extending the peak.
   */
  lemma TailFreeThenAllocStartsOver()
    ensures var (s1, x) := AllocStep(Empty, 32).value;
            var s2 := FreeStep(s1, x, 32).value;
            && s2 == Empty
            && AllocStep(s2, 16) == Some((Arena(16, 16, false, []), 0))
  {
    assert AlignedSize(32) == 32 && AlignedSize(16) == 16;
    assert FirstFit([], 32) == None && FirstFit([], 16) == None;
    var s1 := Arena(32, 32, false, []);
    assert AllocStep(Empty, 32) == Some((s1, 0));
    assert Retreat(0, []) == (0, []);
    assert FreeStep(s1, 0, 32) == Some(Empty);
  }

  /**
   * A freed block below a live one is reused first-fit: after 32 and 8 bytes are allocated and
   * the first block freed, a 16-byte request lands at offset 0 and leaves 16 bytes free at 16.
   */
  lemma FreedBlockIsReused()
    ensures var (s1, x) := AllocStep(Empty, 32).value;
            var (s2, y) := AllocStep(s1, 8).value;
            var s3 := FreeStep(s2, x, 32).value;
            && x == 0 && y == 32 && s3 == Arena(8, 40, false, [Block(0, 32)])
            && AllocStep(s3, 16) == Some((Arena(24, 40, false, [Block(16, 16)]), 0))
  {
    assert AlignedSize(32) == 32 && AlignedSize(16) == 16 && AlignedSize(8) == 8;
    assert Reinsert([], Block(0, 32)) == [Block(0, 32)];
    assert FirstFit([Block(0, 32)], 16) == Some(0);
    assert Carve([Block(0, 32)], 0, 16) == [Block(16, 16)];
  }
}
