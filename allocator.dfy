/**
 * The allocator object of src/core/allocator.cc: its fields are updated in place by `Alloc`,
 * `Free` and `GetPtr`, and each method is proved to perform exactly the step of the value model
 * in arena.dfy, so every invariant proved there holds of the object.
 */
module Allocation {
  import opened Common
  import opened Arena

  class Allocator {
    var used: nat
    var peak: nat
    /** `ptr != nullptr`: the arena has been obtained from the runtime. */
    var realised: bool
    /** `ptr` once realised: the base address the runtime returned. */
    var base: int
    /** The `std::map<size_t, size_t>` of free blocks, as entries in key order. */
    var freeBlocks: seq<Block>
    /** Sizes requested from the runtime so far. */
    ghost var requests: seq<nat>

    ghost predicate Valid()
      reads this
    {
      && KeysAscending(freeBlocks)
      && (realised <==> |requests| == 1)
      && (!realised ==> requests == [])
    }

    function State(): Arena
      reads this
    {
      Arena(used, peak, realised, freeBlocks)
    }

    constructor ()
      ensures Valid() && State() == Empty && requests == []
    {
      used := 0;
      peak := 0;
      realised := false;
      base := 0;
      freeBlocks := [];
      requests := [];
    }

    /** `alloc(size)`: `ok` is false where the source's assertion fails, and nothing changes then. */
    method Alloc(size: nat) returns (ok: bool, addr: nat)
      requires Valid()
      modifies this
      ensures Valid()
      ensures AllocStep(old(State()), size) == if ok then Some((State(), addr)) else None
      ensures !ok ==> State() == old(State())
      ensures base == old(base) && requests == old(requests)
    {
      if realised {
        return false, 0;
      }
      var n := AlignedSize(size);
      if n == 0 {
        return false, 0;
      }
      var fb := freeBlocks;
      var i := 0;
      while i < |fb|
        invariant i <= |fb| && fb == freeBlocks
        invariant FirstFit(fb, n) == FirstFitFrom(fb, i, n)
      {
        if fb[i].size >= n {
          addr := TakeBlock(size, i);
          return true, addr;
        }
        i := i + 1;
      }
      addr := peak;
      peak, used := peak + n, used + n;
      ok := true;
    }

    /** The branch of `alloc` that finds the free block `i` large enough: it is carved from the front. */
    method TakeBlock(size: nat, i: nat) returns (addr: nat)
      requires Valid() && !realised && AlignedSize(size) > 0
      requires FirstFit(freeBlocks, AlignedSize(size)) == Some(i)
      modifies this
      ensures Valid()
      ensures AllocStep(old(State()), size) == Some((State(), addr))
      ensures base == old(base) && requests == old(requests)
    {
      var n := AlignedSize(size);
      ghost var a := State();
      var fb := freeBlocks;
      var blockAddr, blockSize := fb[i].addr, fb[i].size;
      var carved := EraseAt(fb, i);
      if blockSize > n {
        carved := Put(carved, Block(blockAddr + n, blockSize - n));
      }
      assert carved == Carve(fb, i, n);
      CarveAscending(fb, i, n);
      AllocFitStep(a, size, i);
      used, freeBlocks := used + n, carved;
      addr := blockAddr;
    }

    /** `free(addr, size)`: `ok` is false where the source's assertion fails, and nothing changes then. */
    method Free(addr: nat, size: nat) returns (ok: bool)
      requires Valid()
      modifies this
      ensures Valid()
      ensures FreeStep(old(State()), addr, size) == if ok then Some(State()) else None
      ensures !ok ==> State() == old(State())
      ensures base == old(base) && requests == old(requests)
    {
      if realised {
        return false;
      }
      var n := AlignedSize(size);
      if n == 0 || addr + n > peak || used < n {
        return false;
      }
      ghost var a := State();
      var free0 := freeBlocks;
      var top, fb;
      if addr + n == peak {
        // Tail: retreat past every free block that ends at the new peak.
        top, fb := addr, free0;
        while fb != []
          invariant Retreat(addr, free0) == Retreat(top, fb)
          decreases |fb|
        {
          var last := fb[|fb| - 1];
          if last.End() == top {
            top := last.addr;
            fb := fb[..|fb| - 1];
          } else {
            break;
          }
        }
        assert FreeStep(a, addr, size) == Some(Arena(a.used - n, top, false, fb)) && KeysAscending(fb) by {
          assert Retreat(top, fb) == (top, fb);
          RetreatAscending(addr, free0);
          FreeTailStep(a, addr, size);
        }
      } else {
        top := peak;
        fb := InsertFree(free0, Block(addr, n));
        FreeInsideStep(a, addr, size);
        assert FreeStep(a, addr, size) == Some(Arena(a.used - n, top, false, fb));
      }
      used, peak, freeBlocks := used - n, top, fb;
      ok := true;
    }

    /**
     * `getPtr`: the first call requests `peak` bytes from the runtime, whose answer is
     * `runtimeBase`; later calls return the same base and request nothing.
     */
    method GetPtr(runtimeBase: int) returns (ptr: int)
      requires Valid()
      modifies this
      ensures Valid() && realised
      ensures used == old(used) && peak == old(peak) && freeBlocks == old(freeBlocks)
      ensures old(realised) ==> ptr == old(base) && base == old(base) && requests == old(requests)
      ensures !old(realised) ==> ptr == runtimeBase && base == runtimeBase && requests == [peak]
      ensures State() == Realise(old(State()))
    {
      if !realised {
        base := runtimeBase;
        realised := true;
        requests := requests + [peak];
      }
      ptr := base;
    }
  }

  /**
   * The non-tail half of `free`: write the block into the ordered map, then merge it with the
   * block that follows and with the block that precedes it when they touch.
   */
  method InsertFree(free: seq<Block>, b: Block) returns (fb: seq<Block>)
    requires KeysAscending(free)
    ensures fb == Reinsert(free, b) && KeysAscending(fb)
  {
    var p := LowerBound(free, b.addr);
    var put := Put(free, b);
    PutAscending(free, b);
    var f := MergeWithNext(put, p);
    CoalesceUnfold(put, p, f);
    fb := MergeWithPrev(f, p);
    CoalesceAscending(put, p);
  }

  /** The entry at `p` absorbs its successor when the two touch: erase, then overwrite. */
  method MergeWithNext(put: seq<Block>, p: nat) returns (f: seq<Block>)
    requires KeysAscending(put) && p < |put|
    ensures f == if p + 1 < |put| && put[p].End() == put[p + 1].addr then MergeAt(put, p) else put
  {
    f := put;
    if p + 1 < |f| && f[p].End() == f[p + 1].addr {
      var addr, size := f[p].addr, f[p].size + f[p + 1].size;
      f := EraseAt(f, p + 1);
      f := Put(f, Block(addr, size));
      MergeNextPut(put, p);
    }
  }

  /** The predecessor absorbs the entry at `p` when the two touch: erase both, then insert. */
  method MergeWithPrev(f: seq<Block>, p: nat) returns (fb: seq<Block>)
    requires KeysAscending(f) && p < |f|
    ensures fb == if p > 0 && f[p - 1].End() == f[p].addr then MergeAt(f, p - 1) else f
  {
    fb := f;
    if p > 0 && fb[p - 1].End() == fb[p].addr {
      var prevAddr, size := fb[p - 1].addr, fb[p - 1].size + fb[p].size;
      fb := EraseAt(fb, p - 1);
      fb := EraseAt(fb, p - 1);
      fb := Put(fb, Block(prevAddr, size));
      MergePrevPut(f, p);
    }
  }

  lemma AllocFitStep(a: Arena, size: nat, i: nat)
    requires !a.realised && AlignedSize(size) > 0 && FirstFit(a.free, AlignedSize(size)) == Some(i)
    ensures AllocStep(a, size) == Some((a.(used := a.used + AlignedSize(size), free := Carve(a.free, i, AlignedSize(size))), a.free[i].addr))
  {
  }

  lemma FreeTailStep(a: Arena, addr: nat, size: nat)
    requires !a.realised && AlignedSize(size) > 0 && addr + AlignedSize(size) == a.peak && a.used >= AlignedSize(size)
    ensures FreeStep(a, addr, size) ==
              Some(Arena(a.used - AlignedSize(size), Retreat(addr, a.free).0, false, Retreat(addr, a.free).1))
  {
  }

  lemma FreeInsideStep(a: Arena, addr: nat, size: nat)
    requires !a.realised && AlignedSize(size) > 0 && addr + AlignedSize(size) < a.peak && a.used >= AlignedSize(size)
    ensures FreeStep(a, addr, size) ==
              Some(a.(used := a.used - AlignedSize(size), free := Reinsert(a.free, Block(addr, AlignedSize(size)))))
  {
  }

  /** Writing to an existing key of an ordered map overwrites that entry in place. */
  lemma PutOverwrite(s: seq<Block>, p: nat, b: Block)
    requires KeysAscending(s) && p < |s| && s[p].addr == b.addr
    ensures Put(s, b) == s[p := b]
  {
    LowerBoundAt(s, b.addr, p);
  }

  /**
   * Merging with the successor as the source does it: erase the successor, then write the grown
   * block under its own key, which overwrites it in place.
   */
  lemma MergeNextPut(put: seq<Block>, p: nat)
    requires KeysAscending(put) && p + 1 < |put|
    ensures KeysAscending(EraseAt(put, p + 1))
    ensures Put(EraseAt(put, p + 1), Block(put[p].addr, put[p].size + put[p + 1].size)) == MergeAt(put, p)
  {
    var e := EraseAt(put, p + 1);
    EraseAscending(put, p + 1);
    assert e[p] == put[p];
    PutOverwrite(e, p, Block(put[p].addr, put[p].size + put[p + 1].size));
  }

  /** The two halves of `Coalesce`: `f` is the list after the merge with the successor, if any. */
  lemma CoalesceUnfold(put: seq<Block>, p: nat, f: seq<Block>)
    requires KeysAscending(put) && p < |put|
    requires f == if p + 1 < |put| && put[p].End() == put[p + 1].addr then MergeAt(put, p) else put
    ensures KeysAscending(f) && p < |f| && f[p].addr == put[p].addr
    ensures Coalesce(put, p) == if p > 0 && f[p - 1].End() == f[p].addr then MergeAt(f, p - 1) else f
  {
    if p + 1 < |put| && put[p].End() == put[p + 1].addr {
      MergeAscending(put, p);
    }
  }

  /**
   * Merging with the predecessor as the source does it: erase the predecessor and the block, then
   * write the merged block under the predecessor's key, which lands it where the predecessor was.
   */
  lemma MergePrevPut(f: seq<Block>, p: nat)
    requires KeysAscending(f) && 0 < p < |f|
    ensures Put(EraseAt(EraseAt(f, p - 1), p - 1), Block(f[p - 1].addr, f[p - 1].size + f[p].size)) == MergeAt(f, p - 1)
  {
    var e := EraseAt(EraseAt(f, p - 1), p - 1);
    var b := Block(f[p - 1].addr, f[p - 1].size + f[p].size);
    assert e == f[..p - 1] + f[p + 1..];
    forall i | 0 <= i < p - 1 ensures e[i].addr < b.addr {
      assert e[i] == f[i];
    }
    if p - 1 < |e| {
      assert e[p - 1] == f[p + 1];
    }
    LowerBoundAt(e, b.addr, p - 1);
    assert e[..p - 1] == f[..p - 1] && e[p - 1..] == f[p + 1..];
  }
}
