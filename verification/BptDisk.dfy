/** The tree object: disk image, five node buffers, free list; and the primitives that touch them. */
module BptDisk {
  import opened BptLevels
  import opened BptBlock

  const MIN_CACHE_NUM := 5

  function Bit(b: bool): int { if b then 1 else 0 }

  // How many buffers are in use.
  function Count(used: seq<bool>): int
    requires |used| == MIN_CACHE_NUM
  {
    Bit(used[0]) + Bit(used[1]) + Bit(used[2]) + Bit(used[3]) + Bit(used[4])
  }

  // The offsets of the first n blocks of a file.
  ghost function Slots(n: int, bs: int): set<int> {
    set k | 0 <= k < n :: k * bs
  }

  ghost predicate Distinct(s: seq<int>) {
    forall i, j :: 0 <= i < j < |s| ==> s[i] != s[j]
  }

  lemma SlotValid(n: int, bs: int, a: int)
    requires bs > 0 && bs % 2 == 0 && a in Slots(n, bs)
    ensures a != INVALID
  {
    var k :| 0 <= k < n && a == k * bs;
    var h := bs / 2;
    assert a == 2 * (k * h);
  }

  lemma NextSlot(n: int, bs: int)
    requires bs > 0 && n >= 0
    ensures n * bs !in Slots(n, bs)
    ensures Slots(n + 1, bs) == Slots(n, bs) + {n * bs}
  {
    if n * bs in Slots(n, bs) {
      var k :| 0 <= k < n && n * bs == k * bs;
      MulLess(k, n, bs);
    }
  }

  lemma MulLess(k: int, n: int, bs: int)
    requires k < n && bs > 0
    ensures k * bs < n * bs
  {
  }

  class Tree {
    const c: Cfg
    var disk: map<int, Block>
    var fileSize: int
    var free: seq<int>
    var root: int
    var level: int
    var cache: seq<Block>
    var used: seq<bool>

    // The nodes on disk; a block in a buffer may be newer, or not yet there.
    ghost var D: Image
    // The blocks in buffers.
    ghost var held: set<int>
    // The levels of the tree, leaves first.
    ghost var lv: seq<seq<Entry>>
    // The length of the file, in blocks.
    ghost var blocks: int

    // A new index file: nothing allocated, all buffers free, their contents left as malloc gave them.
    constructor (c: Cfg, junk: Block)
      requires CfgOK(c)
      ensures this.c == c && Inv() && Count(used) == 0 && held == {} && D == map[] && lv == []
      ensures root == INVALID && level == 0 && free == [] && fileSize == 0
    {
      this.c := c;
      disk, fileSize, free, root, level := map[], 0, [], INVALID, 0;
      cache, used := [junk, junk, junk, junk, junk], [false, false, false, false, false];
      D, held, lv, blocks := map[], {}, [], 0;
    }

    ghost predicate Buffers()
      reads `cache, `used, `held
    {
      && |cache| == |used|
      && (forall i :: 0 <= i < |used| && used[i] ==>
            Fits(c, cache[i]) && (cache[i].self == INVALID || cache[i].self in held))
      && (forall i, j :: 0 <= i < j < |used| && used[i] && used[j] ==>
            cache[i].self == INVALID || cache[i].self != cache[j].self)
    }

    ghost predicate OnDisk()
      reads `D, `disk
    {
      forall a :: a in D ==> a in disk && Fits(c, disk[a]) && View(c, disk[a]) == D[a]
    }

    // Nodes and free blocks share out the file.
    ghost predicate Allocation()
      reads `D, `held, `free, `fileSize, `blocks
    {
      && blocks >= 0 && fileSize == blocks * c.bs && Distinct(free)
      && (forall a :: a in free ==> a !in D && a !in held)
      && D.Keys + held + (set a | a in free) == Slots(blocks, c.bs)
    }

    ghost predicate Inv()
      reads `cache, `used, `held, `D, `disk, `free, `fileSize, `blocks
    {
      && CfgOK(c) && |cache| == MIN_CACHE_NUM && |used| == MIN_CACHE_NUM && INVALID !in D && INVALID !in held
      && Buffers() && OnDisk() && Allocation()
    }

    // ---------------------------------------------------------------- buffers

    method CacheRefer() returns (i: int)
      requires |used| == MIN_CACHE_NUM && Count(used) < MIN_CACHE_NUM
      modifies `used
      ensures 0 <= i < MIN_CACHE_NUM && !old(used)[i] && used == old(used)[i := true]
      ensures Count(used) == Count(old(used)) + 1
    {
      i := 0;
      while i < MIN_CACHE_NUM && used[i]
        invariant 0 <= i <= MIN_CACHE_NUM
        invariant forall j :: 0 <= j < i ==> used[j]
      {
        i := i + 1;
      }
      assert i < MIN_CACHE_NUM;
      used := used[i := true];
    }

    // A fresh buffer; what its arrays held before is of no account.
    method NodeNew(leaf: bool) returns (i: int)
      requires Inv() && Count(used) < MIN_CACHE_NUM
      modifies `cache, `used
      ensures Inv()
      ensures 0 <= i < MIN_CACHE_NUM && !old(used)[i] && used == old(used)[i := true]
      ensures Count(used) == Count(old(used)) + 1
      ensures cache == old(cache)[i := cache[i]]
      ensures cache[i].self == INVALID && cache[i].parent == INVALID && cache[i].leaf == leaf
      ensures cache[i].prev == INVALID && cache[i].next == INVALID && cache[i].children == 0 && Fits(c, cache[i])
    {
      i := CacheRefer();
      var n, m := if leaf then c.entries else c.order - 1, if leaf then 0 else c.order;
      cache := cache[i := Block(INVALID, INVALID, INVALID, INVALID, leaf, 0,
                                seq(n, _ => 0), seq(m, _ => 0), seq(if leaf then n else 0, _ => 0))];
    }

    method NodeFetch(a: int) returns (i: int)
      requires Inv() && Count(used) < MIN_CACHE_NUM
      requires a != INVALID ==> a in D && D[a].self == a && a !in held
      modifies `cache, `used, `held
      ensures Inv()
      ensures a == INVALID ==> i == -1 && used == old(used) && cache == old(cache) && held == old(held)
      ensures a != INVALID ==>
        && 0 <= i < MIN_CACHE_NUM && !old(used)[i] && used == old(used)[i := true]
        && Count(used) == Count(old(used)) + 1
        && cache == old(cache)[i := cache[i]] && cache[i].self == a
        && Fits(c, cache[i]) && View(c, cache[i]) == D[a]
        && held == old(held) + {a}
    {
      hide Slots;
      if a == INVALID {
        return -1;
      }
      i := CacheRefer();
      cache := cache[i := disk[a]];
      held := held + {a};
    }

    // Reading into a buffer without claiming it.
    method NodeSeek(a: int) returns (i: int)
      requires Inv() && Count(used) < MIN_CACHE_NUM
      requires a != INVALID ==> a in D
      modifies `cache
      ensures Inv()
      ensures a == INVALID ==> i == -1 && cache == old(cache)
      ensures a != INVALID ==>
        && 0 <= i < MIN_CACHE_NUM && !used[i]
        && cache == old(cache)[i := cache[i]]
        && Fits(c, cache[i]) && View(c, cache[i]) == D[a] && a in disk && cache[i] == disk[a]
    {
      hide Slots, View;
      if a == INVALID {
        return -1;
      }
      i := 0;
      while i < MIN_CACHE_NUM && used[i]
        invariant 0 <= i <= MIN_CACHE_NUM
        invariant forall j :: 0 <= j < i ==> used[j]
      {
        i := i + 1;
      }
      assert i < MIN_CACHE_NUM;
      cache := cache[i := disk[a]];
    }

    method NodeFlush(i: int)
      requires Inv()
      requires i != -1 ==> 0 <= i < MIN_CACHE_NUM && used[i] && cache[i].self != INVALID
      modifies `disk, `used, `held, `D
      ensures Inv()
      ensures i == -1 ==> used == old(used) && D == old(D) && held == old(held) && disk == old(disk)
      ensures i != -1 ==>
        && used == old(used)[i := false] && Count(used) == Count(old(used)) - 1
        && Fits(c, cache[i]) && D == old(D)[cache[i].self := View(c, cache[i])]
        && held == old(held) - {cache[i].self}
    {
      hide Slots;
      if i != -1 {
        disk := disk[cache[i].self := cache[i]];
        D := D[cache[i].self := View(c, cache[i])];
        used := used[i := false];
        held := held - {cache[i].self};
        assert D.Keys + held == old(D.Keys + held);
      }
    }

    // Stores in a buffer; the block keeps its address.
    method Write(i: int, b: Block)
      requires Inv() && 0 <= i < MIN_CACHE_NUM && used[i] && Fits(c, b) && b.self == cache[i].self
      modifies `cache
      ensures Inv() && cache == old(cache)[i := b]
    {
      cache := cache[i := b];
    }

    method SetPrev(i: int, a: int)
      requires Inv() && 0 <= i < MIN_CACHE_NUM && used[i]
      modifies `cache
      ensures Inv() && cache == old(cache)[i := old(cache)[i].(prev := a)]
      ensures Fits(c, old(cache)[i]) && Fits(c, cache[i]) && View(c, cache[i]) == View(c, old(cache)[i]).(prev := a)
    {
      cache := cache[i := cache[i].(prev := a)];
    }

    method SetNext(i: int, a: int)
      requires Inv() && 0 <= i < MIN_CACHE_NUM && used[i]
      modifies `cache
      ensures Inv() && cache == old(cache)[i := old(cache)[i].(next := a)]
      ensures Fits(c, old(cache)[i]) && Fits(c, cache[i]) && View(c, cache[i]) == View(c, old(cache)[i]).(next := a)
    {
      cache := cache[i := cache[i].(next := a)];
    }

    method SetParent(i: int, a: int)
      requires Inv() && 0 <= i < MIN_CACHE_NUM && used[i]
      modifies `cache
      ensures Inv() && cache == old(cache)[i := old(cache)[i].(parent := a)]
      ensures Fits(c, old(cache)[i]) && Fits(c, cache[i]) && View(c, cache[i]) == View(c, old(cache)[i]).(parent := a)
    {
      cache := cache[i := cache[i].(parent := a)];
    }

    // Claiming the buffer a search ended in.
    method Claim(i: int)
      requires Inv() && 0 <= i < MIN_CACHE_NUM && !used[i]
      requires Fits(c, cache[i]) && cache[i].self in D && cache[i].self !in held
      modifies `used, `held
      ensures Inv() && used == old(used)[i := true] && held == old(held) + {cache[i].self}
      ensures Count(used) == Count(old(used)) + 1
    {
      hide Slots, View, Fits;
      used := used[i := true];
      held := held + {cache[i].self};
    }

    // ---------------------------------------------------------------- blocks of the file

    method NewNodeAppend(i: int) returns (a: int)
      requires Inv() && 0 <= i < MIN_CACHE_NUM && used[i] && cache[i].self == INVALID
      modifies `cache, `fileSize, `free, `held, `blocks
      ensures Inv()
      ensures a !in D && a !in old(held) && a != INVALID && held == old(held) + {a}
      ensures cache == old(cache)[i := old(cache)[i].(self := a)]
    {
      a := Allocate();
      cache := cache[i := cache[i].(self := a)];
    }

    method Allocate() returns (a: int)
      requires Inv()
      modifies `fileSize, `free, `held, `blocks
      ensures Inv()
      ensures a !in D && a !in old(held) && a != INVALID && held == old(held) + {a}
    {
      if free == [] {
        a := fileSize;
        NextSlot(blocks, c.bs);
        fileSize := fileSize + c.bs;
        blocks := blocks + 1;
        assert a in Slots(blocks, c.bs);
      } else {
        a := free[0];
        assert a in D.Keys + held + (set f | f in free);
        assert free == [a] + free[1..];
        free := free[1..];
      }
      SlotValid(blocks, c.bs, a);
      held := held + {a};
    }

    // The end of node_delete: the block joins the free list, its buffer is given back.
    method Discard(i: int)
      requires Inv() && 0 <= i < MIN_CACHE_NUM && used[i] && cache[i].self != INVALID
      modifies `free, `used, `held, `D
      ensures Inv()
      ensures used == old(used)[i := false] && Count(used) == Count(old(used)) - 1
      ensures D == old(D) - {cache[i].self} && held == old(held) - {cache[i].self}
    {
      hide Slots, View, Fits;
      var a := cache[i].self;
      free := free + [a];
      used := used[i := false];
      D := D - {a};
      held := held - {a};
    }
  }
}
