/** Node buffers: fixed-capacity arrays moved about with memmove. */
module BptBlock {
  import opened BptLevels
  import opened BptTree

  // One block, as it lies in a buffer or on disk.  A leaf uses key and data, an inner node key and sub;
  // entries beyond the children count are leftovers.
  datatype Block = Block(self: int, parent: int, prev: int, next: int, leaf: bool, children: int,
                         key: seq<int>, sub: seq<int>, data: seq<int>)

  predicate Fits(c: Cfg, b: Block) {
    if b.leaf then
      |b.key| == c.entries && |b.data| == c.entries && |b.sub| == 0 && 0 <= b.children <= c.entries
    else
      |b.key| == c.order - 1 && |b.sub| == c.order && |b.data| == 0 && 0 <= b.children <= c.order
  }

  function KeyCount(b: Block): int {
    if b.leaf then b.children else if b.children > 0 then b.children - 1 else 0
  }

  ghost function View(c: Cfg, b: Block): Node
    requires Fits(c, b)
  {
    Node(b.self, b.parent, b.prev, b.next, b.leaf, b.key[..KeyCount(b)],
         if b.leaf then b.data[..b.children] else b.sub[..b.children])
  }

  // memmove(&dst[d], &src[s], n * sizeof)
  function Memmove(dst: seq<int>, d: int, src: seq<int>, s: int, n: int): (r: seq<int>)
    requires 0 <= n && 0 <= s && s + n <= |src| && 0 <= d && d + n <= |dst|
    ensures |r| == |dst|
    ensures forall i {:trigger r[i]} :: 0 <= i < |dst| ==> r[i] == if d <= i < d + n then src[s + i - d] else dst[i]
  {
    dst[..d] + src[s..s + n] + dst[d + n..]
  }

  // ---------------------------------------------------------------- binary search

  ghost predicate Ascending(K: seq<int>) {
    forall i, j :: 0 <= i < j < |K| ==> K[i] < K[j]
  }

  method KeyBinarySearch(b: Block, target: int) returns (r: int)
    requires KeyCount(b) <= |b.key| && 0 <= b.children && Ascending(b.key[..KeyCount(b)])
    requires b.leaf || b.children > 0
    ensures 0 <= r ==> r < KeyCount(b) && b.key[r] == target && Cut(b.key[..KeyCount(b)], r, target)
    ensures r < 0 ==> Cut(b.key[..KeyCount(b)], -r - 1, target) && target !in b.key[..KeyCount(b)]
  {
    var arr := b.key;
    var len := if b.leaf then b.children else b.children - 1;
    ghost var K := arr[..len];
    var low := -1;
    var high := len;
    while low + 1 < high
      invariant -1 <= low < high <= len
      invariant forall i :: 0 <= i <= low ==> K[i] < target
      invariant forall i :: high <= i < len ==> target <= K[i]
    {
      var mid := low + (high - low) / 2;
      assert K[mid] == arr[mid];
      if target > arr[mid] {
        low := mid;
      } else {
        high := mid;
      }
    }
    if high >= len || arr[high] != target {
      return -high - 1;
    } else {
      return high;
    }
  }

  method ParentKeyIndex(b: Block, key: int) returns (i: int)
    requires KeyCount(b) <= |b.key| && 0 < b.children && !b.leaf && Ascending(b.key[..KeyCount(b)])
    ensures -1 <= i < KeyCount(b)
    ensures forall m :: 0 <= m <= i ==> b.key[m] <= key
    ensures forall m :: i < m < KeyCount(b) ==> key < b.key[m]
  {
    var index := KeyBinarySearch(b, key);
    ghost var K := b.key[..KeyCount(b)];
    i := if index >= 0 then index else -index - 2;
    forall m | 0 <= m < KeyCount(b) ensures m <= i ==> b.key[m] <= key ensures i < m ==> key < b.key[m] {
      assert K[m] == b.key[m];
    }
  }

  // The child to descend into.
  ghost predicate Route(K: seq<int>, p: int, k: int) {
    && 0 <= p <= |K|
    && (forall i :: 0 <= i < p ==> K[i] <= k)
    && (forall i :: p <= i < |K| ==> k < K[i])
  }

  method ChildIndex(b: Block, key: int) returns (p: int)
    requires KeyCount(b) <= |b.key| && 0 < b.children && !b.leaf && Ascending(b.key[..KeyCount(b)])
    ensures Route(b.key[..KeyCount(b)], p, key)
  {
    var i := KeyBinarySearch(b, key);
    if i >= 0 {
      p := i + 1;
    } else {
      p := -i - 1;
    }
    ghost var K := b.key[..KeyCount(b)];
    forall m | p <= m < |K| ensures key < K[m] {
      if i >= 0 {
        assert K[i] < K[m];
      } else {
        assert K[m] in K;
      }
    }
  }
}
