/** The array shuffles inside leaf buffers. */
module BptLeafEdit {
  import opened BptLevels
  import opened BptShape
  import opened BptBlock
  import opened BptLeafInsert

  lemma ViewLeaf(c: Cfg, b: Block)
    requires Fits(c, b) && b.leaf
    ensures var v := View(c, b);
      && v.key == b.key[..b.children] && v.val == b.data[..b.children] && |v.key| == |v.val| == b.children
      && v.leaf && v.self == b.self && v.parent == b.parent && v.prev == b.prev && v.next == b.next
  {
  }

  lemma LeafGrownAt(n: Node, p: int, k: int, d: int)
    requires 0 <= p <= |n.key| == |n.val|
    ensures var g := LeafGrown(n, p, k, d);
      && g == n.(key := g.key, val := g.val)
      && |g.key| == |g.val| == |n.key| + 1 && g.key[p] == k && g.val[p] == d
      && (forall i {:trigger g.key[i]} :: 0 <= i < p ==> g.key[i] == n.key[i])
      && (forall i {:trigger g.key[i]} :: p < i < |g.key| ==> g.key[i] == n.key[i - 1])
      && (forall i {:trigger g.val[i]} :: 0 <= i < p ==> g.val[i] == n.val[i])
      && (forall i {:trigger g.val[i]} :: p < i < |g.val| ==> g.val[i] == n.val[i - 1])
  {
  }

  ghost predicate FullLeaf(c: Cfg, b: Block) {
    CfgOK(c) && Fits(c, b) && b.leaf && b.children == c.entries
  }

  // ---------------------------------------------------------------- simple insert

  function LeafOpen(c: Cfg, b: Block, key: int, data: int, insert: int): (r: Block)
    requires Fits(c, b) && b.leaf && 0 <= insert <= b.children < c.entries
    ensures Fits(c, r) && r == b.(children := r.children, key := r.key, data := r.data)
  {
    b.(key := Memmove(b.key, insert + 1, b.key, insert, b.children - insert)[insert := key],
       data := Memmove(b.data, insert + 1, b.data, insert, b.children - insert)[insert := data],
       children := b.children + 1)
  }

  lemma LeafOpenView(c: Cfg, b: Block, key: int, data: int, insert: int)
    requires Fits(c, b) && b.leaf && 0 <= insert <= b.children < c.entries
    ensures View(c, LeafOpen(c, b, key, data, insert)) == LeafGrown(View(c, b), insert, key, data)
  {
    hide LeafGrown, Memmove;
    LeafGrownAt(View(c, b), insert, key, data);
    var g, v := LeafGrown(View(c, b), insert, key, data), View(c, LeafOpen(c, b, key, data, insert));
    assert v.key == g.key;
    assert v.val == g.val;
  }

  // ---------------------------------------------------------------- split

  // The first split entries of src with x put in at pivot.
  function HeadCopy(dst: seq<int>, src: seq<int>, x: int, pivot: int, split: int): (r: seq<int>)
    requires |dst| == |src| && 0 <= pivot < split <= |src|
    ensures |r| == |dst|
  {
    Memmove(Memmove(dst, 0, src, 0, pivot)[pivot := x], pivot + 1, src, pivot, split - pivot - 1)
  }

  lemma HeadCopied(dst: seq<int>, src: seq<int>, x: int, pivot: int, split: int)
    requires |dst| == |src| && 0 <= pivot < split <= |src|
    ensures HeadCopy(dst, src, x, pivot, split)[..split] == Insert(src, pivot, x)[..split]
  {
    hide Memmove, Insert;
    InsertAt(src, pivot, x);
  }

  lemma Shifted(src: seq<int>, x: int, pivot: int, split: int)
    requires 0 <= pivot < split <= |src|
    ensures Memmove(src, 0, src, split - 1, |src| - split + 1)[..|src| - split + 1] == Insert(src, pivot, x)[split..]
  {
    hide Memmove, Insert;
    InsertAt(src, pivot, x);
  }

  // The entries of src from split on with x put in at insert.
  function TailCopy(dst: seq<int>, src: seq<int>, x: int, insert: int, split: int): (r: seq<int>)
    requires |dst| == |src| && 1 <= split <= insert <= |src|
    ensures |r| == |dst|
  {
    var pivot := insert - split;
    Memmove(Memmove(dst, 0, src, split, pivot)[pivot := x], pivot + 1, src, insert, |src| - insert)
  }

  lemma TailCopied(dst: seq<int>, src: seq<int>, x: int, insert: int, split: int)
    requires |dst| == |src| && 1 <= split <= insert <= |src|
    ensures TailCopy(dst, src, x, insert, split)[..|src| - split + 1] == Insert(src, insert, x)[split..]
    ensures src[..split] == Insert(src, insert, x)[..split]
  {
    hide Memmove, Insert;
    InsertAt(src, insert, x);
  }

  // The new left leaf: the first split entries, the new one among them.
  function LeafLeft(c: Cfg, left: Block, leaf: Block, key: int, data: int, pivot: int, split: int): (r: Block)
    requires Fits(c, left) && left.leaf && FullLeaf(c, leaf) && split == (c.entries + 1) / 2 && 0 <= pivot < split
    ensures Fits(c, r) && r == left.(children := r.children, key := r.key, data := r.data)
  {
    left.(children := split,
          key := HeadCopy(left.key, leaf.key, key, pivot, split),
          data := HeadCopy(left.data, leaf.data, data, pivot, split))
  }

  // What stays in the old leaf, moved to its start.
  function LeafShift(c: Cfg, leaf: Block, split: int): (r: Block)
    requires FullLeaf(c, leaf) && split == (c.entries + 1) / 2
    ensures Fits(c, r) && r == leaf.(children := r.children, key := r.key, data := r.data)
  {
    var children := c.entries - split + 1;
    leaf.(children := children,
          key := Memmove(leaf.key, 0, leaf.key, split - 1, children),
          data := Memmove(leaf.data, 0, leaf.data, split - 1, children))
  }

  lemma FullView(c: Cfg, leaf: Block, p: int, key: int, data: int)
    requires FullLeaf(c, leaf) && 0 <= p <= c.entries
    ensures |View(c, leaf).key| == |View(c, leaf).val| == c.entries
    ensures LeafGrown(View(c, leaf), p, key, data).key == Insert(leaf.key, p, key)
    ensures LeafGrown(View(c, leaf), p, key, data).val == Insert(leaf.data, p, data)
    ensures |Insert(leaf.key, p, key)| == |Insert(leaf.data, p, data)| == c.entries + 1
  {
    assert leaf.key[..c.entries] == leaf.key && leaf.data[..c.entries] == leaf.data;
  }

  lemma LeafLeftView(c: Cfg, leaf: Block, left: Block, key: int, data: int, pivot: int, split: int)
    requires Fits(c, left) && left.leaf && FullLeaf(c, leaf) && split == (c.entries + 1) / 2 && 0 <= pivot < split
    ensures |View(c, leaf).key| == |View(c, leaf).val| == c.entries
    ensures var g := LeafGrown(View(c, leaf), pivot, key, data);
      var e, n := LeafLeft(c, left, leaf, key, data, pivot, split), LeafShift(c, leaf, split);
      && LeafHalves(c, g, View(c, e), View(c, n), left.self, leaf.self, split)
      && n.children > 0 && n.key[0] == g.key[split]
  {
    hide LeafGrown, Memmove, HeadCopy, Insert;
    FullView(c, leaf, pivot, key, data);
    HeadCopied(left.key, leaf.key, key, pivot, split);
    HeadCopied(left.data, leaf.data, data, pivot, split);
    Shifted(leaf.key, key, pivot, split);
    Shifted(leaf.data, data, pivot, split);
  }

  // The new right leaf: the entries from split on, the new one among them.
  function LeafRight(c: Cfg, right: Block, leaf: Block, key: int, data: int, insert: int, split: int): (r: Block)
    requires Fits(c, right) && right.leaf && FullLeaf(c, leaf) && split == (c.entries + 1) / 2
    requires split <= insert <= c.entries
    ensures Fits(c, r) && r == right.(children := r.children, key := r.key, data := r.data)
  {
    right.(children := c.entries - split + 1,
           key := TailCopy(right.key, leaf.key, key, insert, split),
           data := TailCopy(right.data, leaf.data, data, insert, split))
  }

  lemma LeafRightView(c: Cfg, leaf: Block, right: Block, key: int, data: int, insert: int, split: int)
    requires Fits(c, right) && right.leaf && FullLeaf(c, leaf) && split == (c.entries + 1) / 2
    requires split <= insert <= c.entries
    ensures |View(c, leaf).key| == |View(c, leaf).val| == c.entries
    ensures var g := LeafGrown(View(c, leaf), insert, key, data);
      var n, e := leaf.(children := split), LeafRight(c, right, leaf, key, data, insert, split);
      && Fits(c, n) && LeafHalves(c, g, View(c, n), View(c, e), leaf.self, right.self, split)
      && e.children > 0 && e.key[0] == g.key[split]
  {
    hide LeafGrown, Memmove, TailCopy, Insert;
    FullView(c, leaf, insert, key, data);
    TailCopied(right.key, leaf.key, key, insert, split);
    TailCopied(right.data, leaf.data, data, insert, split);
  }
}
