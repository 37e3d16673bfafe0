/** The array shuffles inside inner-node buffers, and what they do to the node they hold. */
module BptEdit {
  import opened BptLevels
  import opened BptInsert
  import opened BptBlock

  ghost predicate FullInner(c: Cfg, b: Block) {
    CfgOK(c) && Fits(c, b) && !b.leaf && b.children == c.order
  }

  lemma GrownAt(n: Node, p: int, l: int, r: int, key: int)
    requires |n.val| == |n.key| + 1 && 0 <= p < |n.val|
    ensures var g := Grown(n, p, l, r, key);
      && |g.key| == |n.key| + 1 && |g.val| == |n.val| + 1 && g.key[p] == key && g.val[p] == l && g.val[p + 1] == r
      && (forall i {:trigger g.key[i]} :: 0 <= i < p ==> g.key[i] == n.key[i])
      && (forall i {:trigger g.key[i]} :: p < i < |g.key| ==> g.key[i] == n.key[i - 1])
      && (forall i {:trigger g.val[i]} :: 0 <= i < p ==> g.val[i] == n.val[i])
      && (forall i {:trigger g.val[i]} :: p + 1 < i < |g.val| ==> g.val[i] == n.val[i - 1])
  {
  }

  // ---------------------------------------------------------------- simple insert

  // Opens the gap and stores the key; the two children follow.
  function OpenGap(c: Cfg, b: Block, key: int, insert: int): (r: Block)
    requires Fits(c, b) && !b.leaf && 0 <= insert < b.children < c.order
    ensures Fits(c, r) && r == b.(children := r.children, key := r.key, sub := r.sub)
  {
    b.(key := Memmove(b.key, insert + 1, b.key, insert, b.children - 1 - insert)[insert := key],
       sub := Memmove(b.sub, insert + 2, b.sub, insert + 1, b.children - 1 - insert))
  }

  lemma SimpleInsertView(c: Cfg, b: Block, key: int, insert: int, l: int, r: int)
    requires Fits(c, b) && !b.leaf && 0 <= insert < b.children < c.order
    ensures var o := OpenGap(c, b, key, insert);
      var e := o.(sub := o.sub[insert := l][insert + 1 := r], children := o.children + 1);
      Fits(c, e) && View(c, e) == Grown(View(c, b), insert, l, r, key)
  {
    hide Grown;
    GrownAt(View(c, b), insert, l, r, key);
    GrownSame(View(c, b), insert, l, r, key);
    var o := OpenGap(c, b, key, insert);
    var e := o.(sub := o.sub[insert := l][insert + 1 := r], children := o.children + 1);
    var g := Grown(View(c, b), insert, l, r, key);
    assert View(c, e).key == g.key;
    assert View(c, e).val == g.val;
    assert g == View(c, b).(key := g.key, val := g.val) by {
      assert Grown(View(c, b), insert, l, r, key) == View(c, b).(key := g.key, val := g.val) by {
        GrownIs(View(c, b), insert, l, r, key);
      }
    }
  }

  lemma GrownIs(n: Node, p: int, l: int, r: int, key: int)
    requires |n.val| == |n.key| + 1 && 0 <= p < |n.val|
    ensures var g := Grown(n, p, l, r, key); g == n.(key := g.key, val := g.val)
  {
  }

  // ---------------------------------------------------------------- split to the left

  // The new left node: everything before the split, with a gap at pivot holding the key.
  function LeftCopy(c: Cfg, left: Block, node: Block, key: int, pivot: int, split: int): (r: Block)
    requires Fits(c, left) && !left.leaf && FullInner(c, node)
    requires split == c.order / 2 && 0 <= pivot <= split
    ensures Fits(c, r) && r == left.(children := r.children, key := r.key, sub := r.sub)
  {
    left.(children := split + 1,
          key := Memmove(Memmove(left.key, 0, node.key, 0, pivot),
                         pivot + 1, node.key, pivot, split - pivot)[pivot := key],
          sub := Memmove(Memmove(left.sub, 0, node.sub, 0, pivot), pivot + 1, node.sub, pivot, split - pivot))
  }

  // The old node keeps what comes after the split.
  function RightShift(c: Cfg, node: Block, first: int, split: int): (r: Block)
    requires FullInner(c, node) && split == c.order / 2
    ensures Fits(c, r) && r == node.(children := r.children, key := r.key, sub := r.sub)
  {
    var sub := node.sub[0 := first];
    var children := c.order - split;
    node.(children := children,
          key := Memmove(node.key, 0, node.key, split, children - 1),
          sub := Memmove(sub, 1, sub, split + 1, children - 1))
  }

  lemma LeftCopyView(c: Cfg, node: Block, left: Block, key: int, pivot: int, split: int, l: int, r: int, s: seq<int>)
    requires FullInner(c, node) && Fits(c, left) && !left.leaf
    requires split == c.order / 2 && 0 <= pivot <= split
    requires var o := LeftCopy(c, left, node, key, pivot, split);
      s == if pivot == split then o.sub[pivot := l] else o.sub[pivot := l][pivot + 1 := r]
    ensures var g := Grown(View(c, node), pivot, l, r, key);
      var e := LeftCopy(c, left, node, key, pivot, split).(sub := s);
      Fits(c, e) && View(c, e).key == g.key[..split] && View(c, e).val == g.val[..split + 1]
  {
    hide Grown, Memmove;
    GrownAt(View(c, node), pivot, l, r, key);
  }

  lemma RightShiftView(c: Cfg, node: Block, key: int, pivot: int, split: int, l: int, r: int)
    requires FullInner(c, node) && split == c.order / 2 && 0 <= pivot <= split
    ensures var g := Grown(View(c, node), pivot, l, r, key);
      var n := RightShift(c, node, if pivot == split then r else node.sub[split], split);
      && View(c, n).key == g.key[split + 1..] && View(c, n).val == g.val[split + 1..]
      && g.key[split] == if pivot == split then key else node.key[split - 1]
  {
    hide Grown, Memmove;
    GrownAt(View(c, node), pivot, l, r, key);
  }

  lemma SplitLeftView(c: Cfg, node: Block, left: Block, key: int, pivot: int, split: int, l: int, r: int, s: seq<int>)
    requires FullInner(c, node) && Fits(c, left) && !left.leaf
    requires split == c.order / 2 && 0 <= pivot <= split
    requires var o := LeftCopy(c, left, node, key, pivot, split);
      s == if pivot == split then o.sub[pivot := l] else o.sub[pivot := l][pivot + 1 := r]
    ensures var g := Grown(View(c, node), pivot, l, r, key);
      var e := LeftCopy(c, left, node, key, pivot, split).(sub := s);
      var n := RightShift(c, node, if pivot == split then r else node.sub[split], split);
      && Fits(c, e) && Halves(c, g, View(c, e), View(c, n), left.self, node.self, split + 1)
      && g.key[split] == if pivot == split then key else node.key[split - 1]
  {
    LeftCopyView(c, node, left, key, pivot, split, l, r, s);
    RightShiftView(c, node, key, pivot, split, l, r);
    hide Grown, Memmove;
    GrownAt(View(c, node), pivot, l, r, key);
  }

  // ---------------------------------------------------------------- split to the right

  // The children after the new pair, when the pair opens the right node.
  function RightTail(c: Cfg, right: Block, node: Block, split: int): (r: Block)
    requires Fits(c, right) && !right.leaf && FullInner(c, node) && split == c.order / 2
    requires right.children == c.order - split + 1
    ensures Fits(c, r) && r == right.(children := r.children, key := r.key, sub := r.sub)
  {
    right.(key := Memmove(right.key, 1, node.key, split, right.children - 2),
           sub := Memmove(right.sub, 2, node.sub, split + 1, right.children - 2))
  }

  lemma SplitRight1View(c: Cfg, node: Block, right: Block, key: int, split: int, l: int, r: int)
    requires FullInner(c, node) && Fits(c, right) && !right.leaf && split == c.order / 2
    requires right.children == c.order - split + 1 && right.key[0] == key && right.sub[0] == l && right.sub[1] == r
    ensures var g := Grown(View(c, node), split, l, r, key);
      var n := node.(children := split);
      && Fits(c, n) && Halves(c, g, View(c, n), View(c, RightTail(c, right, node, split)), node.self, right.self, split)
      && g.key[split - 1] == node.key[split - 1]
  {
    hide Grown, Memmove;
    var g := Grown(View(c, node), split, l, r, key);
    GrownAt(View(c, node), split, l, r, key);
    var n, e := node.(children := split), RightTail(c, right, node, split);
    assert View(c, n).key == g.key[..split - 1];
    assert View(c, n).val == g.val[..split];
    assert View(c, e).key == g.key[split..];
    assert View(c, e).val == g.val[split..];
  }

  // The children before the new pair, and its key.
  function RightHead(c: Cfg, right: Block, node: Block, key: int, pivot: int, split: int): (r: Block)
    requires Fits(c, right) && !right.leaf && FullInner(c, node) && split == c.order / 2
    requires 0 <= pivot < c.order - split - 1
    ensures Fits(c, r) && r == right.(children := r.children, key := r.key, sub := r.sub)
  {
    right.(children := c.order - split,
           key := Memmove(right.key, 0, node.key, split + 1, pivot)[pivot := key],
           sub := Memmove(right.sub, 0, node.sub, split + 1, pivot))
  }

  // The children after the new pair.
  function RightRest(c: Cfg, right: Block, node: Block, insert: int, pivot: int, split: int): (r: Block)
    requires Fits(c, right) && !right.leaf && FullInner(c, node) && split == c.order / 2
    requires split < insert < c.order && pivot == insert - split - 1
    ensures Fits(c, r) && r == right.(children := r.children, key := r.key, sub := r.sub)
  {
    right.(key := Memmove(right.key, pivot + 1, node.key, insert, c.order - insert - 1),
           sub := Memmove(right.sub, pivot + 2, node.sub, insert + 1, c.order - insert - 1))
  }

  // The right half: the children before the pair, the pair, and those after it.
  lemma Right2Key(c: Cfg, node: Block, right: Block, g: Node, key: int, insert: int, pivot: int, split: int, l: int,
                  r: int)
    requires FullInner(c, node) && Fits(c, right) && !right.leaf && split == c.order / 2
    requires split < insert < c.order && pivot == insert - split - 1
    requires g == Grown(View(c, node), insert, l, r, key)
    ensures var h := RightHead(c, right, node, key, pivot, split);
      var e := View(c, RightRest(c, h.(sub := h.sub[pivot := l][pivot + 1 := r]), node, insert, pivot, split));
      e.self == right.self && !e.leaf && split + 1 <= |g.key| && e.key == g.key[split + 1..]
  {
    hide Grown, Memmove;
    GrownAt(View(c, node), insert, l, r, key);
    Right2Keys(right.key, node.key, g.key, key, insert, pivot, split);
  }

  lemma Right2Val(c: Cfg, node: Block, right: Block, g: Node, key: int, insert: int, pivot: int, split: int, l: int,
                  r: int)
    requires FullInner(c, node) && Fits(c, right) && !right.leaf && split == c.order / 2
    requires split < insert < c.order && pivot == insert - split - 1
    requires g == Grown(View(c, node), insert, l, r, key)
    ensures var h := RightHead(c, right, node, key, pivot, split);
      var e := View(c, RightRest(c, h.(sub := h.sub[pivot := l][pivot + 1 := r]), node, insert, pivot, split));
      split + 1 <= |g.val| && e.val == g.val[split + 1..]
  {
    hide Grown, Memmove;
    GrownAt(View(c, node), insert, l, r, key);
    Right2Subs(right.sub, node.sub, g.val, insert, pivot, split, l, r);
  }

  // The left half: the children up to the split point, which the pair leaves alone.
  lemma Left2View(c: Cfg, node: Block, g: Node, key: int, insert: int, split: int, l: int, r: int)
    requires FullInner(c, node) && split == c.order / 2 && split < insert < c.order
    requires g == Grown(View(c, node), insert, l, r, key)
    ensures var n := node.(children := split + 1);
      && Fits(c, n) && View(c, n).self == node.self && !View(c, n).leaf
      && |g.val| == c.order + 1 == |g.key| + 1 && g.key[split] == node.key[split]
      && View(c, n).key == g.key[..split] && View(c, n).val == g.val[..split + 1]
  {
    hide Grown, Memmove;
    GrownAt(View(c, node), insert, l, r, key);
    Prefixes(node.key, g.key, split, insert);
    Prefixes(node.sub, g.val, split + 1, insert);
  }

  lemma SplitRight2View(c: Cfg, node: Block, right: Block, key: int, insert: int, pivot: int, split: int, l: int,
                        r: int)
    requires FullInner(c, node) && Fits(c, right) && !right.leaf && split == c.order / 2
    requires split < insert < c.order && pivot == insert - split - 1
    ensures var g := Grown(View(c, node), insert, l, r, key);
      var n := node.(children := split + 1);
      var h := RightHead(c, right, node, key, pivot, split);
      var e := RightRest(c, h.(sub := h.sub[pivot := l][pivot + 1 := r]), node, insert, pivot, split);
      && Fits(c, n) && Halves(c, g, View(c, n), View(c, e), node.self, right.self, split + 1)
      && g.key[split] == node.key[split]
  {
    hide Grown, RightHead, RightRest;
    var g := Grown(View(c, node), insert, l, r, key);
    Left2View(c, node, g, key, insert, split, l, r);
    Right2Key(c, node, right, g, key, insert, pivot, split, l, r);
    Right2Val(c, node, right, g, key, insert, pivot, split, l, r);
  }

  lemma Prefixes(src: seq<int>, g: seq<int>, n: int, insert: int)
    requires 0 <= n <= insert <= |src| < |g| && forall i {:trigger g[i]} :: 0 <= i < insert ==> g[i] == src[i]
    ensures src[..n] == g[..n]
  {
  }

  lemma Right2Keys(dst: seq<int>, src: seq<int>, g: seq<int>, key: int, insert: int, pivot: int, split: int)
    requires |dst| == |src| && |g| == |src| + 1 && 0 <= split < insert <= |src| && pivot == insert - split - 1
    requires g[insert] == key
    requires forall i {:trigger g[i]} :: 0 <= i < insert ==> g[i] == src[i]
    requires forall i {:trigger g[i]} :: insert < i < |g| ==> g[i] == src[i - 1]
    ensures var k := Memmove(Memmove(dst, 0, src, split + 1, pivot)[pivot := key], pivot + 1, src, insert,
                             |src| - insert);
      k[..|src| - split] == g[split + 1..]
  {
    hide Memmove;
  }

  lemma Right2Subs(dst: seq<int>, src: seq<int>, g: seq<int>, insert: int, pivot: int, split: int, l: int, r: int)
    requires |dst| == |src| && |g| == |src| + 1 && 0 <= split < insert < |src| && pivot == insert - split - 1
    requires g[insert] == l && g[insert + 1] == r
    requires forall i {:trigger g[i]} :: 0 <= i < insert ==> g[i] == src[i]
    requires forall i {:trigger g[i]} :: insert + 1 < i < |g| ==> g[i] == src[i - 1]
    ensures var k := Memmove(Memmove(dst, 0, src, split + 1, pivot)[pivot := l][pivot + 1 := r], pivot + 2, src,
                             insert + 1, |src| - insert - 1);
      k[..|src| - split] == g[split + 1..]
  {
    hide Memmove;
  }

  // ---------------------------------------------------------------- which children move

  lemma LeftCopySubs(c: Cfg, left: Block, node: Block, key: int, pivot: int, split: int)
    requires Fits(c, left) && !left.leaf && FullInner(c, node)
    requires split == c.order / 2 && 0 <= pivot <= split
    ensures var o := LeftCopy(c, left, node, key, pivot, split).sub;
      && |o| == c.order
      && (forall i {:trigger o[i]} :: 0 <= i < pivot ==> o[i] == node.sub[i])
      && (forall i {:trigger o[i]} :: pivot < i <= split ==> o[i] == node.sub[i - 1])
  {
    hide Memmove;
  }

  // Of the children before, those not replaced are the children after other than la and ra.
  lemma MovedSet(before: seq<int>, after: seq<int>, hi: int, skip: int, la: int, ra: int, S: set<int>, a: int)
    requires 0 <= skip < hi <= |before| == |after|
    requires forall i :: 0 <= i < hi && i != skip && i != skip + 1 ==> after[i] == before[i]
    requires after[skip] == la && (skip + 1 < hi ==> after[skip + 1] == ra)
    requires forall i :: 0 <= i < hi && i != skip && i != skip + 1 ==> before[i] in S
    requires forall s :: s in S ==> exists i :: 0 <= i < hi && i != skip && i != skip + 1 && before[i] == s
    requires a != la && a != ra
    ensures a in S <==> a in after[..hi]
  {
    var m := after[..hi];
    if a in S {
      var i :| 0 <= i < hi && i != skip && i != skip + 1 && before[i] == a;
      assert m[i] == a;
    }
    if a in m {
      var i :| 0 <= i < |m| && m[i] == a;
      assert after[i] == a;
    }
  }

  lemma MovedPair(before: seq<int>, after: seq<int>, hi: int, skip: int, la: int, ra: int, S: set<int>)
    requires 0 <= skip < hi <= |before| == |after|
    requires forall i :: 0 <= i < hi && i != skip && i != skip + 1 ==> after[i] == before[i]
    requires after[skip] == la && (skip + 1 < hi ==> after[skip + 1] == ra)
    requires forall i :: 0 <= i < hi && i != skip && i != skip + 1 ==> before[i] in S
    requires ra !in S && la != ra
    ensures la in after[..hi] && (ra in after[..hi] <==> skip + 1 < hi)
  {
    var m := after[..hi];
    assert m[skip] == la;
    if skip + 1 < hi {
      assert m[skip + 1] == ra;
    }
  }

  lemma ViewInner(c: Cfg, b: Block)
    requires Fits(c, b) && !b.leaf
    ensures View(c, b).val == b.sub[..b.children] && |View(c, b).val| == b.children
    ensures b.children > 0 ==> View(c, b).key == b.key[..b.children - 1] && |View(c, b).val| == |View(c, b).key| + 1
    ensures View(c, b).parent == b.parent && View(c, b).prev == b.prev && View(c, b).next == b.next
    ensures View(c, b).self == b.self && !View(c, b).leaf
  {
  }

  lemma ViewHeader(c: Cfg, b: Block)
    requires Fits(c, b)
    ensures var v := View(c, b);
      v.leaf == b.leaf && v.self == b.self && v.parent == b.parent && v.prev == b.prev && v.next == b.next
  {
  }
}
