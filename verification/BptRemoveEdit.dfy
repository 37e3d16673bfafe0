/** The array shuffles of a deletion, inside inner-node buffers. */
module BptRemoveEdit {
  import opened BptLevels
  import opened BptShape
  import opened BptDelete
  import opened BptBlock

  // ---------------------------------------------------------------- one array at a time

  // src without its i-th element, of the first n.
  lemma Closed(src: seq<int>, n: int, i: int)
    requires 0 <= i < n <= |src|
    ensures Memmove(src, i, src, i + 1, n - i - 1)[..n - 1] == Drop(src[..n], i)
  {
    hide Memmove, Drop;
    DropAt(src[..n], i);
  }

  // x, then the first n elements of src without the i-th.
  lemma Rotated(src: seq<int>, n: int, i: int, x: int)
    requires 0 <= i < n <= |src|
    ensures Memmove(src, 1, src, 0, i)[0 := x][..n] == [x] + Drop(src[..n], i)
  {
    hide Memmove, Drop;
    DropAt(src[..n], i);
  }

  // The first l elements of dst, then the first n of src without the i-th.
  lemma Appended(dst: seq<int>, l: int, src: seq<int>, n: int, i: int)
    requires 0 <= l <= |dst| && 0 <= i < n <= |src| && l + n - 1 <= |dst|
    ensures Memmove(Memmove(dst, l, src, 0, i), l + i, src, i + 1, n - i - 1)[..l + n - 1] ==
      dst[..l] + Drop(src[..n], i)
  {
    hide Memmove, Drop;
    DropAt(src[..n], i);
  }

  lemma Joined(dst: seq<int>, l: int, src: seq<int>, n: int)
    requires 0 <= l && 0 <= n <= |src| && l + n <= |dst|
    ensures Memmove(dst, l, src, 0, n)[..l + n] == dst[..l] + src[..n]
  {
    hide Memmove;
  }

  lemma Tail(src: seq<int>, n: int)
    requires 1 <= n <= |src|
    ensures Memmove(src, 0, src, 1, n - 1)[..n - 1] == src[..n][1..]
  {
    hide Memmove;
  }

  // ---------------------------------------------------------------- remove

  function SimpleRemove(c: Cfg, b: Block, remove: int): (r: Block)
    requires Fits(c, b) && !b.leaf && 0 <= remove < b.children - 1
    ensures Fits(c, r) && r == b.(children := b.children - 1, key := r.key, sub := r.sub)
  {
    b.(key := Memmove(b.key, remove, b.key, remove + 1, b.children - remove - 2),
       sub := Memmove(b.sub, remove + 1, b.sub, remove + 2, b.children - remove - 2),
       children := b.children - 1)
  }

  lemma SimpleRemoveView(c: Cfg, b: Block, remove: int)
    requires Fits(c, b) && !b.leaf && 0 <= remove < b.children - 1
    ensures View(c, SimpleRemove(c, b, remove)) == Shrunk(View(c, b), remove + 1)
  {
    Closed(b.key, b.children - 1, remove);
    Closed(b.sub, b.children, remove + 1);
    hide Memmove, Drop;
  }

  // ---------------------------------------------------------------- borrow from the left

  function TakeFromLeft(c: Cfg, node: Block, pk: int, child: int, remove: int): (r: Block)
    requires Fits(c, node) && !node.leaf && 0 <= remove < node.children - 1
    ensures Fits(c, r) && r == node.(key := r.key, sub := r.sub)
  {
    node.(key := Memmove(node.key, 1, node.key, 0, remove)[0 := pk],
          sub := Memmove(node.sub, 1, node.sub, 0, remove + 1)[0 := child])
  }

  lemma TakeFromLeftView(c: Cfg, node: Block, pk: int, child: int, remove: int)
    requires Fits(c, node) && !node.leaf && 0 <= remove < node.children - 1
    ensures var v, w := View(c, node), View(c, TakeFromLeft(c, node, pk, child, remove));
      w == v.(key := [pk] + Drop(v.key, remove), val := [child] + Drop(v.val, remove + 1))
  {
    Rotated(node.key, node.children - 1, remove, pk);
    Rotated(node.sub, node.children, remove + 1, child);
    hide Memmove, Drop;
  }

  lemma LessOneView(c: Cfg, left: Block)
    requires Fits(c, left) && !left.leaf && left.children >= 2
    ensures var v, w := View(c, left), View(c, left.(children := left.children - 1));
      w == v.(key := v.key[..|v.key| - 1], val := v.val[..|v.val| - 1])
  {
    var n := left.children;
    assert left.key[..n - 1][..n - 2] == left.key[..n - 2];
    assert left.sub[..n][..n - 1] == left.sub[..n - 1];
  }

  // ---------------------------------------------------------------- merge into the left

  function MergeInto(c: Cfg, left: Block, node: Block, pk: int, remove: int): (r: Block)
    requires Fits(c, left) && !left.leaf && Fits(c, node) && !node.leaf && left.children >= 1
    requires 0 <= remove < node.children - 1 && left.children + node.children - 1 <= c.order
    ensures Fits(c, r) && r == left.(children := left.children + node.children - 1, key := r.key, sub := r.sub)
  {
    var lc, nc := left.children, node.children;
    left.(key := Memmove(Memmove(left.key[lc - 1 := pk], lc, node.key, 0, remove), lc + remove, node.key, remove + 1,
                         nc - remove - 2),
          sub := Memmove(Memmove(left.sub, lc, node.sub, 0, remove + 1), lc + remove + 1, node.sub, remove + 2,
                         nc - remove - 2),
          children := lc + nc - 1)
  }

  lemma MergeIntoView(c: Cfg, left: Block, node: Block, pk: int, remove: int)
    requires Fits(c, left) && !left.leaf && Fits(c, node) && !node.leaf && left.children >= 1
    requires 0 <= remove < node.children - 1 && left.children + node.children - 1 <= c.order
    ensures var l, n, w := View(c, left), View(c, node), View(c, MergeInto(c, left, node, pk, remove));
      w == l.(key := l.key + [pk] + Drop(n.key, remove), val := l.val + Drop(n.val, remove + 1))
  {
    hide Memmove, Drop;
    var lc, nc := left.children, node.children;
    var k := left.key[lc - 1 := pk];
    assert k[..lc] == left.key[..lc - 1] + [pk];
    Appended(k, lc, node.key, nc - 1, remove);
    Appended(left.sub, lc, node.sub, nc, remove + 1);
  }

  // ---------------------------------------------------------------- borrow from the right

  function TakeFromRight(c: Cfg, node: Block, pk: int, child: int): (r: Block)
    requires Fits(c, node) && !node.leaf && 1 <= node.children < c.order
    ensures Fits(c, r) && r == node.(children := node.children + 1, key := r.key, sub := r.sub)
  {
    node.(key := node.key[node.children - 1 := pk], sub := node.sub[node.children := child],
          children := node.children + 1)
  }

  lemma TakeFromRightView(c: Cfg, node: Block, pk: int, child: int)
    requires Fits(c, node) && !node.leaf && 1 <= node.children < c.order
    ensures var v, w := View(c, node), View(c, TakeFromRight(c, node, pk, child));
      w == v.(key := v.key + [pk], val := v.val + [child])
  {
    var n := node.children;
    assert node.key[n - 1 := pk][..n] == node.key[..n - 1] + [pk];
    assert node.sub[n := child][..n + 1] == node.sub[..n] + [child];
  }

  function GiveFirst(c: Cfg, right: Block): (r: Block)
    requires Fits(c, right) && !right.leaf && right.children >= 2
    ensures Fits(c, r) && r == right.(children := right.children - 1, key := r.key, sub := r.sub)
  {
    right.(key := Memmove(right.key, 0, right.key, 1, right.children - 2),
           sub := Memmove(right.sub, 0, right.sub, 1, right.children - 1),
           children := right.children - 1)
  }

  lemma GiveFirstView(c: Cfg, right: Block)
    requires Fits(c, right) && !right.leaf && right.children >= 2
    ensures var v, w := View(c, right), View(c, GiveFirst(c, right));
      w == v.(key := v.key[1..], val := v.val[1..])
  {
    Tail(right.key, right.children - 1);
    Tail(right.sub, right.children);
    hide Memmove;
  }

  // ---------------------------------------------------------------- merge from the right

  function MergeFrom(c: Cfg, node: Block, right: Block, pk: int): (r: Block)
    requires Fits(c, node) && !node.leaf && Fits(c, right) && !right.leaf && node.children >= 1 && right.children >= 1
    requires node.children + right.children <= c.order
    ensures Fits(c, r) && r == node.(children := node.children + right.children, key := r.key, sub := r.sub)
  {
    var nc, rc := node.children, right.children;
    node.(key := Memmove(node.key[nc - 1 := pk], nc, right.key, 0, rc - 1),
          sub := Memmove(node.sub, nc, right.sub, 0, rc),
          children := nc + rc)
  }

  lemma MergeFromView(c: Cfg, node: Block, right: Block, pk: int)
    requires Fits(c, node) && !node.leaf && Fits(c, right) && !right.leaf && node.children >= 1 && right.children >= 1
    requires node.children + right.children <= c.order
    ensures var n, r, w := View(c, node), View(c, right), View(c, MergeFrom(c, node, right, pk));
      w == n.(key := n.key + [pk] + r.key, val := n.val + r.val)
  {
    var nc, rc := node.children, right.children;
    var k := node.key[nc - 1 := pk];
    Joined(k, nc, right.key, rc - 1);
    Joined(node.sub, nc, right.sub, rc);
    assert k[..nc] == node.key[..nc - 1] + [pk];
    hide Memmove;
  }

  // ---------------------------------------------------------------- a separator

  lemma SetKeyView(c: Cfg, b: Block, i: int, key: int)
    requires Fits(c, b) && !b.leaf && 0 <= i < b.children - 1
    ensures Fits(c, b.(key := b.key[i := key]))
    ensures View(c, b.(key := b.key[i := key])) == View(c, b).(key := View(c, b).key[i := key])
  {
    assert b.key[i := key][..b.children - 1] == b.key[..b.children - 1][i := key];
  }
}
