/** The array shuffles of a deletion, inside leaf buffers. */
module BptLeafRemoveEdit {
  import opened BptLevels
  import opened BptShape
  import opened BptBlock
  import opened BptRemoveEdit
  import opened BptLeafDelete

  function LeafClose(c: Cfg, b: Block, remove: int): (r: Block)
    requires Fits(c, b) && b.leaf && 0 <= remove < b.children
    ensures Fits(c, r) && r == b.(children := b.children - 1, key := r.key, data := r.data)
  {
    b.(key := Memmove(b.key, remove, b.key, remove + 1, b.children - remove - 1),
       data := Memmove(b.data, remove, b.data, remove + 1, b.children - remove - 1),
       children := b.children - 1)
  }

  lemma LeafCloseView(c: Cfg, b: Block, remove: int)
    requires Fits(c, b) && b.leaf && 0 <= remove < b.children
    ensures View(c, LeafClose(c, b, remove)) == LeafShrunk(View(c, b), remove)
  {
    Closed(b.key, b.children, remove);
    Closed(b.data, b.children, remove);
    hide Memmove, Drop;
  }

  // ---------------------------------------------------------------- with the left neighbour

  function LeafTakeLeft(c: Cfg, b: Block, key: int, data: int, remove: int): (r: Block)
    requires Fits(c, b) && b.leaf && 0 <= remove < b.children
    ensures Fits(c, r) && r == b.(key := r.key, data := r.data)
  {
    b.(key := Memmove(b.key, 1, b.key, 0, remove)[0 := key], data := Memmove(b.data, 1, b.data, 0, remove)[0 := data])
  }

  lemma LeafTakeLeftView(c: Cfg, b: Block, key: int, data: int, remove: int)
    requires Fits(c, b) && b.leaf && 0 <= remove < b.children
    ensures var v, w := View(c, b), View(c, LeafTakeLeft(c, b, key, data, remove));
      w == v.(key := [key] + Drop(v.key, remove), val := [data] + Drop(v.val, remove))
  {
    Rotated(b.key, b.children, remove, key);
    Rotated(b.data, b.children, remove, data);
    hide Memmove, Drop;
  }

  lemma LeafLessOneView(c: Cfg, left: Block)
    requires Fits(c, left) && left.leaf && left.children >= 1
    ensures Fits(c, left.(children := left.children - 1))
    ensures var v, w := View(c, left), View(c, left.(children := left.children - 1));
      w == v.(key := v.key[..|v.key| - 1], val := v.val[..|v.val| - 1])
  {
    var n := left.children;
    assert left.key[..n][..n - 1] == left.key[..n - 1];
    assert left.data[..n][..n - 1] == left.data[..n - 1];
  }

  function LeafMergeInto(c: Cfg, left: Block, leaf: Block, remove: int): (r: Block)
    requires Fits(c, left) && left.leaf && Fits(c, leaf) && leaf.leaf
    requires 0 <= remove < leaf.children && left.children + leaf.children - 1 <= c.entries
    ensures Fits(c, r) && r == left.(children := left.children + leaf.children - 1, key := r.key, data := r.data)
  {
    var lc, nc := left.children, leaf.children;
    left.(key := Memmove(Memmove(left.key, lc, leaf.key, 0, remove), lc + remove, leaf.key, remove + 1,
                         nc - remove - 1),
          data := Memmove(Memmove(left.data, lc, leaf.data, 0, remove), lc + remove, leaf.data, remove + 1,
                          nc - remove - 1),
          children := lc + nc - 1)
  }

  lemma LeafMergeIntoView(c: Cfg, left: Block, leaf: Block, remove: int)
    requires Fits(c, left) && left.leaf && Fits(c, leaf) && leaf.leaf
    requires 0 <= remove < leaf.children && left.children + leaf.children - 1 <= c.entries
    ensures var l, n, w := View(c, left), View(c, leaf), View(c, LeafMergeInto(c, left, leaf, remove));
      w == l.(key := l.key + Drop(n.key, remove), val := l.val + Drop(n.val, remove))
  {
    Appended(left.key, left.children, leaf.key, leaf.children, remove);
    Appended(left.data, left.children, leaf.data, leaf.children, remove);
    hide Memmove, Drop;
  }

  // ---------------------------------------------------------------- with the right neighbour

  function LeafTakeRight(c: Cfg, b: Block, key: int, data: int): (r: Block)
    requires Fits(c, b) && b.leaf && b.children < c.entries
    ensures Fits(c, r) && r == b.(children := b.children + 1, key := r.key, data := r.data)
  {
    b.(key := b.key[b.children := key], data := b.data[b.children := data], children := b.children + 1)
  }

  lemma LeafTakeRightView(c: Cfg, b: Block, key: int, data: int)
    requires Fits(c, b) && b.leaf && b.children < c.entries
    ensures var v, w := View(c, b), View(c, LeafTakeRight(c, b, key, data));
      w == v.(key := v.key + [key], val := v.val + [data])
  {
    var n := b.children;
    assert b.key[n := key][..n + 1] == b.key[..n] + [key];
    assert b.data[n := data][..n + 1] == b.data[..n] + [data];
  }

  function LeafGiveFirst(c: Cfg, right: Block): (r: Block)
    requires Fits(c, right) && right.leaf && right.children >= 1
    ensures Fits(c, r) && r == right.(children := right.children - 1, key := r.key, data := r.data)
    ensures right.children >= 2 ==> r.key[0] == right.key[1]
  {
    right.(key := Memmove(right.key, 0, right.key, 1, right.children - 1),
           data := Memmove(right.data, 0, right.data, 1, right.children - 1),
           children := right.children - 1)
  }

  lemma LeafGiveFirstView(c: Cfg, right: Block)
    requires Fits(c, right) && right.leaf && right.children >= 1
    ensures var v, w := View(c, right), View(c, LeafGiveFirst(c, right));
      w == v.(key := v.key[1..], val := v.val[1..])
  {
    Tail(right.key, right.children);
    Tail(right.data, right.children);
    hide Memmove;
  }

  function LeafMergeFrom(c: Cfg, leaf: Block, right: Block): (r: Block)
    requires Fits(c, leaf) && leaf.leaf && Fits(c, right) && right.leaf && leaf.children + right.children <= c.entries
    ensures Fits(c, r) && r == leaf.(children := leaf.children + right.children, key := r.key, data := r.data)
  {
    leaf.(key := Memmove(leaf.key, leaf.children, right.key, 0, right.children),
          data := Memmove(leaf.data, leaf.children, right.data, 0, right.children),
          children := leaf.children + right.children)
  }

  lemma LeafMergeFromView(c: Cfg, leaf: Block, right: Block)
    requires Fits(c, leaf) && leaf.leaf && Fits(c, right) && right.leaf && leaf.children + right.children <= c.entries
    ensures var n, r, w := View(c, leaf), View(c, right), View(c, LeafMergeFrom(c, leaf, right));
      w == n.(key := n.key + r.key, val := n.val + r.val)
  {
    Joined(leaf.key, leaf.children, right.key, right.children);
    Joined(leaf.data, leaf.children, right.data, right.children);
    hide Memmove;
  }
}
