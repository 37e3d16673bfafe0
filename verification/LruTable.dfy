/** The shard's chained hash table, which grows by one bit at a time. */
module LruTable {
  import opened Arith
  import opened LruScan

  datatype Name = Name(hash: nat, key: int)

  datatype Entry = Entry(name: Name, value: int)

  datatype Found = Missing | Got(value: int)

  ghost predicate Has(chain: seq<Entry>, n: Name) {
    exists j :: 0 <= j < |chain| && chain[j].name == n
  }

  ghost predicate ChainOK(bits: nat, chain: seq<Entry>, i: nat, m: map<Name, int>)
    requires bits <= 31
  {
    && (forall j :: 0 <= j < |chain| ==>
          Bucket(bits, chain[j].name.hash) == i && chain[j].name in m && m[chain[j].name] == chain[j].value)
    && forall j, k :: 0 <= j < k < |chain| ==> chain[j].name != chain[k].name
  }

  // The chains hold exactly the entries of m, each in its bucket.
  ghost predicate Holds(bits: nat, lists: seq<seq<Entry>>, m: map<Name, int>) {
    && bits <= 31 && |lists| == Pow2(bits)
    && (forall i :: 0 <= i < |lists| ==> ChainOK(bits, lists[i], i, m))
    && (forall n :: n in m ==>
          n.hash < Pow2(32) && Bucket(bits, n.hash) < |lists| && Has(lists[Bucket(bits, n.hash)], n))
  }

  // ---------------------------------------------------------------- changing one chain

  // Chain i gains, changes or loses an entry; m does the same.
  lemma HoldsAfter(bits: nat, lists: seq<seq<Entry>>, m: map<Name, int>, i: nat, chain: seq<Entry>, m2: map<Name, int>,
                   n: Name)
    requires Holds(bits, lists, m) && i < |lists| && i == Bucket(bits, n.hash) && n.hash < Pow2(32)
    requires ChainOK(bits, chain, i, m2) && (n in m2 <==> Has(chain, n))
    requires forall x :: x != n ==>
      (x in m2 <==> x in m) && (x in m ==> m2[x] == m[x]) && (Has(chain, x) <==> Has(lists[i], x))
    ensures Holds(bits, lists[i := chain], m2)
  {
    hide Pow2, Bucket;
    var lists2 := lists[i := chain];
    forall k | 0 <= k < |lists2| && k != i ensures ChainOK(bits, lists2[k], k, m2) {
      assert ChainOK(bits, lists[k], k, m);
    }
    forall x | x in m2 ensures Bucket(bits, x.hash) < |lists2| && Has(lists2[Bucket(bits, x.hash)], x) {
      if x != n {
        assert x in m;
      }
    }
  }

  lemma HasAppend(chain: seq<Entry>, e: Entry, x: Name)
    ensures Has(chain + [e], x) <==> Has(chain, x) || x == e.name
    ensures Has([e] + chain, x) <==> Has(chain, x) || x == e.name
  {
    var a, p := chain + [e], [e] + chain;
    if Has(chain, x) {
      var j :| 0 <= j < |chain| && chain[j].name == x;
      assert a[j].name == x && p[j + 1].name == x;
    }
    assert a[|chain|] == e && p[0] == e;
    if Has(a, x) && x != e.name {
      var j :| 0 <= j < |a| && a[j].name == x;
      assert chain[j].name == x;
    }
    if Has(p, x) && x != e.name {
      var j :| 0 <= j < |p| && p[j].name == x;
      assert chain[j - 1].name == x;
    }
  }

  lemma HasUpdate(chain: seq<Entry>, j: nat, e: Entry, x: Name)
    requires j < |chain| && chain[j].name == e.name
    ensures Has(chain[j := e], x) <==> Has(chain, x)
  {
    var c := chain[j := e];
    if Has(chain, x) {
      var k :| 0 <= k < |chain| && chain[k].name == x;
      assert c[k].name == x;
    }
    if Has(c, x) {
      var k :| 0 <= k < |c| && c[k].name == x;
      assert chain[k].name == x;
    }
  }

  lemma HasRemove(chain: seq<Entry>, j: nat, x: Name)
    requires j < |chain| && forall a, b :: 0 <= a < b < |chain| ==> chain[a].name != chain[b].name
    ensures Has(chain[..j] + chain[j + 1..], x) <==> Has(chain, x) && x != chain[j].name
  {
    var c := chain[..j] + chain[j + 1..];
    if Has(chain, x) && x != chain[j].name {
      var k :| 0 <= k < |chain| && chain[k].name == x;
      assert c[if k < j then k else k - 1].name == x;
    }
    if Has(c, x) {
      var k :| 0 <= k < |c| && c[k].name == x;
      assert chain[if k < j then k else k + 1].name == x;
    }
  }

  class HandleTable {
    const maxBits: nat
    var bits: nat
    var lists: seq<seq<Entry>>
    var elems: nat
    ghost var m: map<Name, int>

    ghost predicate Valid()
      reads this
    {
      Holds(bits, lists, m) && elems == |m|
    }

    constructor (maxBits: nat)
      ensures Valid() && m == map[] && bits == 4
    {
      this.maxBits := maxBits;
      bits, elems, m := 4, 0, map[];
      lists := seq(16, _ => []);
      new;
      assert Pow2(4) == 16 by { assert Pow2(3) == 8 by { assert Pow2(2) == 4; } }
    }

    // The place of an entry in its chain, or the chain's end.
    method FindPointer(n: Name) returns (i: nat, j: nat)
      requires Valid() && n.hash < Pow2(32)
      ensures i == Bucket(bits, n.hash) < |lists| && j <= |lists[i]|
      ensures j < |lists[i]| ==> lists[i][j].name == n && n in m && m[n] == lists[i][j].value
      ensures j == |lists[i]| ==> n !in m && !Has(lists[i], n)
    {
      hide Pow2, Bucket;
      i := Bucket(bits, n.hash);
      LastBucket(bits, n.hash);
      j := 0;
      while j < |lists[i]| && lists[i][j].name != n
        invariant j <= |lists[i]| && forall k :: 0 <= k < j ==> lists[i][k].name != n
      {
        j := j + 1;
      }
      assert ChainOK(bits, lists[i], i, m);
    }

    method Lookup(n: Name) returns (r: Found)
      requires Valid() && n.hash < Pow2(32)
      ensures r == if n in m then Got(m[n]) else Missing
    {
      hide Pow2, Bucket, Holds;
      var i, j := FindPointer(n);
      r := if j < |lists[i]| then Got(lists[i][j].value) else Missing;
    }

    // Replaces the entry of the name, or adds one and grows if the table is then full.
    method Insert(e: Entry) returns (was: Found)
      requires Valid() && e.name.hash < Pow2(32)
      modifies this
      ensures Valid() && m == old(m)[e.name := e.value]
      ensures was == if e.name in old(m) then Got(old(m)[e.name]) else Missing
      ensures old(bits) <= bits <= old(bits) + 1 && (e.name in old(m) ==> bits == old(bits))
    {
      hide Pow2, Bucket, Holds;
      var i, j := FindPointer(e.name);
      if j < |lists[i]| {
        was := Got(lists[i][j].value);
        Replaced(bits, lists, m, i, j, e);
        lists := lists[i := lists[i][j := e]];
        m := m[e.name := e.value];
      } else {
        was := Missing;
        Appended(bits, lists, m, i, e);
        lists := lists[i := lists[i] + [e]];
        m := m[e.name := e.value];
        elems := elems + 1;
        if elems / Pow2(bits) > 0 {
          Resize();
        }
      }
    }

    method Remove(n: Name) returns (was: Found)
      requires Valid() && n.hash < Pow2(32)
      modifies `lists, `elems, `m
      ensures Valid() && m == old(m) - {n}
      ensures was == if n in old(m) then Got(old(m)[n]) else Missing
    {
      hide Pow2, Bucket, Holds;
      var i, j := FindPointer(n);
      if j < |lists[i]| {
        was := Got(lists[i][j].value);
        Removed(bits, lists, m, i, j);
        lists := lists[i := lists[i][..j] + lists[i][j + 1..]];
        m := m - {n};
        elems := elems - 1;
      } else {
        was := Missing;
        assert m == m - {n};
      }
    }

    // Doubles the number of chains, unless the hash has no more bits to give.
    method Resize()
      requires Valid()
      modifies `bits, `lists
      ensures Valid() && (bits == old(bits) || bits == old(bits) + 1)
      ensures bits == old(bits) <==> old(bits) >= maxBits || old(bits) >= 31
    {
      hide Pow2, Bucket, Holds, Moved;
      if bits >= maxBits || bits >= 31 {
        return;
      }
      var newBits := bits + 1;
      var wider := seq(Pow2(newBits), _ => []);
      ghost var done: map<Name, int> := map[];
      var count := 0;
      EmptyHolds(newBits, wider);
      HoldsSize(bits, lists, m);
      NoneMoved(bits, lists, m);
      var i := 0;
      while i < |lists|
        invariant bits == old(bits) && lists == old(lists) && 0 <= i <= |lists|
        invariant Holds(newBits, wider, done) && Moved(bits, m, done, i, []) && count == |done|
      {
        var rest := lists[i];
        StartChain(bits, lists, m, done, i);
        while rest != []
          invariant bits == old(bits) && lists == old(lists)
          invariant Holds(newBits, wider, done) && Moved(bits, m, done, i + 1, rest) && count == |done|
          invariant ChainOK(bits, rest, i, m)
          decreases |rest|
        {
          var h := rest[0];
          var b := Bucket(newBits, h.name.hash);
          MoveOne(bits, lists, m, done, i + 1, rest, wider);
          Appended(newBits, wider, done, b, h);
          wider := wider[b := [h] + wider[b]];
          done := done[h.name := h.value];
          rest := rest[1..];
          count := count + 1;
        }
        i := i + 1;
      }
      AllMoved(bits, lists, m, done);
      assert count == elems;
      bits, lists := newBits, wider;
    }

    // Visits the chains from where the state points on, at most count of them, and says where to go on.
    method ApplyToSomeEntries(count: nat, state: nat) returns (visited: seq<Entry>, after: nat)
      requires Valid() && count > 0 && state < END
      ensures Performed(Call(bits, count, state, after))
      ensures forall n :: n in m ==> (Has(visited, n) <==> Visits(Call(bits, count, state, after), n.hash))
      ensures forall j, k :: 0 <= j < k < |visited| ==> visited[j].name != visited[k].name
      ensures forall j :: 0 <= j < |visited| ==> visited[j].name in m && m[visited[j].name] == visited[j].value
    {
      hide Pow2, Bucket, Holds;
      HoldsSize(bits, lists, m);
      var length := Pow2(bits);
      var begin := state / Pow2(64 - bits);
      var end := begin + count;
      if end >= length {
        end := length;
        after := END;
      } else {
        after := end * Pow2(64 - bits);
      }
      visited := [];
      NothingVisited(bits, m, begin);
      var i := begin;
      while i < end
        invariant begin <= i && (i <= end || i == begin) && Covers(bits, m, visited, begin, i)
      {
        CoverMore(bits, lists, m, visited, begin, i);
        visited := visited + lists[i];
        i := i + 1;
      }
      CoversVisits(bits, lists, m, visited, begin, i, Call(bits, count, state, after));
    }
  }

  // The entries visited are those of buckets begin to i, each once.
  ghost predicate Covers(bits: nat, m: map<Name, int>, visited: seq<Entry>, begin: nat, i: nat)
    requires bits <= 31
  {
    && (forall j :: 0 <= j < |visited| ==>
          && begin <= Bucket(bits, visited[j].name.hash) < i
          && visited[j].name in m && m[visited[j].name] == visited[j].value)
    && (forall n :: n in m && begin <= Bucket(bits, n.hash) < i ==> Has(visited, n))
    && forall j, k :: 0 <= j < k < |visited| ==> visited[j].name != visited[k].name
  }

  lemma NothingVisited(bits: nat, m: map<Name, int>, begin: nat)
    requires bits <= 31
    ensures Covers(bits, m, [], begin, begin)
  {
  }

  lemma CoverMore(bits: nat, lists: seq<seq<Entry>>, m: map<Name, int>, visited: seq<Entry>, begin: nat, i: nat)
    requires Holds(bits, lists, m) && Covers(bits, m, visited, begin, i) && begin <= i < |lists|
    ensures Covers(bits, m, visited + lists[i], begin, i + 1)
  {
    hide Pow2, Bucket;
    assert ChainOK(bits, lists[i], i, m);
    var v := visited + lists[i];
    forall n | n in m && begin <= Bucket(bits, n.hash) < i + 1 ensures Has(v, n) {
      if Bucket(bits, n.hash) == i {
        var j :| 0 <= j < |lists[i]| && lists[i][j].name == n;
        assert v[|visited| + j].name == n;
      } else {
        var j :| 0 <= j < |visited| && visited[j].name == n;
        assert v[j].name == n;
      }
    }
  }

  lemma CoversVisits(bits: nat, lists: seq<seq<Entry>>, m: map<Name, int>, visited: seq<Entry>, begin: nat, i: nat,
                     c: Call)
    requires Holds(bits, lists, m) && Covers(bits, m, visited, begin, i) && c.bits == bits && begin == Begin(c)
    requires c.count > 0
    requires i == (if begin < Finish(c) then Finish(c) else begin)
    ensures forall n :: n in m ==> (Has(visited, n) <==> Visits(c, n.hash))
  {
    hide Pow2, Bucket;
    forall n | n in m ensures Has(visited, n) <==> Visits(c, n.hash) {
      if Has(visited, n) {
        var j :| 0 <= j < |visited| && visited[j].name == n;
      }
    }
  }

  // Entries of the first i chains, but those in rest, have been moved.
  ghost predicate Moved(bits: nat, m: map<Name, int>, done: map<Name, int>, i: nat, rest: seq<Entry>)
    requires bits <= 31
  {
    && (forall n :: n in done ==> n in m && done[n] == m[n])
    && forall n :: n in m ==> (n in done <==> Bucket(bits, n.hash) < i && !Has(rest, n))
  }

  lemma EmptyHolds(bits: nat, lists: seq<seq<Entry>>)
    requires bits <= 31 && |lists| == Pow2(bits) && forall i :: 0 <= i < |lists| ==> lists[i] == []
    ensures Holds(bits, lists, map[])
  {
    hide Pow2;
  }

  lemma HoldsSize(bits: nat, lists: seq<seq<Entry>>, m: map<Name, int>)
    requires Holds(bits, lists, m)
    ensures |lists| == Pow2(bits) && bits <= 31
  {
  }

  lemma NoneMoved(bits: nat, lists: seq<seq<Entry>>, m: map<Name, int>)
    requires bits <= 31
    ensures Moved(bits, m, map[], 0, [])
  {
    hide Pow2, Bucket;
  }

  lemma StartChain(bits: nat, lists: seq<seq<Entry>>, m: map<Name, int>, done: map<Name, int>, i: nat)
    requires Holds(bits, lists, m) && Moved(bits, m, done, i, []) && i < |lists|
    ensures Moved(bits, m, done, i + 1, lists[i]) && ChainOK(bits, lists[i], i, m)
  {
    hide Pow2, Bucket;
    assert ChainOK(bits, lists[i], i, m);
    forall n | n in m ensures n in done <==> Bucket(bits, n.hash) < i + 1 && !Has(lists[i], n) {
      InBucket(bits, lists[i], i, m, n);
    }
  }

  lemma MoveOne(bits: nat, lists: seq<seq<Entry>>, m: map<Name, int>, done: map<Name, int>, i: nat, rest: seq<Entry>,
                wider: seq<seq<Entry>>)
    requires Holds(bits, lists, m) && bits < 31 && 0 < i <= |lists| && Moved(bits, m, done, i, rest) && rest != []
    requires ChainOK(bits, rest, i - 1, m)
    requires Holds(bits + 1, wider, done)
    ensures var h := rest[0];
      && h.name !in done && h.name.hash < Pow2(32) && Bucket(bits + 1, h.name.hash) < |wider| == Pow2(bits + 1)
      && !Has(wider[Bucket(bits + 1, h.name.hash)], h.name)
      && Moved(bits, m, done[h.name := h.value], i, rest[1..]) && ChainOK(bits, rest[1..], i - 1, m)
  {
    hide Pow2, Bucket;
    var h := rest[0];
    assert Has(rest, h.name);
    LastBucket(bits + 1, h.name.hash);
    var b := Bucket(bits + 1, h.name.hash);
    assert ChainOK(bits + 1, wider[b], b, done);
    assert rest == [h] + rest[1..];
    forall n ensures Has(rest, n) <==> Has(rest[1..], n) || n == h.name {
      HasAppend(rest[1..], h, n);
    }
    OnlyOnce(rest);
  }

  lemma OnlyOnce(chain: seq<Entry>)
    requires chain != [] && forall j, k :: 0 <= j < k < |chain| ==> chain[j].name != chain[k].name
    ensures !Has(chain[1..], chain[0].name)
  {
  }

  lemma InBucket(bits: nat, chain: seq<Entry>, i: nat, m: map<Name, int>, n: Name)
    requires bits <= 31 && ChainOK(bits, chain, i, m)
    ensures Has(chain, n) ==> Bucket(bits, n.hash) == i
  {
  }

  lemma AllMoved(bits: nat, lists: seq<seq<Entry>>, m: map<Name, int>, done: map<Name, int>)
    requires Holds(bits, lists, m) && Moved(bits, m, done, |lists|, [])
    ensures done == m
  {
    hide Pow2, Bucket;
  }

  lemma Replaced(bits: nat, lists: seq<seq<Entry>>, m: map<Name, int>, i: nat, j: nat, e: Entry)
    requires Holds(bits, lists, m) && i < |lists| && j < |lists[i]| && lists[i][j].name == e.name
    requires e.name.hash < Pow2(32)
    requires i == Bucket(bits, e.name.hash)
    ensures Holds(bits, lists[i := lists[i][j := e]], m[e.name := e.value]) && e.name in m
  {
    hide Pow2, Bucket;
    assert ChainOK(bits, lists[i], i, m);
    var chain := lists[i][j := e];
    assert Has(chain, e.name) by { assert chain[j].name == e.name; }
    forall x ensures Has(chain, x) <==> Has(lists[i], x) {
      HasUpdate(lists[i], j, e, x);
    }
    HoldsAfter(bits, lists, m, i, chain, m[e.name := e.value], e.name);
  }

  lemma Appended(bits: nat, lists: seq<seq<Entry>>, m: map<Name, int>, i: nat, e: Entry)
    requires Holds(bits, lists, m) && i < |lists| && e.name !in m && !Has(lists[i], e.name) && e.name.hash < Pow2(32)
    requires i == Bucket(bits, e.name.hash)
    ensures Holds(bits, lists[i := lists[i] + [e]], m[e.name := e.value])
    ensures Holds(bits, lists[i := [e] + lists[i]], m[e.name := e.value])
  {
    hide Pow2, Bucket;
    assert ChainOK(bits, lists[i], i, m);
    var a, p, m2 := lists[i] + [e], [e] + lists[i], m[e.name := e.value];
    forall x
      ensures (Has(a, x) <==> Has(lists[i], x) || x == e.name) && (Has(p, x) <==> Has(lists[i], x) || x == e.name)
    {
      HasAppend(lists[i], e, x);
    }
    NotIn(lists[i], e.name);
    HoldsAfter(bits, lists, m, i, a, m2, e.name);
    HoldsAfter(bits, lists, m, i, p, m2, e.name);
  }

  lemma NotIn(chain: seq<Entry>, n: Name)
    requires !Has(chain, n)
    ensures forall j :: 0 <= j < |chain| ==> chain[j].name != n
  {
  }

  lemma Removed(bits: nat, lists: seq<seq<Entry>>, m: map<Name, int>, i: nat, j: nat)
    requires Holds(bits, lists, m) && i < |lists| && j < |lists[i]| && lists[i][j].name.hash < Pow2(32)
    requires i == Bucket(bits, lists[i][j].name.hash)
    ensures Holds(bits, lists[i := lists[i][..j] + lists[i][j + 1..]], m - {lists[i][j].name}) && lists[i][j].name in m
  {
    hide Pow2, Bucket;
    assert ChainOK(bits, lists[i], i, m);
    var n, chain := lists[i][j].name, lists[i][..j] + lists[i][j + 1..];
    forall x ensures Has(chain, x) <==> Has(lists[i], x) && x != n {
      HasRemove(lists[i], j, x);
    }
    HoldsAfter(bits, lists, m, i, chain, m - {n}, n);
  }
}
