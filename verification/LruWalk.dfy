/** A whole scan of a table that other calls change, and grow, in between. */
module LruWalk {
  import opened Arith
  import opened LruScan
  import opened LruTable

  datatype Edit = Put(e: Entry) | Take(n: Name)

  function Hash(e: Edit): nat { if e.Put? then e.e.name.hash else e.n.hash }

  ghost function Edited(m: map<Name, int>, es: seq<Edit>): map<Name, int> {
    if es == [] then m
    else
      var was, e := Edited(m, es[..|es| - 1]), es[|es| - 1];
      if e.Put? then was[e.e.name := e.e.value] else was - {e.n}
  }

  method Apply(t: HandleTable, es: seq<Edit>)
    requires t.Valid() && forall i :: 0 <= i < |es| ==> Hash(es[i]) < Pow2(32)
    modifies t
    ensures t.Valid() && t.m == Edited(old(t.m), es) && t.bits >= old(t.bits)
  {
    hide Pow2, Holds;
    assert es[..0] == [];
    for i := 0 to |es|
      invariant t.Valid() && t.m == Edited(old(t.m), es[..i]) && t.bits >= old(t.bits)
    {
      assert es[..i + 1][..i] == es[..i];
      match es[i] {
        case Put(e) => var was := t.Insert(e);
        case Take(n) => var was := t.Remove(n);
      }
    }
    assert es[..|es|] == es;
  }

  // What is done between call i and the next.
  function Between(edits: seq<seq<Edit>>, i: nat): seq<Edit> {
    if i < |edits| then edits[i] else []
  }

  ghost predicate Throughout(ms: seq<map<Name, int>>, n: Name) {
    forall i :: 0 <= i < |ms| ==> n in ms[i]
  }

  // What call c saw of map m.
  ghost predicate Saw(c: Call, m: map<Name, int>, v: seq<Entry>) {
    && Performed(c)
    && (forall n :: n in m ==> n.hash < Pow2(32) && (Has(v, n) <==> Visits(c, n.hash)))
    && (forall j, k :: 0 <= j < k < |v| ==> v[j].name != v[k].name)
    && forall j :: 0 <= j < |v| ==> v[j].name in m && m[v[j].name] == v[j].value
  }

  // One turn of the scan: a call, and then whatever else is done.
  method Turn(t: HandleTable, count: nat, state: nat, es: seq<Edit>) returns (v: seq<Entry>, after: nat, ghost c: Call)
    requires t.Valid() && count > 0 && state < END && forall i :: 0 <= i < |es| ==> Hash(es[i]) < Pow2(32)
    modifies t
    ensures t.Valid() && t.m == Edited(old(t.m), es) && t.bits >= old(t.bits)
    ensures c == Call(old(t.bits), count, state, after) && Saw(c, old(t.m), v) && state < after <= END
  {
    hide Pow2, Holds, Performed, Visits;
    NamesFit(t);
    v, after := t.ApplyToSomeEntries(count, state);
    c := Call(t.bits, count, state, after);
    CallAscends(c);
    StateBound(c);
    Apply(t, es);
  }

  lemma NamesFit(t: HandleTable)
    requires t.Valid()
    ensures t.bits <= 31 && forall n :: n in t.m ==> n.hash < Pow2(32)
  {
  }

  // The calls so far, each going on where the one before stopped.
  ghost predicate Underway(cs: seq<Call>, ms: seq<map<Name, int>>, visited: seq<seq<Entry>>, state: nat, bits: nat) {
    && |cs| == |ms| == |visited| && (cs == [] ==> state == 0)
    && (cs != [] ==> cs[0].before == 0 && cs[|cs| - 1].after == state)
    && (forall i :: 0 <= i < |cs| ==> Saw(cs[i], ms[i], visited[i]) && cs[i].bits <= bits)
    && forall i :: 0 <= i < |cs| - 1 ==>
          cs[i].after != END && cs[i + 1].before == cs[i].after && cs[i].bits <= cs[i + 1].bits
  }

  lemma GoOn(cs: seq<Call>, ms: seq<map<Name, int>>, visited: seq<seq<Entry>>, state: nat, bits: nat,
             c: Call, m: map<Name, int>, v: seq<Entry>, bits2: nat)
    requires Underway(cs, ms, visited, state, bits) && state != END && Saw(c, m, v) && c.before == state
    requires c.bits == bits <= bits2
    ensures Underway(cs + [c], ms + [m], visited + [v], c.after, bits2)
  {
    hide Saw;
  }

  lemma Complete(cs: seq<Call>, ms: seq<map<Name, int>>, visited: seq<seq<Entry>>, bits: nat)
    requires Underway(cs, ms, visited, END, bits)
    ensures Scan(cs)
  {
    hide Performed;
  }

  lemma SeenOnce(cs: seq<Call>, ms: seq<map<Name, int>>, visited: seq<seq<Entry>>, bits: nat, n: Name)
    requires Underway(cs, ms, visited, END, bits) && Scan(cs) && Throughout(ms, n)
    ensures exists k :: 0 <= k < |visited| && Has(visited[k], n)
  {
    hide Performed, Visits, Has;
    assert n in ms[0] && Saw(cs[0], ms[0], visited[0]);
    var k := ExactlyOnce(cs, n.hash);
    assert Saw(cs[k], ms[k], visited[k]);
  }

  lemma SeenInMap(c: Call, m: map<Name, int>, v: seq<Entry>, n: Name)
    requires Saw(c, m, v)
    ensures Has(v, n) ==> n in m && n.hash < Pow2(32) && Visits(c, n.hash)
  {
    hide Performed, Visits;
  }

  lemma NeverTwice(cs: seq<Call>, ms: seq<map<Name, int>>, visited: seq<seq<Entry>>, bits: nat, n: Name, i: int, j: int)
    requires Underway(cs, ms, visited, END, bits) && Scan(cs) && 0 <= i < j < |visited|
    ensures !(Has(visited[i], n) && Has(visited[j], n))
  {
    hide Performed, Visits, Has, Saw;
    SeenInMap(cs[i], ms[i], visited[i], n);
    SeenInMap(cs[j], ms[j], visited[j], n);
    if n.hash < Pow2(32) {
      var k := ExactlyOnce(cs, n.hash);
    }
  }

  // A scan with anything inserted and removed between its calls.  Whatever is in the table at every call is
  // visited, and nothing is visited twice, however far the table has grown meanwhile.
  method Walk(t: HandleTable, count: nat, edits: seq<seq<Edit>>)
      returns (visited: seq<seq<Entry>>, ghost ms: seq<map<Name, int>>)
    requires t.Valid() && count > 0
    requires forall i, j :: 0 <= i < |edits| && 0 <= j < |edits[i]| ==> Hash(edits[i][j]) < Pow2(32)
    modifies t
    ensures t.Valid() && |visited| == |ms| > 0 && ms[0] == old(t.m)
    ensures t.m == Edited(ms[|ms| - 1], Between(edits, |ms| - 1))
    ensures forall i :: 0 <= i < |ms| - 1 ==> ms[i + 1] == Edited(ms[i], Between(edits, i))
    ensures forall n :: Throughout(ms, n) ==> exists k :: 0 <= k < |visited| && Has(visited[k], n)
    ensures forall n, i, j :: 0 <= i < j < |visited| ==> !(Has(visited[i], n) && Has(visited[j], n))
    ensures forall i, j, k :: 0 <= i < |visited| && 0 <= j < k < |visited[i]| ==>
      visited[i][j].name != visited[i][k].name
    ensures forall i, j :: 0 <= i < |visited| && 0 <= j < |visited[i]| ==>
      visited[i][j].name in ms[i] && ms[i][visited[i][j].name] == visited[i][j].value
  {
    hide Pow2, Holds, Performed, Visits, Has, Saw, Edited, Throughout;
    var state := 0;
    ghost var cs: seq<Call> := [];
    visited, ms := [], [];
    ghost var m := t.m;
    NamesFit(t);
    while state != END
      invariant t.Valid() && state <= END && Underway(cs, ms, visited, state, t.bits)
      invariant (ms != [] ==> ms[0] == old(t.m))
      invariant ms == [] ==> t.m == old(t.m)
      invariant ms != [] ==> t.m == Edited(ms[|ms| - 1], Between(edits, |ms| - 1))
      invariant forall i :: 0 <= i < |ms| - 1 ==> ms[i + 1] == Edited(ms[i], Between(edits, i))
      decreases END - state
    {
      var v, after;
      ghost var c, was, bits := Call(0, 0, 0, 0), t.m, t.bits;
      v, after, c := Turn(t, count, state, Between(edits, |visited|));
      GoOn(cs, ms, visited, state, bits, c, was, v, t.bits);
      cs, ms, visited, state := cs + [c], ms + [was], visited + [v], after;
    }
    Complete(cs, ms, visited, t.bits);
    forall n | Throughout(ms, n) ensures exists k :: 0 <= k < |visited| && Has(visited[k], n) {
      SeenOnce(cs, ms, visited, t.bits, n);
    }
    forall n, i, j | 0 <= i < j < |visited| ensures !(Has(visited[i], n) && Has(visited[j], n)) {
      NeverTwice(cs, ms, visited, t.bits, n, i, j);
    }
    forall i | 0 <= i < |visited| ensures Entries(visited[i], ms[i]) {
      SawEntries(cs[i], ms[i], visited[i]);
    }
  }

  ghost predicate Entries(v: seq<Entry>, m: map<Name, int>) {
    && (forall j, k :: 0 <= j < k < |v| ==> v[j].name != v[k].name)
    && forall j :: 0 <= j < |v| ==> v[j].name in m && m[v[j].name] == v[j].value
  }

  lemma SawEntries(c: Call, m: map<Name, int>, v: seq<Entry>)
    requires Saw(c, m, v)
    ensures Entries(v, m)
  {
  }
}
