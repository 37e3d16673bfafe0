/** The public interface of the index, and runs of it: a finite map on disk. */
module BptMap {
  import opened Arith
  import opened BptLevels
  import opened BptTree
  import opened BptBlock
  import opened BptDisk
  import opened BptSearch
  import opened BptPut
  import opened BptDeletion

  // ---------------------------------------------------------------- opening

  const NODE_SIZE := 40   // sizeof(struct bplus_node) with 8-byte off_t
  const PAIR_SIZE := 12   // sizeof(key_t) + sizeof(off_t), and sizeof(key_t) + sizeof(long)

  // a & b
  function And(a: nat, b: nat): (r: nat)
  {
    if a == 0 || b == 0 then 0 else (a % 2) * (b % 2) + 2 * And(a / 2, b / 2)
  }

  predicate PowerOfTwo(n: nat) {
    n == 1 || (n > 0 && n % 2 == 0 && PowerOfTwo(n / 2))
  }

  lemma {:induction false} AndSelf(n: nat)
    ensures And(n, n) == n
  {
    if n > 0 {
      AndSelf(n / 2);
    }
  }

  // The test bplus_tree_init makes accepts exactly the powers of two, and zero.
  lemma {:induction false} AndTest(n: nat)
    requires n > 0
    ensures And(n, n - 1) == 0 <==> PowerOfTwo(n)
  {
    if n == 1 {
    } else if n % 2 == 0 {
      assert (n - 1) / 2 == n / 2 - 1 && (n - 1) % 2 == 1;
      AndTest(n / 2);
    } else {
      assert (n - 1) / 2 == n / 2 && (n - 1) % 2 == 0;
      AndSelf(n / 2);
    }
  }

  // There is no power of two strictly between two neighbouring ones.
  lemma {:induction false} NextPower(n: nat, k: nat)
    requires PowerOfTwo(n) && n > Pow2(k)
    ensures n >= Pow2(k + 1) && n % 2 == 0
  {
    if k > 0 {
      NextPower(n / 2, k - 1);
    }
  }

  function Config(blockSize: int): (c: Cfg) {
    Cfg(blockSize, (blockSize - NODE_SIZE) / PAIR_SIZE, (blockSize - NODE_SIZE) / PAIR_SIZE)
  }

  method Init(blockSize: int, junk: Block) returns (t: Tree?)
    ensures t != null <==> blockSize >= 128 && PowerOfTwo(blockSize)
    ensures t != null ==>
      fresh(t) && Valid(t) && Map(t) == map[] && t.c == Config(blockSize) && t.c.order == t.c.entries >= 7
  {
    t := null;
    if blockSize <= 0 || And(blockSize, blockSize - 1) != 0 {
      if blockSize > 0 { AndTest(blockSize); }
      return;
    }
    AndTest(blockSize);
    if blockSize < NODE_SIZE {
      return;
    }
    if Config(blockSize).order <= 2 {
      return;
    }
    assert Pow2(6) == 64;
    NextPower(blockSize, 6);
    t := new Tree(Config(blockSize), junk);
  }

  // ---------------------------------------------------------------- put

  method Put(t: Tree, key: int, data: int) returns (ret: int)
    requires Valid(t) && MIN_KEY <= key
    modifies t
    ensures Valid(t) && ret == SpecReturn(old(Map(t)), PutOp(key, data))
    ensures Map(t) == SpecMap(old(Map(t)), PutOp(key, data))
    ensures ret == -1 ==> t.disk == old(t.disk)
  {
    hide Tree.Buffers, Tree.OnDisk, Tree.Allocation, Count, View, WellFormed, Content;
    if data != 0 {
      ret := TreeInsert(t, key, data);
    } else {
      ret := TreeDelete(t, key);
    }
  }

  // ---------------------------------------------------------------- runs

  datatype Op = PutOp(key: int, data: int) | GetOp(key: int)

  ghost function SpecMap(m: map<int, int>, op: Op): map<int, int> {
    match op
    case PutOp(key, data) =>
      if data != 0 then (if key in m then m else m[key := data]) else m - {key}
    case GetOp(_) => m
  }

  ghost function SpecReturn(m: map<int, int>, op: Op): int {
    match op
    case PutOp(key, data) => if (key in m) == (data != 0) then -1 else 0
    case GetOp(key) => if key in m then ToInt32(m[key]) else -1
  }

  ghost function RunMap(m: map<int, int>, ops: seq<Op>): map<int, int> {
    if ops == [] then m else SpecMap(RunMap(m, ops[..|ops| - 1]), ops[|ops| - 1])
  }

  ghost function RunReturns(m: map<int, int>, ops: seq<Op>): seq<int> {
    if ops == [] then []
    else RunReturns(m, ops[..|ops| - 1]) + [SpecReturn(RunMap(m, ops[..|ops| - 1]), ops[|ops| - 1])]
  }

  // A get gives back what was put exactly if the value is an int,
  lemma GetExact(m: map<int, int>, key: int)
    requires key in m
    ensures SpecReturn(m, GetOp(key)) == m[key] <==> -0x8000_0000 <= m[key] < 0x8000_0000
  {
  }

  // and reports a key as absent exactly if it is, or if the low 32 bits of its value are all ones.
  lemma GetAbsent(m: map<int, int>, key: int)
    ensures SpecReturn(m, GetOp(key)) == -1 <==> key !in m || (m[key] + 1) % 0x1_0000_0000 == 0
  {
    if key in m {
      var x := m[key];
      assert (x + 0x8000_0000) % 0x1_0000_0000 == 0x7fff_ffff <==> (x + 1) % 0x1_0000_0000 == 0;
    }
  }

  // Such a value, put and read back at once.
  lemma StoredReadsAbsent(key: int)
    ensures RunReturns(map[], [PutOp(key, 0xffff_ffff), GetOp(key)]) == [0, -1]
    ensures RunMap(map[], [PutOp(key, 0xffff_ffff), GetOp(key)]) == map[key := 0xffff_ffff]
  {
    var ops := [PutOp(key, 0xffff_ffff), GetOp(key)];
    assert ops[..1] == [PutOp(key, 0xffff_ffff)] && ops[..1][..0] == [];
    assert RunMap(map[], ops[..1]) == map[key := 0xffff_ffff];
    assert RunReturns(map[], ops[..1]) == [0];
    assert ToInt32(0xffff_ffff) == -1;
  }

  // Any sequence of calls behaves as on a finite map, whatever the map's history.
  method Run(t: Tree, ops: seq<Op>) returns (rets: seq<int>)
    requires Valid(t) && forall i :: 0 <= i < |ops| ==> MIN_KEY <= ops[i].key
    modifies t
    ensures Valid(t) && Map(t) == RunMap(old(Map(t)), ops) && rets == RunReturns(old(Map(t)), ops)
  {
    hide Tree.Buffers, Tree.OnDisk, Tree.Allocation, Count, View, WellFormed, Content;
    rets := [];
    assert ops[..0] == [];
    for i := 0 to |ops|
      invariant Valid(t) && Map(t) == RunMap(old(Map(t)), ops[..i]) && rets == RunReturns(old(Map(t)), ops[..i])
    {
      assert ops[..i + 1][..i] == ops[..i];
      var r;
      match ops[i] {
        case PutOp(key, data) => r := Put(t, key, data);
        case GetOp(key) => r := Get(t, key);
      }
      rets := rets + [r];
    }
    assert ops[..|ops|] == ops;
  }
}
