/** The scopes form a forest: inside one function every block but the root stands in exactly one
list, at exactly one position. */
module Forest {
  import opened Helpers
  import opened Syntax
  import opened Scoping
  import opened Scopes

  /** The child of a block that stands at a position of its list. */
  lemma {:induction false} StatChildAt(s: Stat, n: nat, i: nat) returns (j: nat)
    requires n <= |s.nodes| && i < |StatElements(s, n)| && StatElements(s, n)[i].BlockE?
    ensures j < n && s.nodes[j].Sub? && s.nodes[j].block.id == StatElements(s, n)[i].id && i == |StatElements(s, j)|
  {
    if i < |StatElements(s, n - 1)| {
      j := StatChildAt(s, n - 1, i);
    } else {
      j := n - 1;
    }
  }

  lemma {:induction false} ChildAt(b: Block, n: nat, i: nat) returns (k: nat, j: nat)
    requires n <= |b.stats| && i < |ElementsUpTo(b, n)| && ElementsUpTo(b, n)[i].BlockE?
    ensures k < n && j < |b.stats[k].nodes| && b.stats[k].nodes[j].Sub?
    ensures b.stats[k].nodes[j].block.id == ElementsUpTo(b, n)[i].id
    ensures i == |ElementsUpTo(b, k)| + |StatElements(b.stats[k], j)|
  {
    var s := b.stats[n - 1];
    var front := ElementsUpTo(b, n - 1);
    if i < |front| {
      k, j := ChildAt(b, n - 1, i);
    } else {
      k := n - 1;
      assert ElementsUpTo(b, n)[i] == StatElements(s, |s.nodes|)[i - |front|];
      j := StatChildAt(s, |s.nodes|, i - |front|);
    }
  }

  function Child(b: Block, k: nat, j: nat): Block
    requires k < |b.stats| && j < |b.stats[k].nodes|
  {
    b.stats[k].nodes[j].block
  }

  lemma ChildIds(b: Block, k: nat, j: nat, k': nat, j': nat)
    requires Distinct(b) && k < |b.stats| && j < |b.stats[k].nodes| && k' < |b.stats| && j' < |b.stats[k'].nodes|
    ensures Own(Child(b, k, j)) <= Ids(b) && b.id !in Own(Child(b, k, j))
    ensures (k, j) != (k', j') ==> Own(Child(b, k, j)) !! Own(Child(b, k', j'))
    ensures Child(b, k, j).id in Own(Child(b, k, j)) && Distinct(Child(b, k, j))
  {
    hide Ids, StatIds, Own, Distinct;
    OwnWithinIds(Child(b, k, j));
    OwnWithinIds(Child(b, k', j'));
    ChildInIds(b, k, j);
    ChildInIds(b, k', j');
    RootIn(Child(b, k, j));
    IdsApart(b, k, j, k', j');
  }

  lemma ChildInIds(b: Block, k: nat, j: nat)
    requires k < |b.stats| && j < |b.stats[k].nodes|
    ensures Ids(Child(b, k, j)) <= StatIds(b.stats[k]) <= Ids(b)
  {
    var s := b.stats[k];
    assert forall x | x in Ids(s.nodes[j].block) :: x in StatIds(s);
    assert forall x | x in StatIds(b.stats[k]) :: x in Ids(b);
  }

  lemma IdsApart(b: Block, k: nat, j: nat, k': nat, j': nat)
    requires Distinct(b) && k < |b.stats| && j < |b.stats[k].nodes| && k' < |b.stats| && j' < |b.stats[k'].nodes|
    ensures (k, j) != (k', j') ==> Ids(Child(b, k, j)) !! Ids(Child(b, k', j'))
    ensures b.id !in StatIds(b.stats[k]) && Distinct(Child(b, k, j))
  {
    hide Ids, StatIds;
    ChildInIds(b, k, j);
    ChildInIds(b, k', j');
    assert DistinctStat(b.stats[k]);
  }

  /** A block below `b` is below one of its children. */
  lemma OwnerChild(b: Block, p: BlockId) returns (k: nat, j: nat)
    requires p in Own(b) && p != b.id
    ensures k < |b.stats| && j < |b.stats[k].nodes| && b.stats[k].nodes[j].Sub? && p in Own(Child(b, k, j))
  {
    k :| 0 <= k < |b.stats| && p in StatOwn(b.stats[k]);
    j :| 0 <= j < |b.stats[k].nodes| && b.stats[k].nodes[j].Sub? && p in Own(b.stats[k].nodes[j].block);
  }

  lemma TabledChild(b: Block, m: Elements, k: nat, j: nat)
    requires Tabled(b, m) && k < |b.stats| && j < |b.stats[k].nodes| && b.stats[k].nodes[j].Sub?
    ensures Tabled(Child(b, k, j), m) && Own(Child(b, k, j)) <= Own(b)
  {
    assert TabledStat(b.stats[k], m);
    assert forall x | x in Own(Child(b, k, j)) :: x in StatOwn(b.stats[k]) && x in Own(b);
  }

  /** The lists of a function name only blocks of that function, and never its root. */
  lemma {:induction false} ListedIsBelow(b: Block, m: Elements, p: BlockId, i: nat)
    requires Tabled(b, m) && Distinct(b) && p in Own(b) && p in m && i < |m[p]| && m[p][i].BlockE?
    ensures m[p][i].id in Own(b) && m[p][i].id != b.id
  {
    hide Own, Tabled, Distinct, ElementsUpTo, StatElements;
    TabledRoot(b, m);
    if p == b.id {
      var k, j := ChildAt(b, |b.stats|, i);
      ChildIds(b, k, j, k, j);
      TabledChild(b, m, k, j);
    } else {
      var k, j := OwnerChild(b, p);
      ChildIds(b, k, j, k, j);
      TabledChild(b, m, k, j);
      ListedIsBelow(Child(b, k, j), m, p, i);
    }
  }

  lemma TabledRoot(b: Block, m: Elements)
    requires Tabled(b, m)
    ensures b.id in m && m[b.id] == ElementsUpTo(b, |b.stats|)
  {
  }

  /** Every block but the root stands in a list of its function. */
  lemma {:induction false} Listed(b: Block, m: Elements, d: BlockId) returns (p: BlockId, i: nat)
    requires Tabled(b, m) && d in Own(b) && d != b.id
    ensures p in Own(b) && p in m && i < |m[p]| && m[p][i] == BlockE(d)
  {
    hide Own, Tabled, ElementsUpTo, StatElements;
    var k, j := OwnerChild(b, d);
    TabledChild(b, m, k, j);
    TabledRoot(b, m);
    if d == Child(b, k, j).id {
      p := b.id;
      i := ChildPosition(b, k, j, |b.stats|);
      RootIn(b);
    } else {
      p, i := Listed(Child(b, k, j), m, d);
    }
  }

  lemma RootIn(b: Block)
    ensures b.id in Own(b)
  {
  }

  lemma {:induction false} StatChildPosition(s: Stat, j: nat, n: nat) returns (i: nat)
    requires j < n <= |s.nodes| && s.nodes[j].Sub?
    ensures i < |StatElements(s, n)| && StatElements(s, n)[i] == BlockE(s.nodes[j].block.id)
  {
    if j == n - 1 {
      i := |StatElements(s, n - 1)|;
    } else {
      i := StatChildPosition(s, j, n - 1);
    }
  }

  lemma {:induction false} ChildPosition(b: Block, k: nat, j: nat, n: nat) returns (i: nat)
    requires k < n <= |b.stats| && j < |b.stats[k].nodes| && b.stats[k].nodes[j].Sub?
    ensures i < |ElementsUpTo(b, n)| && ElementsUpTo(b, n)[i] == BlockE(Child(b, k, j).id)
  {
    if k == n - 1 {
      var i' := StatChildPosition(b.stats[k], j, |b.stats[k].nodes|);
      i := |ElementsUpTo(b, n - 1)| + i';
    } else {
      i := ChildPosition(b, k, j, n - 1);
    }
  }

  /** And it stands there only once. */
  lemma {:induction false} ListedOnce(b: Block, m: Elements, p: BlockId, i: nat, p': BlockId, i': nat)
    requires Tabled(b, m) && Distinct(b) && p in Own(b) && p' in Own(b)
    requires p in m && i < |m[p]| && m[p][i].BlockE? && p' in m && i' < |m[p']| && m[p'][i'] == m[p][i]
    ensures p == p' && i == i'
  {
    hide Own, Tabled, Distinct, ElementsUpTo, StatElements;
    TabledRoot(b, m);
    var k, j, k', j';
    if p == b.id {
      k, j := ChildAt(b, |b.stats|, i);
    } else {
      k, j := OwnerChild(b, p);
    }
    if p' == b.id {
      k', j' := ChildAt(b, |b.stats|, i');
    } else {
      k', j' := OwnerChild(b, p');
    }
    TabledChild(b, m, k, j);
    TabledChild(b, m, k', j');
    ChildIds(b, k, j, k', j');
    ChildIds(b, k', j', k, j);
    if p != b.id {
      ListedIsBelow(Child(b, k, j), m, p, i);
    }
    if p' != b.id {
      ListedIsBelow(Child(b, k', j'), m, p', i');
    }
    assert (k, j) == (k', j');
    if p != b.id && p' != b.id {
      ListedOnce(Child(b, k, j), m, p, i, p', i');
    }
  }

  /** Where a nested block stands in the list of its parent. */
  function Pos(b: Block, k: nat, j: nat): nat
    requires k < |b.stats| && j < |b.stats[k].nodes|
  {
    |ElementsUpTo(b, k)| + |StatElements(b.stats[k], j)|
  }

  lemma {:induction false} StatPrefix(s: Stat, j: nat, n: nat)
    requires j <= n <= |s.nodes|
    ensures StatElements(s, j) <= StatElements(s, n)
  {
    if j < n {
      StatPrefix(s, j, n - 1);
    }
  }

  lemma {:induction false} Prefix(b: Block, k: nat, n: nat)
    requires k <= n <= |b.stats|
    ensures ElementsUpTo(b, k) <= ElementsUpTo(b, n)
  {
    if k < n {
      Prefix(b, k, n - 1);
    }
  }

  lemma PosListed(b: Block, k: nat, j: nat)
    requires k < |b.stats| && j < |b.stats[k].nodes| && b.stats[k].nodes[j].Sub?
    ensures Pos(b, k, j) < |ElementsOf(b)| && ElementsOf(b)[Pos(b, k, j)] == BlockE(Child(b, k, j).id)
  {
    var s := b.stats[k];
    StatPrefix(s, j + 1, |s.nodes|);
    Prefix(b, k + 1, |b.stats|);
    var p := |StatElements(s, j)|;
    assert StatElements(s, j + 1)[p] == BlockE(s.nodes[j].block.id);
    assert StatElements(s, |s.nodes|)[p] == BlockE(s.nodes[j].block.id);
    assert ElementsUpTo(b, k + 1)[|ElementsUpTo(b, k)| + p] == BlockE(s.nodes[j].block.id);
  }

  lemma PosInjective(b: Block, k: nat, j: nat, k': nat, j': nat)
    requires Distinct(b) && k < |b.stats| && j < |b.stats[k].nodes| && b.stats[k].nodes[j].Sub?
    requires k' < |b.stats| && j' < |b.stats[k'].nodes| && b.stats[k'].nodes[j'].Sub?
    requires Pos(b, k, j) == Pos(b, k', j')
    ensures k == k' && j == j'
  {
    hide Own, Distinct, ElementsUpTo, StatElements;
    PosListed(b, k, j);
    PosListed(b, k', j');
    ChildIds(b, k, j, k', j');
    ChildIds(b, k', j', k, j);
  }

  /** What the statement at index `k` itself puts in the list of its block. */
  lemma KindPosition(b: Block, k: nat)
    requires k < |b.stats| && KindElements(b.stats[k].kind) != []
    ensures |ElementsUpTo(b, k)| < |ElementsOf(b)|
    ensures ElementsOf(b)[|ElementsUpTo(b, k)|] == KindElements(b.stats[k].kind)[0]
  {
    var s := b.stats[k];
    StatPrefix(s, 0, |s.nodes|);
    Prefix(b, k + 1, |b.stats|);
    assert StatElements(s, |s.nodes|)[0] == KindElements(s.kind)[0];
    assert ElementsUpTo(b, k + 1)[|ElementsUpTo(b, k)|] == KindElements(s.kind)[0];
  }

  lemma {:induction false} StatLabelListed(s: Stat, n: nat, l: Name)
    requires n <= |s.nodes|
    ensures LabelE(l) in StatElements(s, n) <==> s.kind == Kind.Label(l)
  {
    if n == 0 {
      var es := KindElements(s.kind);
      if s.kind == Kind.Label(l) {
        assert es[0] == LabelE(l);
      }
    } else {
      StatLabelListed(s, n - 1, l);
    }
  }

  lemma {:induction false} LabelListed(b: Block, n: nat, l: Name)
    requires n <= |b.stats|
    ensures LabelE(l) in ElementsUpTo(b, n) <==> exists i :: 0 <= i < n && b.stats[i].kind == Kind.Label(l)
  {
    if n > 0 {
      LabelListed(b, n - 1, l);
      StatLabelListed(b.stats[n - 1], |b.stats[n - 1].nodes|, l);
    }
  }

  /** The labels of a block are those in its list. */
  lemma LabelsListed(b: Block, l: Name)
    ensures LabelE(l) in ElementsOf(b) <==> l in LabelNames(b)
  {
    LabelListed(b, |b.stats|, l);
    if l in LabelNames(b) {
      var i :| 0 <= i < |b.stats| && b.stats[i].kind.Label? && b.stats[i].kind.mark == l;
      assert b.stats[i].kind == Kind.Label(l);
    }
    if i :| 0 <= i < |b.stats| && b.stats[i].kind == Kind.Label(l) {
      assert b.stats[i].kind.mark == l;
    }
  }

  // ----- different functions have different blocks -----

  /** The functions have pairwise disjoint blocks, all among `within` and none among `avoid`. */
  ghost predicate Apart(fs: seq<Block>, within: set<BlockId>, avoid: set<BlockId>) {
    && (forall i | 0 <= i < |fs| :: Own(fs[i]) <= within && Own(fs[i]) !! avoid && Distinct(fs[i]))
    && (forall i, j | 0 <= i < j < |fs| :: Own(fs[i]) !! Own(fs[j]))
  }

  lemma ApartNone(within: set<BlockId>, avoid: set<BlockId>)
    ensures Apart([], within, avoid)
  {
  }

  lemma ApartAppend(fs: seq<Block>, gs: seq<Block>, x: set<BlockId>, y: set<BlockId>, avoid: set<BlockId>)
    requires Apart(fs, x, avoid) && Apart(gs, y, avoid) && x !! y
    ensures Apart(fs + gs, x + y, avoid)
  {
    hide Own, Distinct;
    var all := fs + gs;
    assert forall i | |fs| <= i < |all| :: all[i] == gs[i - |fs|];
  }

  /** The children of a statement up to `j`. */
  ghost function IdsUpTo(s: Stat, j: nat): set<BlockId>
    requires j <= |s.nodes|
  {
    set k, x | 0 <= k < j && x in Ids(s.nodes[k].block) :: x
  }

  lemma IdsUpToStep(s: Stat, j: nat)
    requires DistinctStat(s) && j < |s.nodes|
    ensures IdsUpTo(s, j + 1) == IdsUpTo(s, j) + Ids(s.nodes[j].block) && IdsUpTo(s, j) !! Ids(s.nodes[j].block)
    ensures IdsUpTo(s, |s.nodes|) == StatIds(s)
  {
  }

  /** What is among a child's blocks is a block of the statement's own only if the child is a block. */
  lemma NodeAvoids(s: Stat, j: nat, x: BlockId)
    requires DistinctStat(s) && j < |s.nodes| && x in Ids(s.nodes[j].block) && x in StatOwn(s)
    ensures s.nodes[j].Sub? && x in Own(s.nodes[j].block)
  {
    var k :| 0 <= k < |s.nodes| && s.nodes[k].Sub? && x in Own(s.nodes[k].block);
    OwnWithinIds(s.nodes[k].block);
    assert k == j;
  }

  lemma {:induction false} NodeFuncsApart(s: Stat, j: nat)
    requires DistinctStat(s) && j < |s.nodes|
    ensures Apart((if s.nodes[j].Func? then [s.nodes[j].block] else []) + Funcs(s.nodes[j].block),
                  Ids(s.nodes[j].block), StatOwn(s))
    decreases s, 0
  {
    hide Own, Ids, StatOwn, FuncsUpTo;
    var n := s.nodes[j];
    var b := n.block;
    assert Distinct(b);
    FuncsApart(b);
    OwnWithinIds(b);
    var fs := Funcs(b);
    var all := (if n.Func? then [b] else []) + fs;
    assert !n.Func? ==> all == fs;
    assert n.Func? ==> all[0] == b && forall i | 1 <= i < |all| :: all[i] == fs[i - 1];
    forall i | 0 <= i < |all| ensures Own(all[i]) !! StatOwn(s) && Own(all[i]) <= Ids(b) && Distinct(all[i]) {
      forall x | x in Own(all[i]) ensures x !in StatOwn(s) {
        if x in StatOwn(s) {
          NodeAvoids(s, j, x);
        }
      }
    }
  }

  lemma {:induction false} StatFuncsApart(s: Stat, j: nat)
    requires DistinctStat(s) && j <= |s.nodes|
    ensures Apart(StatFuncs(s, j), IdsUpTo(s, j), StatOwn(s))
    decreases s, 1, j
  {
    hide Own, Ids, StatIds, StatOwn, IdsUpTo, Apart, DistinctStat;
    ApartNone(IdsUpTo(s, 0), StatOwn(s));
    if j > 0 {
      StatFuncsApart(s, j - 1);
      NodeFuncsApart(s, j - 1);
      IdsUpToStep(s, j - 1);
      var n := s.nodes[j - 1];
      var gs := (if n.Func? then [n.block] else []) + Funcs(n.block);
      ApartAppend(StatFuncs(s, j - 1), gs, IdsUpTo(s, j - 1), Ids(n.block), StatOwn(s));
      assert StatFuncs(s, j) == StatFuncs(s, j - 1) + gs;
    }
  }

  ghost function BlockIdsUpTo(b: Block, i: nat): set<BlockId>
    requires i <= |b.stats|
  {
    set k, x | 0 <= k < i && x in StatIds(b.stats[k]) :: x
  }

  lemma BlockIdsStep(b: Block, i: nat)
    requires Distinct(b) && i < |b.stats|
    ensures BlockIdsUpTo(b, i + 1) == BlockIdsUpTo(b, i) + StatIds(b.stats[i])
        && BlockIdsUpTo(b, i) !! StatIds(b.stats[i])
    ensures BlockIdsUpTo(b, |b.stats|) <= Ids(b)
  {
  }

  lemma StatAvoids(b: Block, i: nat, x: BlockId)
    requires Distinct(b) && i < |b.stats| && x in StatIds(b.stats[i]) && x in Own(b)
    ensures x in StatOwn(b.stats[i])
  {
    var k :| 0 <= k < |b.stats| && x in StatOwn(b.stats[k]);
    StatOwnWithinIds(b.stats[k]);
    assert k == i;
  }

  lemma {:induction false} FuncsUpToApart(b: Block, i: nat)
    requires Distinct(b) && i <= |b.stats|
    ensures Apart(FuncsUpTo(b, i), BlockIdsUpTo(b, i), Own(b))
    decreases b, 0, i
  {
    hide Own, Ids, StatIds, StatOwn, BlockIdsUpTo, IdsUpTo, Apart, DistinctStat, StatFuncs;
    ApartNone(BlockIdsUpTo(b, 0), Own(b));
    if i > 0 {
      var s := b.stats[i - 1];
      var gs := StatFuncs(s, |s.nodes|);
      FuncsUpToApart(b, i - 1);
      StatFuncsApart(s, |s.nodes|);
      StatIdsWhole(s);
      BlockIdsStep(b, i - 1);
      AvoidOwn(b, i - 1, gs);
      ApartAppend(FuncsUpTo(b, i - 1), gs, BlockIdsUpTo(b, i - 1), StatIds(s), Own(b));
    }
  }

  lemma StatIdsWhole(s: Stat)
    ensures IdsUpTo(s, |s.nodes|) == StatIds(s)
  {
  }

  lemma AvoidOwn(b: Block, i: nat, gs: seq<Block>)
    requires Distinct(b) && i < |b.stats| && Apart(gs, StatIds(b.stats[i]), StatOwn(b.stats[i]))
    ensures Apart(gs, StatIds(b.stats[i]), Own(b))
  {
    hide Own, Ids, StatIds, StatOwn;
    forall k, x | 0 <= k < |gs| && x in Own(gs[k]) ensures x !in Own(b) {
      if x in Own(b) {
        StatAvoids(b, i, x);
      }
    }
  }

  /** All functions under a block have blocks of their own. */
  lemma {:induction false} FuncsApart(b: Block)
    requires Distinct(b)
    ensures Apart(Funcs(b), Ids(b), Own(b))
    decreases b, 1
  {
    hide Own, Ids, StatIds, StatOwn, Distinct;
    FuncsUpToApart(b, |b.stats|);
    BlockIdsWhole(b);
  }

  lemma BlockIdsWhole(b: Block)
    ensures BlockIdsUpTo(b, |b.stats|) <= Ids(b)
  {
  }
}
