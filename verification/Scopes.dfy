/** The scopes that the analyser builds: per function, a map from its blocks to the gotos, labels,
locals and nested blocks that stand in them, in source order. */
module Scopes {
  import opened Helpers
  import opened Syntax
  import opened Scoping

  datatype Element = GotoE(target: Name) | LabelE(name: Name) | LocalE(name: Name) | BlockE(id: BlockId)

  type Elements = map<BlockId, seq<Element>>

  datatype Scope = Scope(elements: Elements, root: BlockId)

  function ListAt(m: Elements, id: BlockId): seq<Element> {
    if id in m then m[id] else []
  }

  function Locals(ns: seq<Name>): seq<Element> {
    seq(|ns|, i requires 0 <= i < |ns| => LocalE(ns[i]))
  }

  /** Elements are added to the list of block `ctx` in one of the scopes. */
  function Pushed(scopes: seq<Scope>, cur: nat, ctx: BlockId, es: seq<Element>): seq<Scope>
    requires cur < |scopes|
  {
    var m := scopes[cur].elements;
    scopes[cur := scopes[cur].(elements := m[ctx := ListAt(m, ctx) + es])]
  }

  lemma PushedMore(scopes: seq<Scope>, cur: nat, ctx: BlockId, es: seq<Element>, es': seq<Element>)
    requires cur < |scopes|
    ensures Pushed(Pushed(scopes, cur, ctx, es), cur, ctx, es') == Pushed(scopes, cur, ctx, es + es')
    ensures ctx in scopes[cur].elements ==> Pushed(scopes, cur, ctx, []) == scopes
  {
    var m := scopes[cur].elements;
    var l := ListAt(m, ctx);
    assert l + es + es' == l + (es + es') && l + [] == l;
    assert m[ctx := l + es][ctx := l + es + es'] == m[ctx := l + (es + es')];
    if ctx in m {
      assert m[ctx := l + []] == m;
    }
  }

  /** What a statement itself contributes; a function statement counts as a local. */
  function KindElements(k: Kind): seq<Element> {
    match k
    case Goto(l) => [GotoE(l)]
    case Label(l) => [LabelE(l)]
    case Function(n) => [LocalE(n)]
    case LocalFunction(n) => [LocalE(n)]
    case Local(ns) => Locals(ns)
    case _ => []
  }

  /** The contribution of a statement and its first `j` children. */
  function StatElements(s: Stat, j: nat): seq<Element>
    requires j <= |s.nodes|
  {
    if j == 0 then KindElements(s.kind)
    else StatElements(s, j - 1) + (if s.nodes[j - 1].Sub? then [BlockE(s.nodes[j - 1].block.id)] else [])
  }

  function ElementsUpTo(b: Block, i: nat): seq<Element>
    requires i <= |b.stats|
  {
    if i == 0 then [] else ElementsUpTo(b, i - 1) + StatElements(b.stats[i - 1], |b.stats[i - 1].nodes|)
  }

  function ElementsOf(b: Block): seq<Element> {
    ElementsUpTo(b, |b.stats|)
  }

  /** The map lists every block of the function under `b`. */
  ghost predicate Tabled(b: Block, m: Elements) {
    && b.id in m && m[b.id] == ElementsOf(b)
    && forall i | 0 <= i < |b.stats| :: TabledStat(b.stats[i], m)
  }

  ghost predicate TabledStat(s: Stat, m: Elements) {
    forall j | 0 <= j < |s.nodes| && s.nodes[j].Sub? :: Tabled(s.nodes[j].block, m)
  }

  lemma {:induction false} TabledStable(b: Block, m: Elements, m': Elements)
    requires Tabled(b, m) && forall id | id in Own(b) && id in m :: id in m' && m'[id] == m[id]
    ensures Tabled(b, m')
  {
    forall i | 0 <= i < |b.stats| ensures TabledStat(b.stats[i], m') {
      assert TabledStat(b.stats[i], m);
      assert forall id | id in StatOwn(b.stats[i]) :: id in Own(b);
      TabledStatStable(b.stats[i], m, m');
    }
  }

  lemma {:induction false} TabledStatStable(s: Stat, m: Elements, m': Elements)
    requires TabledStat(s, m) && forall id | id in StatOwn(s) && id in m :: id in m' && m'[id] == m[id]
    ensures TabledStat(s, m')
  {
    forall j | 0 <= j < |s.nodes| && s.nodes[j].Sub? ensures Tabled(s.nodes[j].block, m') {
      assert forall id | id in Own(s.nodes[j].block) :: id in StatOwn(s);
      TabledStable(s.nodes[j].block, m, m');
    }
  }

  lemma {:induction false} TabledHasOwn(b: Block, m: Elements)
    requires Tabled(b, m)
    ensures Own(b) <= m.Keys
  {
    forall i, x | 0 <= i < |b.stats| && x in StatOwn(b.stats[i]) ensures x in m {
      var s := b.stats[i];
      assert TabledStat(s, m);
      var j :| 0 <= j < |s.nodes| && s.nodes[j].Sub? && x in Own(s.nodes[j].block);
      TabledHasOwn(s.nodes[j].block, m);
    }
  }

  /** A scope holds exactly the blocks of one function. */
  ghost predicate ScopeOf(sc: Scope, root: Block) {
    sc.root == root.id && sc.elements.Keys == Own(root) && Tabled(root, sc.elements)
  }

  // ----- what a walk of the tree does to the scopes -----

  /** Block `b` was walked in the current scope, as a child of `parent` if there is one. */
  ghost predicate BlockListed(m: Elements, m': Elements, parent: Option<BlockId>, b: Block) {
    && m.Keys <= m'.Keys <= m.Keys + Own(b)
    && Tabled(b, m')
    && (forall id | id in m && id !in Own(b) && Some(id) != parent :: m'[id] == m[id])
    && (parent.Some? ==> parent.value in m && m'[parent.value] == m[parent.value] + [BlockE(b.id)])
  }

  /** The first `j` children of a statement of block `ctx` were walked. */
  ghost predicate StatListed(m: Elements, m': Elements, ctx: BlockId, s: Stat, j: nat)
    requires j <= |s.nodes|
  {
    && m.Keys <= m'.Keys <= m.Keys + StatOwn(s)
    && ctx in m && m'[ctx] == m[ctx] + StatElements(s, j)
    && (forall k | 0 <= k < j && s.nodes[k].Sub? :: Tabled(s.nodes[k].block, m'))
    && (forall id | id in m && id != ctx :: m'[id] == m[id])
    && (forall k | j <= k < |s.nodes| && s.nodes[k].Sub? :: forall id | id in Own(s.nodes[k].block) :: id !in m')
  }

  /** The first `i` statements of `b` were walked; block `b` was empty before. */
  ghost predicate StatsListed(m: Elements, m': Elements, b: Block, i: nat)
    requires i <= |b.stats|
  {
    && m.Keys <= m'.Keys <= m.Keys + Own(b)
    && b.id in m && m'[b.id] == ElementsUpTo(b, i)
    && (forall k | 0 <= k < i :: TabledStat(b.stats[k], m'))
    && (forall id | id in m && id != b.id :: m'[id] == m[id])
    && (forall k | i <= k < |b.stats| :: forall id | id in StatOwn(b.stats[k]) :: id !in m')
  }

  lemma OwnDisjoint(s: Stat, k: nat, j: nat)
    requires DistinctStat(s) && k < |s.nodes| && j < |s.nodes| && k != j
    ensures Own(s.nodes[k].block) !! Own(s.nodes[j].block)
  {
    OwnWithinIds(s.nodes[k].block);
    OwnWithinIds(s.nodes[j].block);
  }

  lemma NodeListed(m: Elements, m1: Elements, m2: Elements, ctx: BlockId, s: Stat, j: nat)
    requires DistinctStat(s) && j < |s.nodes| && ctx !in StatIds(s)
    requires StatListed(m, m1, ctx, s, j)
    requires if s.nodes[j].Sub? then BlockListed(m1, m2, Some(ctx), s.nodes[j].block) else m2 == m1
    ensures StatListed(m, m2, ctx, s, j + 1)
  {
    hide Tabled, Own, StatIds, StatOwn, DistinctStat;
    assert StatElements(s, j) + [] == StatElements(s, j);
    if s.nodes[j].Sub? {
      NodeInStat(s, j);
      forall k | 0 <= k < j && s.nodes[k].Sub? ensures Tabled(s.nodes[k].block, m2) {
        NodeKept(m1, m2, ctx, s, k, j);
        TabledStable(s.nodes[k].block, m1, m2);
      }
      forall k, id | j + 1 <= k < |s.nodes| && s.nodes[k].Sub? && id in Own(s.nodes[k].block) ensures id !in m2 {
        OwnDisjoint(s, j, k);
      }
    }
  }

  lemma NodeInStat(s: Stat, j: nat)
    requires j < |s.nodes| && s.nodes[j].Sub?
    ensures Own(s.nodes[j].block) <= StatOwn(s) && Own(s.nodes[j].block) <= StatIds(s)
  {
    OwnWithinIds(s.nodes[j].block);
    assert forall id | id in Own(s.nodes[j].block) :: id in StatOwn(s) && id in StatIds(s);
  }

  lemma NodeKept(m1: Elements, m2: Elements, ctx: BlockId, s: Stat, k: nat, j: nat)
    requires DistinctStat(s) && k < j < |s.nodes| && s.nodes[k].Sub? && s.nodes[j].Sub? && ctx !in StatIds(s)
    requires BlockListed(m1, m2, Some(ctx), s.nodes[j].block)
    ensures forall id | id in Own(s.nodes[k].block) && id in m1 :: id in m2 && m2[id] == m1[id]
  {
    OwnDisjoint(s, k, j);
    OwnWithinIds(s.nodes[k].block);
    assert forall id | id in Own(s.nodes[k].block) :: id in StatIds(s);
  }

  lemma StatOwnWithinIds(s: Stat)
    ensures StatOwn(s) <= StatIds(s)
  {
    forall x | x in StatOwn(s) ensures x in StatIds(s) {
      var j :| 0 <= j < |s.nodes| && s.nodes[j].Sub? && x in Own(s.nodes[j].block);
      OwnWithinIds(s.nodes[j].block);
    }
  }

  lemma StatListedInBlock(m: Elements, m1: Elements, m2: Elements, b: Block, i: nat)
    requires Distinct(b) && i < |b.stats|
    requires StatsListed(m, m1, b, i) && StatListed(m1, m2, b.id, b.stats[i], |b.stats[i].nodes|)
    ensures StatsListed(m, m2, b, i + 1)
  {
    hide Tabled, Own, StatOwn, StatIds, Distinct, StatElements;
    var s := b.stats[i];
    StatOwnInBlock(b, i);
    assert TabledStat(s, m2);
    forall k | 0 <= k < i ensures TabledStat(b.stats[k], m2) {
      StatOwnApart(b, k, i);
      TabledStatStable(b.stats[k], m1, m2);
    }
    forall k, id | i + 1 <= k < |b.stats| && id in StatOwn(b.stats[k]) ensures id !in m2 {
      StatOwnApart(b, i, k);
    }
  }

  lemma StatOwnInBlock(b: Block, i: nat)
    requires i < |b.stats|
    ensures StatOwn(b.stats[i]) <= Own(b)
  {
    assert forall id | id in StatOwn(b.stats[i]) :: id in Own(b);
  }

  lemma StatOwnApart(b: Block, k: nat, i: nat)
    requires Distinct(b) && k < i < |b.stats|
    ensures StatOwn(b.stats[k]) !! StatOwn(b.stats[i]) && b.id !in StatOwn(b.stats[k]) && b.id !in StatOwn(b.stats[i])
  {
    StatOwnWithinIds(b.stats[k]);
    StatOwnWithinIds(b.stats[i]);
  }

  lemma StatsListedInParent(m0: Elements, m: Elements, m': Elements, parent: Option<BlockId>, b: Block)
    requires StatsListed(m, m', b, |b.stats|)
    requires parent.Some? ==> parent.value in m0 && parent.value !in Own(b)
    requires m == (if parent.Some? then m0[parent.value := m0[parent.value] + [BlockE(b.id)]] else m0)[b.id := []]
    ensures BlockListed(m0, m', parent, b)
  {
    assert b.id in Own(b);
    if parent.Some? {
      assert parent.value != b.id;
      assert m'[parent.value] == m[parent.value];
    }
  }
}
