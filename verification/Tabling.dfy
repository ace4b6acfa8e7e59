/** How a walk of the tree fills the analyser's tables: every step changes only the entries of the
blocks it walks, so what was recorded for finished blocks stays. */
module Tabling {
  import opened Syntax
  import opened Scoping

  function IndexAt(m: map<BlockId, Index>, id: BlockId): Index {
    if id in m then m[id] else map[]
  }

  ghost predicate SameAt(t: Tables, t': Tables, id: BlockId) {
    && (id in t.index <==> id in t'.index) && (id in t.index ==> t'.index[id] == t.index[id])
    && (id in t.parents <==> id in t'.parents) && (id in t.parents ==> t'.parents[id] == t.parents[id])
    && (forall l: Name :: HoldsLabel(t, l, id) <==> HoldsLabel(t', l, id))
  }

  ghost predicate Outside(t: Tables, t': Tables, ids: set<BlockId>) {
    forall id | id !in ids :: SameAt(t, t', id)
  }

  ghost predicate NoLabels(t: Tables, id: BlockId) {
    forall l: Name :: !HoldsLabel(t, l, id)
  }

  /** Nothing is recorded for the block yet. */
  ghost predicate FreshAt(t: Tables, id: BlockId) {
    id !in t.index && id !in t.parents && NoLabels(t, id)
  }

  /** Nothing is recorded for the blocks of a node, except the names of a `for`. */
  ghost predicate NodeFresh(t: Tables, k: Kind, n: Node) {
    && (forall id | id in Ids(n.block) && id != n.block.id :: FreshAt(t, id))
    && n.block.id !in t.parents && NoLabels(t, n.block.id)
    && IndexAt(t.index, n.block.id) == if n.Sub? then InsertAll(map[], HeadNames(k), n.block.id) else map[]
  }

  lemma OutsideTransitive(t: Tables, t1: Tables, t2: Tables, ids: set<BlockId>, ids1: set<BlockId>)
    requires Outside(t, t1, ids) && Outside(t1, t2, ids1) && ids1 <= ids
    ensures Outside(t, t2, ids)
  {
    forall id | id !in ids ensures SameAt(t, t2, id) {
      assert SameAt(t, t1, id) && SameAt(t1, t2, id);
    }
  }

  lemma OutsideAgrees(t: Tables, t': Tables, ids: set<BlockId>, kept: set<BlockId>)
    requires Outside(t, t', ids) && kept !! ids
    ensures Agree(t, t', kept)
  {
    forall id | id in kept ensures SameAt(t, t', id) { }
    forall l: Name, id | id in kept ensures HoldsLabel(t, l, id) <==> HoldsLabel(t', l, id) {
      assert SameAt(t, t', id);
    }
  }

  lemma NodeStaysFresh(t: Tables, t': Tables, ids: set<BlockId>, k: Kind, n: Node)
    requires Outside(t, t', ids) && NodeFresh(t, k, n) && Ids(n.block) !! ids
    ensures NodeFresh(t', k, n)
  {
    assert n.block.id in Ids(n.block);
    assert SameAt(t, t', n.block.id);
    forall id | id in Ids(n.block) && id != n.block.id ensures FreshAt(t', id) {
      assert FreshAt(t, id) && SameAt(t, t', id);
    }
  }

  // ----- inside a statement of block `ctx` -----

  /** The first `j` children of the statement were walked; `t` are the tables before the statement. */
  ghost predicate StatTables(t: Tables, t': Tables, ctx: BlockId, s: Stat, j: nat, chain: seq<BlockId>)
    requires j <= |s.nodes|
  {
    && Outside(t, t', StatIds(s) + {ctx})
    && CtxTables(t, t', ctx, s.kind)
    && (forall k | 0 <= k < j :: AnalyzedNode(s.kind, s.nodes[k], t'.index[ctx], chain, t'))
    && (forall k | j <= k < |s.nodes| :: NodeFresh(t', s.kind, s.nodes[k]))
  }

  /** What a statement records for the block it stands in. */
  ghost predicate CtxTables(t: Tables, t': Tables, ctx: BlockId, k: Kind) {
    && ctx in t.index && ctx in t'.index && t'.index[ctx] == InsertAll(t.index[ctx], DeclNames(k), ctx)
    && (ctx in t.parents <==> ctx in t'.parents) && (ctx in t.parents ==> t'.parents[ctx] == t.parents[ctx])
    && (forall l: Name :: HoldsLabel(t', l, ctx) <==> HoldsLabel(t, l, ctx) || k == Kind.Label(l))
  }

  lemma NodeWalked(t: Tables, t1: Tables, t2: Tables, ctx: BlockId, s: Stat, j: nat, chain: seq<BlockId>)
    requires DistinctStat(s) && ctx !in StatIds(s) && j < |s.nodes|
    requires StatTables(t, t1, ctx, s, j, chain)
    requires Outside(t1, t2, Ids(s.nodes[j].block)) && AnalyzedNode(s.kind, s.nodes[j], t1.index[ctx], chain, t2)
    ensures StatTables(t, t2, ctx, s, j + 1, chain)
  {
    hide Analyzed, Ids, StatIds, NodeFresh, NodeEnv, SameAt;
    NodeIdsInStat(s, j);
    var ids := Ids(s.nodes[j].block);
    OutsideTransitive(t, t1, t2, StatIds(s) + {ctx}, ids);
    CtxKept(t, t1, t2, ctx, s.kind, ids);
    forall k | 0 <= k < j ensures AnalyzedNode(s.kind, s.nodes[k], t2.index[ctx], chain, t2) {
      SiblingIds(s, k, j);
      NodeStable(s.kind, s.nodes[k], t1.index[ctx], chain, t1, t2, ids);
    }
    forall k | j + 1 <= k < |s.nodes| ensures NodeFresh(t2, s.kind, s.nodes[k]) {
      SiblingIds(s, j, k);
      NodeStaysFresh(t1, t2, ids, s.kind, s.nodes[k]);
    }
  }

  lemma CtxKept(t: Tables, t1: Tables, t2: Tables, ctx: BlockId, k: Kind, ids: set<BlockId>)
    requires CtxTables(t, t1, ctx, k) && Outside(t1, t2, ids) && ctx !in ids
    ensures CtxTables(t, t2, ctx, k) && t2.index[ctx] == t1.index[ctx]
  {
    assert SameAt(t1, t2, ctx);
  }

  lemma NodeIdsInStat(s: Stat, j: nat)
    requires j < |s.nodes|
    ensures Ids(s.nodes[j].block) <= StatIds(s) && s.nodes[j].block.id in Ids(s.nodes[j].block)
  {
    assert forall id | id in Ids(s.nodes[j].block) :: id in StatIds(s);
  }

  lemma SiblingIds(s: Stat, k: nat, j: nat)
    requires DistinctStat(s) && k < j < |s.nodes|
    ensures Ids(s.nodes[k].block) !! Ids(s.nodes[j].block)
  {
  }

  lemma NodeStable(k: Kind, n: Node, env: Index, chain: seq<BlockId>, t: Tables, t': Tables, ids: set<BlockId>)
    requires AnalyzedNode(k, n, env, chain, t) && Outside(t, t', ids) && Ids(n.block) !! ids
    ensures AnalyzedNode(k, n, env, chain, t')
  {
    OutsideAgrees(t, t', ids, Ids(n.block));
    assert n.block.id in Ids(n.block);
    AnalyzedStable(n.block, NodeEnv(k, n, env), chain + [n.block.id], t, t');
  }

  // ----- inside a block -----

  ghost function LabelsUpTo(b: Block, i: nat): set<Name>
    requires i <= |b.stats|
  {
    set k | 0 <= k < i && b.stats[k].kind.Label? :: b.stats[k].kind.mark
  }

  /** The first `i` statements of `b` were walked; `t` are the tables when it was entered with index `env`. */
  ghost predicate StatsTables(t: Tables, t': Tables, b: Block, env: Index, chain: seq<BlockId>, i: nat)
    requires i <= |b.stats|
  {
    && Outside(t, t', Ids(b))
    && b.id in t'.index && t'.index[b.id] == EnvAt(b, env, i)
    && (b.id in t.parents ==> b.id in t'.parents && t'.parents[b.id] == t.parents[b.id])
    && (forall l: Name :: HoldsLabel(t', l, b.id) <==> l in LabelsUpTo(b, i))
    && (forall k | 0 <= k < i :: AnalyzedStat(b.stats[k], EnvAt(b, env, k + 1), chain, t'))
    && (forall k | i <= k < |b.stats| :: StatFresh(t', b.stats[k]))
  }

  ghost predicate StatFresh(t: Tables, s: Stat) {
    forall id | id in StatIds(s) :: FreshAt(t, id)
  }

  lemma StatWalked(t: Tables, t1: Tables, t2: Tables, b: Block, env: Index, chain: seq<BlockId>, i: nat)
    requires Distinct(b) && i < |b.stats| && StatsTables(t, t1, b, env, chain, i)
    requires StatTables(t1, t2, b.id, b.stats[i], |b.stats[i].nodes|, chain)
    ensures StatsTables(t, t2, b, env, chain, i + 1)
  {
    hide Ids, StatIds, NodeFresh, AnalyzedNode, SameAt, FreshAt, InsertAll;
    var s := b.stats[i];
    var ids := StatIds(s) + {b.id};
    StatIdsInBlock(b, i);
    OutsideTransitive(t, t1, t2, Ids(b), ids);
    LabelsStep(b, i);
    forall k | 0 <= k < i ensures AnalyzedStat(b.stats[k], EnvAt(b, env, k + 1), chain, t2) {
      StatIdsApart(b, k, i);
      OutsideAgrees(t1, t2, ids, StatIds(b.stats[k]));
      AnalyzedStatStable(b.stats[k], EnvAt(b, env, k + 1), chain, t1, t2);
    }
    forall k | i + 1 <= k < |b.stats| ensures StatFresh(t2, b.stats[k]) {
      StatIdsApart(b, i, k);
      StatStaysFresh(t1, t2, ids, b.stats[k]);
    }
  }

  lemma StatStaysFresh(t: Tables, t': Tables, ids: set<BlockId>, s: Stat)
    requires Outside(t, t', ids) && StatFresh(t, s) && StatIds(s) !! ids
    ensures StatFresh(t', s)
  {
    forall id | id in StatIds(s) ensures FreshAt(t', id) {
      assert FreshAt(t, id) && SameAt(t, t', id);
    }
  }

  lemma StatIdsInBlock(b: Block, i: nat)
    requires i < |b.stats|
    ensures StatIds(b.stats[i]) + {b.id} <= Ids(b)
  {
    assert forall id | id in StatIds(b.stats[i]) :: id in Ids(b);
  }

  lemma StatIdsApart(b: Block, k: nat, i: nat)
    requires Distinct(b) && k < i < |b.stats|
    ensures StatIds(b.stats[k]) !! StatIds(b.stats[i]) && b.id !in StatIds(b.stats[k]) && b.id !in StatIds(b.stats[i])
    ensures StatIds(b.stats[k]) !! StatIds(b.stats[i]) + {b.id} && StatIds(b.stats[i]) !! StatIds(b.stats[k]) + {b.id}
  {
  }

  lemma LabelsStep(b: Block, i: nat)
    requires i < |b.stats|
    ensures forall l: Name :: l in LabelsUpTo(b, i + 1) <==> l in LabelsUpTo(b, i) || b.stats[i].kind == Kind.Label(l)
  {
    forall l: Name ensures l in LabelsUpTo(b, i + 1) <==> l in LabelsUpTo(b, i) || b.stats[i].kind == Kind.Label(l) {
      if b.stats[i].kind == Kind.Label(l) {
        assert b.stats[i].kind.mark == l;
      }
    }
  }

  /** When all statements are walked, the block is analysed. */
  lemma BlockWalked(t0: Tables, t: Tables, t': Tables, b: Block, env: Index, chain: seq<BlockId>)
    requires Outside(t0, t, Ids(b)) && StatsTables(t, t', b, env, chain, |b.stats|)
    ensures Outside(t0, t', Ids(b)) && Analyzed(b, env, chain, t')
    ensures b.id in t.parents ==> b.id in t'.parents && t'.parents[b.id] == t.parents[b.id]
  {
    hide Ids, AnalyzedStat, SameAt, EnvAt;
    OutsideTransitive(t0, t, t', Ids(b), Ids(b));
    assert LabelsUpTo(b, |b.stats|) == LabelNames(b);
  }

  // ----- entering -----

  /** The tables after a block is entered. */
  function BlockEntered(t: Tables, open: seq<BlockId>, id: BlockId): Tables
    requires open != [] ==> open[|open| - 1] in t.index
  {
    t.(index := t.index[id := if open == [] then IndexAt(t.index, id)
        else Append(IndexAt(t.index, id), t.index[open[|open| - 1]])])
  }

  lemma BlockEnteredFresh(t: Tables, open: seq<BlockId>, b: Block, chain: seq<BlockId>)
    requires open != [] ==> open[|open| - 1] in t.index
    requires Distinct(b) && NoLabels(t, b.id) && forall id | id in Ids(b) && id != b.id :: FreshAt(t, id)
    ensures Outside(t, BlockEntered(t, open, b.id), Ids(b))
    ensures StatsTables(BlockEntered(t, open, b.id), BlockEntered(t, open, b.id), b,
                        BlockEntered(t, open, b.id).index[b.id], chain, 0)
  {
    var t' := BlockEntered(t, open, b.id);
    assert b.id in Ids(b);
    forall id | id != b.id ensures SameAt(t, t', id) {
      assert forall l: Name :: HoldsLabel(t, l, id) <==> HoldsLabel(t', l, id);
    }
    forall k | 0 <= k < |b.stats| ensures StatFresh(t', b.stats[k]) {
      StatIdsInBlock(b, k);
      forall id | id in StatIds(b.stats[k]) ensures FreshAt(t', id) {
        assert FreshAt(t, id) && SameAt(t, t', id);
      }
    }
    assert forall l: Name :: HoldsLabel(t', l, b.id) <==> HoldsLabel(t, l, b.id);
    assert LabelsUpTo(b, 0) == {};
    assert forall id :: SameAt(t', t', id);
  }

  /** Names are added to the index of a block. */
  function WithNames(m: map<BlockId, Index>, id: BlockId, ns: seq<Name>): map<BlockId, Index> {
    if ns == [] then m else m[id := InsertAll(IndexAt(m, id), ns, id)]
  }

  /** The tables after a statement of block `ctx` is entered. */
  function StatEntered(t: Tables, ctx: BlockId, s: Stat): Tables
    requires ctx in t.index && Shaped(s)
  {
    var t1 := t.(index := WithNames(t.index, ctx, DeclNames(s.kind)));
    if s.kind.NumFor? || s.kind.ForIn? then
      t1.(index := WithNames(t1.index, s.nodes[BodyIndex(s)].block.id, HeadNames(s.kind)))
    else if s.kind.Label? then
      t1.(labels := t1.labels[s.kind.mark := Entries(t1.labels, s.kind.mark) + [ctx]])
    else t1
  }

  lemma StatEnteredFresh(t: Tables, ctx: BlockId, s: Stat, chain: seq<BlockId>)
    requires ctx in t.index && Shaped(s) && StatFresh(t, s) && DistinctStat(s) && ctx !in StatIds(s)
    ensures StatTables(t, StatEntered(t, ctx, s), ctx, s, 0, chain)
  {
    hide Ids, StatIds, NodeFresh, InsertAll, FreshAt;
    var t' := StatEntered(t, ctx, s);
    if s.kind.NumFor? || s.kind.ForIn? {
      NodeIdsInStat(s, BodyIndex(s));
    }
    CtxEntered(t, ctx, s);
    forall id | id !in StatIds(s) && id != ctx ensures SameAt(t, t', id) {
      forall l: Name ensures HoldsLabel(t, l, id) <==> HoldsLabel(t', l, id) { }
    }
    forall k | 0 <= k < |s.nodes| ensures NodeFresh(t', s.kind, s.nodes[k]) {
      NodeEnteredFresh(t, ctx, s, k);
    }
  }

  lemma CtxEntered(t: Tables, ctx: BlockId, s: Stat)
    requires ctx in t.index && Shaped(s) && ctx !in StatIds(s)
    ensures CtxTables(t, StatEntered(t, ctx, s), ctx, s.kind)
  {
    var t' := StatEntered(t, ctx, s);
    if s.kind.NumFor? || s.kind.ForIn? {
      NodeIdsInStat(s, BodyIndex(s));
    }
    forall l: Name ensures HoldsLabel(t', l, ctx) <==> HoldsLabel(t, l, ctx) || s.kind == Kind.Label(l) { }
  }

  lemma NodeEnteredFresh(t: Tables, ctx: BlockId, s: Stat, k: nat)
    requires ctx in t.index && Shaped(s) && StatFresh(t, s) && DistinctStat(s) && ctx !in StatIds(s) && k < |s.nodes|
    ensures NodeFresh(StatEntered(t, ctx, s), s.kind, s.nodes[k])
  {
    hide Ids, StatIds, FreshAt, StatEntered, DistinctStat;
    var t', n := StatEntered(t, ctx, s), s.nodes[k];
    NodeIdsInStat(s, k);
    forall id | id in Ids(n.block) && id != n.block.id ensures FreshAt(t', id) {
      EnteredAt(t, ctx, s, id);
      NotTheBody(s, k, id);
    }
    EnteredAt(t, ctx, s, n.block.id);
    NodeIsBody(s, k);
  }

  ghost predicate IsForBody(s: Stat, id: BlockId)
    requires Shaped(s)
  {
    (s.kind.NumFor? || s.kind.ForIn?) && id == s.nodes[BodyIndex(s)].block.id
  }

  lemma EnteredAt(t: Tables, ctx: BlockId, s: Stat, id: BlockId)
    requires ctx in t.index && Shaped(s) && FreshAt(t, id) && id != ctx
    ensures var t' := StatEntered(t, ctx, s);
            && id !in t'.parents && NoLabels(t', id)
            && IndexAt(t'.index, id) == (if IsForBody(s, id) then InsertAll(map[], HeadNames(s.kind), id) else map[])
            && (!IsForBody(s, id) ==> FreshAt(t', id))
  {
    var t' := StatEntered(t, ctx, s);
    forall l: Name ensures !HoldsLabel(t', l, id) {
      assert !HoldsLabel(t, l, id);
    }
  }

  /** The blocks below a child are not the body of the `for`. */
  lemma NotTheBody(s: Stat, k: nat, id: BlockId)
    requires Shaped(s) && DistinctStat(s) && k < |s.nodes| && id in Ids(s.nodes[k].block) && id != s.nodes[k].block.id
    ensures !IsForBody(s, id)
  {
    if s.kind.NumFor? || s.kind.ForIn? {
      var j := BodyIndex(s);
      NodeIdsInStat(s, j);
      if k < j {
        SiblingIds(s, k, j);
      }
    }
  }

  lemma NodeIsBody(s: Stat, k: nat)
    requires Shaped(s) && DistinctStat(s) && k < |s.nodes|
    ensures IsForBody(s, s.nodes[k].block.id) ==> s.nodes[k].Sub?
    ensures s.nodes[k].Sub? && HeadNames(s.kind) != [] ==> IsForBody(s, s.nodes[k].block.id)
  {
    if s.kind.NumFor? || s.kind.ForIn? {
      var j := BodyIndex(s);
      NodeIdsInStat(s, j);
      NodeIdsInStat(s, k);
      if k < j {
        SiblingIds(s, k, j);
      }
    }
  }

  /** The tables after a function body is entered. */
  function FuncEntered(t: Tables, open: seq<BlockId>, n: Node): Tables
    requires n.Func?
  {
    t.(index := WithNames(t.index, n.block.id, n.params),
       parents := WithParents(t.parents, n.block.id, open))
  }

  function WithParents(m: map<BlockId, seq<BlockId>>, id: BlockId, open: seq<BlockId>): map<BlockId, seq<BlockId>> {
    if open == [] then m else m[id := ParentsAt(m, id) + open]
  }

  function ParentsAt(m: map<BlockId, seq<BlockId>>, id: BlockId): seq<BlockId> {
    if id in m then m[id] else []
  }

  /** Walking the block of a node amounts to analysing the node. */
  lemma SubNodeWalked(t: Tables, t': Tables, k: Kind, n: Node, open: seq<BlockId>)
    requires n.Sub? && NodeFresh(t, k, n) && open != [] && open[|open| - 1] in t.index
    requires Outside(t, t', Ids(n.block))
    requires Analyzed(n.block, BlockEntered(t, open, n.block.id).index[n.block.id], open + [n.block.id], t')
    ensures AnalyzedNode(k, n, t.index[open[|open| - 1]], open, t')
  {
  }

  lemma FuncNodeEntered(t: Tables, k: Kind, n: Node, open: seq<BlockId>)
    requires n.Func? && NodeFresh(t, k, n) && open != [] && open[|open| - 1] in t.index
        && open[|open| - 1] != n.block.id
    ensures var t1 := FuncEntered(t, open, n);
            && Outside(t, t1, Ids(n.block)) && NoLabels(t1, n.block.id)
            && (forall id | id in Ids(n.block) && id != n.block.id :: FreshAt(t1, id))
            && open[|open| - 1] in t1.index && t1.index[open[|open| - 1]] == t.index[open[|open| - 1]]
            && IndexAt(t1.index, n.block.id) == InsertAll(map[], n.params, n.block.id)
            && n.block.id in t1.parents && t1.parents[n.block.id] == open
  {
    var t1 := FuncEntered(t, open, n);
    assert n.block.id in Ids(n.block);
    assert [] + open == open;
    forall id | id != n.block.id ensures SameAt(t, t1, id) {
      forall l: Name ensures HoldsLabel(t, l, id) <==> HoldsLabel(t1, l, id) { }
    }
    forall id | id in Ids(n.block) && id != n.block.id ensures FreshAt(t1, id) {
      assert FreshAt(t, id) && SameAt(t, t1, id);
    }
    forall l: Name ensures !HoldsLabel(t1, l, n.block.id) {
      assert !HoldsLabel(t, l, n.block.id);
    }
  }

  lemma FuncNodeWalked(t: Tables, t': Tables, k: Kind, n: Node, open: seq<BlockId>)
    requires n.Func? && NodeFresh(t, k, n) && open != [] && open[|open| - 1] in t.index
        && open[|open| - 1] != n.block.id
    requires Outside(FuncEntered(t, open, n), t', Ids(n.block)) && n.block.id in t'.parents
        && t'.parents[n.block.id] == open
    requires open[|open| - 1] in FuncEntered(t, open, n).index
    requires Analyzed(n.block, BlockEntered(FuncEntered(t, open, n), open, n.block.id).index[n.block.id],
        open + [n.block.id], t')
    ensures Outside(t, t', Ids(n.block)) && AnalyzedNode(k, n, t.index[open[|open| - 1]], open, t')
  {
    hide Ids, SameAt, Analyzed, FreshAt, InsertAll;
    FuncNodeEntered(t, k, n, open);
    OutsideTransitive(t, FuncEntered(t, open, n), t', Ids(n.block), Ids(n.block));
  }
}
