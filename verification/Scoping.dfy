/** Name resolution: the name-to-blocks index that the analyser prepares for every
block, against the chain of blocks that are active when a name is looked up. */
module Scoping {
  import opened Helpers
  import opened Syntax

  /** A multimap from names to blocks; entries of one name keep their insertion order. */
  type Index = map<Name, seq<BlockId>>

  type Cell = int
  type Store = map<Name, Cell>

  /** The local values of one activation; a block without an entry has an empty store. */
  type Frame = map<BlockId, Store>

  /** What the analyser hands to the interpreter, and whether the program is known to be `plain`:
      no `for` variable hides a visible local of its function. */
  datatype Tables = Tables(
    labels: map<Name, seq<BlockId>>,
    index: map<BlockId, Index>,
    parents: map<BlockId, seq<BlockId>>,
    plain: bool)

  function Entries(x: Index, n: Name): seq<BlockId> {
    if n in x then x[n] else []
  }

  function Insert(x: Index, n: Name, id: BlockId): Index {
    x[n := Entries(x, n) + [id]]
  }

  function InsertAll(x: Index, ns: seq<Name>, id: BlockId): Index {
    if ns == [] then x else Insert(InsertAll(x, ns[..|ns| - 1], id), ns[|ns| - 1], id)
  }

  /** The entries of `x`, followed name by name by those of `y`. */
  function Append(x: Index, y: Index): Index {
    map n | n in x.Keys + y.Keys :: Entries(x, n) + Entries(y, n)
  }

  /** The index of a block before its statement `i`, from the index `env` it is entered with. */
  function EnvAt(b: Block, env: Index, i: nat): Index
    requires i <= |b.stats|
  {
    if i == 0 then env
    else InsertAll(EnvAt(b, env, i - 1), DeclNames(b.stats[i - 1].kind), b.id)
  }

  /** The index that the block of a node is entered with. */
  function NodeEnv(k: Kind, n: Node, env: Index): Index {
    Append(InsertAll(map[], EntryNames(k, n), n.block.id), env)
  }

  ghost predicate HoldsLabel(t: Tables, l: Name, id: BlockId) {
    l in t.labels && id in t.labels[l]
  }

  function StoreAt(f: Frame, id: BlockId): Store {
    if id in f then f[id] else map[]
  }

  predicate Holds(f: Frame, id: BlockId, n: Name) {
    n in StoreAt(f, id)
  }

  // ----- what the analyser records, stated over the tree -----

  /** `chain` is the sequence of blocks that are open inside `b`, outer functions included;
      its last element is `b` itself. */
  ghost predicate Analyzed(b: Block, env: Index, chain: seq<BlockId>, t: Tables) {
    && b.id in t.index && t.index[b.id] == EnvAt(b, env, |b.stats|)
    && (forall l: Name :: HoldsLabel(t, l, b.id) <==> l in LabelNames(b))
    && (forall i | 0 <= i < |b.stats| :: AnalyzedStat(b.stats[i], EnvAt(b, env, i + 1), chain, t))
  }

  ghost predicate AnalyzedStat(s: Stat, env: Index, chain: seq<BlockId>, t: Tables) {
    forall j | 0 <= j < |s.nodes| :: AnalyzedNode(s.kind, s.nodes[j], env, chain, t)
  }

  ghost predicate AnalyzedNode(k: Kind, n: Node, env: Index, chain: seq<BlockId>, t: Tables)
    decreases n
  {
    && (n.Func? ==> n.block.id in t.parents && t.parents[n.block.id] == chain)
    && Analyzed(n.block, NodeEnv(k, n, env), chain + [n.block.id], t)
  }

  /** Two sets of tables say the same about the given blocks. */
  ghost predicate Agree(t: Tables, t': Tables, ids: set<BlockId>) {
    && (forall id | id in ids :: id in t.index ==> id in t'.index && t'.index[id] == t.index[id])
    && (forall id | id in ids :: id in t.parents ==> id in t'.parents && t'.parents[id] == t.parents[id])
    && (forall l: Name, id | id in ids :: HoldsLabel(t, l, id) <==> HoldsLabel(t', l, id))
  }

  lemma {:induction false} AnalyzedStable(b: Block, env: Index, chain: seq<BlockId>, t: Tables, t': Tables)
    requires Analyzed(b, env, chain, t) && Agree(t, t', Ids(b))
    ensures Analyzed(b, env, chain, t')
  {
    forall i | 0 <= i < |b.stats|
      ensures AnalyzedStat(b.stats[i], EnvAt(b, env, i + 1), chain, t')
    {
      assert AnalyzedStat(b.stats[i], EnvAt(b, env, i + 1), chain, t);
      AnalyzedStatStable(b.stats[i], EnvAt(b, env, i + 1), chain, t, t');
    }
  }

  lemma {:induction false} AnalyzedStatStable(s: Stat, env: Index, chain: seq<BlockId>, t: Tables, t': Tables)
    requires AnalyzedStat(s, env, chain, t) && Agree(t, t', StatIds(s))
    ensures AnalyzedStat(s, env, chain, t')
  {
    forall j | 0 <= j < |s.nodes|
      ensures AnalyzedNode(s.kind, s.nodes[j], env, chain, t')
    {
      var n := s.nodes[j];
      assert AnalyzedNode(s.kind, n, env, chain, t);
      AnalyzedStable(n.block, NodeEnv(s.kind, n, env), chain + [n.block.id], t, t');
    }
  }

  /** The store of a block and the next cell after a declaration of names: a name that gets one of the
      `given` values keeps the cell it may already have, every other one gets a new cell. */
  function Declaration(store: Store, names: seq<Name>, given: nat, next: Cell): (Store, Cell) {
    if names == [] then (store, next)
    else
      var (s, c) := Declaration(store, names[..|names| - 1], given, next);
      var n := names[|names| - 1];
      if given <= |names| - 1 || n !in s then (s[n := c], c + 1) else (s, c)
  }

  lemma DeclarationStep(store: Store, names: seq<Name>, i: nat, given: nat, next: Cell)
    requires i < |names|
    ensures Declaration(store, names[..i + 1], given, next)
      == var (s, c) := Declaration(store, names[..i], given, next);
         if given <= i || names[i] !in s then (s[names[i] := c], c + 1) else (s, c)
  {
    assert names[..i + 1][..i] == names[..i];
  }

  /** A declaration keeps the cells of other names; its own names get new cells, or keep theirs. */
  lemma {:induction false} DeclarationCells(store: Store, names: seq<Name>, given: nat, next: Cell, n: Name)
    ensures var (s, c) := Declaration(store, names, given, next);
      && next <= c && (n in s <==> n in store || n in names)
      && (n in s && !(n in store && s[n] == store[n]) ==> n in names && next <= s[n] < c)
      && (n in names && given == 0 ==> next <= s[n] < c)
  {
    if names != [] {
      DeclarationCells(store, names[..|names| - 1], given, next, n);
      assert names == names[..|names| - 1] + [names[|names| - 1]];
    }
  }

  /** Names that all get new cells get different ones. */
  lemma {:induction false} DeclarationDistinct(store: Store, names: seq<Name>, next: Cell, n: Name, m: Name)
    requires n in names && m in names && n != m
    ensures var s := Declaration(store, names, 0, next).0; n in s && m in s && s[n] != s[m]
  {
    var front, last := names[..|names| - 1], names[|names| - 1];
    assert names == front + [last];
    DeclarationCells(store, front, 0, next, n);
    DeclarationCells(store, front, 0, next, m);
    if n in front && m in front {
      DeclarationDistinct(store, front, next, n, m);
    }
  }

  /** What a declaration does to one of its names, by its last occurrence: without a value it gets a new cell,
      and with one it keeps the cell it may already have. */
  lemma {:induction false} DeclarationMeaning(store: Store, names: seq<Name>, given: nat, next: Cell, i: nat)
    requires i < |names| && names[i] !in names[i + 1..]
    ensures var (s, c) := Declaration(store, names, given, next);
            && names[i] in s
            && (if given <= i || names[i] !in store then next <= s[names[i]] < c
                else s[names[i]] == store[names[i]])
  {
    var front, last := names[..|names| - 1], |names| - 1;
    DeclarationCells(store, front, given, next, names[i]);
    if i < last {
      assert front[i + 1..] == names[i + 1..last];
      DeclarationMeaning(store, front, given, next, i);
    } else if i < given && names[i] in store {
      DeclarationKeeps(store, front, given, next, names[i]);
    }
  }

  /** As long as there are values, names that are there keep their cells. */
  lemma {:induction false} DeclarationKeeps(store: Store, names: seq<Name>, given: nat, next: Cell, n: Name)
    requires |names| <= given && n in store
    ensures var s := Declaration(store, names, given, next).0; n in s && s[n] == store[n]
  {
    if names != [] {
      DeclarationKeeps(store, names[..|names| - 1], given, next, n);
    }
  }

  // ----- what a run of a block may rely on -----

  /** No `for` variable has the name of a local of the same function that is visible
      at the loop; `own` are the open blocks of the function. */
  predicate NoShadow(b: Block, env: Index, own: seq<BlockId>) {
    forall i | 0 <= i < |b.stats| :: NoShadowStat(b.stats[i], EnvAt(b, env, i + 1), own)
  }

  predicate NoShadowStat(s: Stat, env: Index, own: seq<BlockId>) {
    forall j | 0 <= j < |s.nodes| :: NoShadowNode(s.kind, s.nodes[j], env, own)
  }

  predicate NoShadowNode(k: Kind, n: Node, env: Index, own: seq<BlockId>)
    decreases n
  {
    && (n.Sub? ==> forall x, id | x in HeadNames(k) && id in Entries(env, x) :: id !in own)
    && NoShadow(n.block, NodeEnv(k, n, env), if n.Sub? then own + [n.block.id] else [n.block.id])
  }

  /** No goto and no break leaves the function. */
  ghost predicate Contained(body: Block) {
    Escaping(body) == {} && !FreeBreak(body)
  }

  /** Everything a run of `b` relies on: the tables are right for it, its blocks are new on
      every path, and nested functions contain their jumps. */
  ghost predicate Ready(b: Block, env: Index, chain: seq<BlockId>, own: seq<BlockId>, t: Tables) {
    && chain != [] && chain[|chain| - 1] == b.id
    && own != [] && |own| <= |chain| && chain[|chain| - |own|..] == own
    && (forall i | 0 <= i < StatCount(b) :: !b.stats[i].kind.Return?)
    && b.id in t.index && t.index[b.id] == EnvAt(b, env, |b.stats|)
    && (forall l: Name :: HoldsLabel(t, l, b.id) <==> l in LabelNames(b))
    && (forall i | 0 <= i < |b.stats| :: ReadyStat(b.stats[i], EnvAt(b, env, i + 1), chain, own, t))
  }

  ghost predicate ReadyStat(s: Stat, env: Index, chain: seq<BlockId>, own: seq<BlockId>, t: Tables) {
    && Shaped(s)
    && forall j | 0 <= j < |s.nodes| :: ReadyNode(s.kind, s.nodes[j], env, chain, own, t)
  }

  ghost predicate ReadyNode(k: Kind, n: Node, env: Index, chain: seq<BlockId>, own: seq<BlockId>, t: Tables)
    decreases n
  {
    && n.block.id !in chain
    && (n.Sub? ==>
          && (t.plain ==> forall x, id | x in HeadNames(k) && id in Entries(env, x) :: id !in own)
          && Ready(n.block, NodeEnv(k, n, env), chain + [n.block.id], own + [n.block.id], t))
    && (n.Func? ==>
          && n.block.id in t.parents && t.parents[n.block.id] == chain
          && Contained(n.block)
          && Ready(n.block, NodeEnv(k, n, env), chain + [n.block.id], [n.block.id], t))
  }

  /** The analyser's tables and the hypotheses on the program give all that a run needs. */
  lemma {:induction false} AnalyzedIsReady(b: Block, env: Index, chain: seq<BlockId>, own: seq<BlockId>, t: Tables)
    requires WellFormed(b) && Distinct(b) && Analyzed(b, env, chain, t) && (t.plain ==> NoShadow(b, env, own))
    requires chain != [] && chain[|chain| - 1] == b.id
    requires own != [] && |own| <= |chain| && chain[|chain| - |own|..] == own
    requires forall id | id in chain :: id in Ids(b) ==> id == b.id
    requires forall f | f in Funcs(b) :: Contained(f)
    ensures Ready(b, env, chain, own, t)
  {
    forall i | 0 <= i < |b.stats|
      ensures ReadyStat(b.stats[i], EnvAt(b, env, i + 1), chain, own, t)
    {
      var s, env' := b.stats[i], EnvAt(b, env, i + 1);
      assert AnalyzedStat(s, env', chain, t) && (t.plain ==> NoShadowStat(s, env', own));
      assert forall id | id in StatIds(s) :: id in Ids(b);
      FuncsMember(b, i, |b.stats|);
      AnalyzedStatIsReady(s, env', chain, own, t);
    }
  }

  lemma {:induction false} AnalyzedStatIsReady(s: Stat, env: Index, chain: seq<BlockId>, own: seq<BlockId>, t: Tables)
    requires WellFormedStat(s) && DistinctStat(s) && AnalyzedStat(s, env, chain, t)
        && (t.plain ==> NoShadowStat(s, env, own))
    requires own != [] && |own| <= |chain| && chain[|chain| - |own|..] == own
    requires forall id | id in chain :: id !in StatIds(s)
    requires forall f | f in StatFuncs(s, |s.nodes|) :: Contained(f)
    ensures ReadyStat(s, env, chain, own, t)
  {
    forall j | 0 <= j < |s.nodes|
      ensures ReadyNode(s.kind, s.nodes[j], env, chain, own, t)
    {
      assert AnalyzedNode(s.kind, s.nodes[j], env, chain, t)
          && (t.plain ==> NoShadowNode(s.kind, s.nodes[j], env, own));
      assert forall id | id in Ids(s.nodes[j].block) :: id in StatIds(s);
      StatFuncsMember(s, j, |s.nodes|);
      AnalyzedNodeIsReady(s.kind, s.nodes[j], env, chain, own, t);
    }
  }

  lemma {:induction false} AnalyzedNodeIsReady(k: Kind, n: Node, env: Index, chain: seq<BlockId>, own: seq<BlockId>,
      t: Tables)
    requires WellFormed(n.block) && Distinct(n.block)
    requires AnalyzedNode(k, n, env, chain, t) && (t.plain ==> NoShadowNode(k, n, env, own))
    requires own != [] && |own| <= |chain| && chain[|chain| - |own|..] == own
    requires forall id | id in chain :: id !in Ids(n.block)
    requires n.Func? ==> Contained(n.block)
    requires forall f | f in Funcs(n.block) :: Contained(f)
    ensures ReadyNode(k, n, env, chain, own, t)
    decreases n
  {
    var id := n.block.id;
    var chain', own' := chain + [id], if n.Sub? then own + [id] else [id];
    assert id in Ids(n.block);
    assert chain'[|chain'| - |own'|..] == own';
    AnalyzedIsReady(n.block, NodeEnv(k, n, env), chain', own', t);
  }

  /** The blocks of a run are new on its path. */
  lemma {:induction false} OwnIsNew(b: Block, env: Index, chain: seq<BlockId>, own: seq<BlockId>, t: Tables, x: BlockId)
    requires Ready(b, env, chain, own, t) && x in Own(b)
    ensures x == b.id || x !in chain
  {
    if x != b.id {
      var i :| 0 <= i < |b.stats| && x in StatOwn(b.stats[i]);
      StatOwnIsNew(b.stats[i], EnvAt(b, env, i + 1), chain, own, t, x);
    }
  }

  lemma {:induction false} StatOwnIsNew(s: Stat, env: Index, chain: seq<BlockId>, own: seq<BlockId>, t: Tables,
      x: BlockId)
    requires ReadyStat(s, env, chain, own, t) && x in StatOwn(s)
    ensures x !in chain
  {
    var j :| 0 <= j < |s.nodes| && s.nodes[j].Sub? && x in Own(s.nodes[j].block);
    var n := s.nodes[j];
    assert ReadyNode(s.kind, n, env, chain, own, t);
    OwnIsNew(n.block, NodeEnv(s.kind, n, env), chain + [n.block.id], own + [n.block.id], t, x);
    assert (chain + [n.block.id])[|chain|] == n.block.id;
    assert forall y | y in chain :: y in chain + [n.block.id];
  }

  // ----- properties of the index -----

  lemma {:induction false} InsertAllEntries(x: Index, ns: seq<Name>, id: BlockId, n: Name)
    ensures Entries(x, n) <= Entries(InsertAll(x, ns, id), n)
    ensures forall k | |Entries(x, n)| <= k < |Entries(InsertAll(x, ns, id), n)| :: Entries(InsertAll(x, ns, id),
        n)[k] == id
    ensures n in ns ==> id in Entries(InsertAll(x, ns, id), n)
    ensures n !in ns ==> Entries(InsertAll(x, ns, id), n) == Entries(x, n)
  {
    if ns != [] {
      var front, last := ns[..|ns| - 1], ns[|ns| - 1];
      InsertAllEntries(x, front, id, n);
      assert ns == front + [last];
      var mid := InsertAll(x, front, id);
      if n == last {
        assert Entries(InsertAll(x, ns, id), n) == Entries(mid, n) + [id];
        assert (Entries(mid, n) + [id])[|Entries(mid, n)|] == id;
      }
    }
  }

  /** The second index has the entries of the first, then only entries of block `id`. */
  ghost predicate Tail(x: Index, y: Index, id: BlockId) {
    forall n: Name {:trigger Entries(x, n)} {:trigger Entries(y, n)} ::
      && Entries(x, n) <= Entries(y, n)
      && forall k | |Entries(x, n)| <= k < |Entries(y, n)| :: Entries(y, n)[k] == id
  }

  lemma InsertAllTail(x: Index, ns: seq<Name>, id: BlockId)
    ensures Tail(x, InsertAll(x, ns, id), id)
  {
    forall n: Name
      ensures Entries(x, n) <= Entries(InsertAll(x, ns, id), n)
      ensures forall k | |Entries(x, n)| <= k < |Entries(InsertAll(x, ns, id), n)| :: Entries(InsertAll(x, ns, id),
          n)[k] == id
    {
      InsertAllEntries(x, ns, id, n);
    }
  }

  lemma TailTransitive(x: Index, y: Index, z: Index, id: BlockId)
    requires Tail(x, y, id) && Tail(y, z, id)
    ensures Tail(x, z, id)
  {
    forall n: Name
      ensures Entries(x, n) <= Entries(z, n)
      ensures forall k | |Entries(x, n)| <= k < |Entries(z, n)| :: Entries(z, n)[k] == id
    {
      assert Entries(x, n) <= Entries(y, n) <= Entries(z, n);
    }
  }

  lemma TailOfItself(x: Index, id: BlockId)
    ensures Tail(x, x, id)
  {
  }

  lemma {:induction false} EnvAtTail(b: Block, env: Index, i: nat, k: nat)
    requires i <= k <= |b.stats|
    ensures Tail(EnvAt(b, env, i), EnvAt(b, env, k), b.id)
  {
    hide Tail, InsertAll;
    if i == k {
      TailOfItself(EnvAt(b, env, i), b.id);
    } else {
      EnvAtTail(b, env, i, k - 1);
      InsertAllTail(EnvAt(b, env, k - 1), DeclNames(b.stats[k - 1].kind), b.id);
      TailTransitive(EnvAt(b, env, i), EnvAt(b, env, k - 1), EnvAt(b, env, k), b.id);
    }
  }

  /** An index whose entries all lie in `ids`. */
  ghost predicate Within(x: Index, ids: seq<BlockId>) {
    forall n: Name, id | id in Entries(x, n) :: id in ids
  }

  /** Entries of the active blocks come outermost first. */
  ghost predicate Ordered(x: Index, act: seq<BlockId>) {
    forall n: Name :: OrderedSeq(Entries(x, n), act)
  }

  ghost predicate OrderedSeq(es: seq<BlockId>, act: seq<BlockId>) {
    forall i, k | 0 <= i < k < |es| :: NotAfter(es[i], es[k], act)
  }

  /** If both blocks are active, the first is not nested in the second. */
  ghost predicate NotAfter(a: BlockId, b: BlockId, act: seq<BlockId>) {
    forall p, q | 0 <= p < |act| && 0 <= q < |act| && act[p] == a && act[q] == b :: p <= q
  }

  ghost predicate NoRepeats(s: seq<BlockId>) {
    forall i, j | 0 <= i < j < |s| :: s[i] != s[j]
  }

  /** Entries for the innermost block may come last. */
  lemma TailKeepsOrder(x: Index, y: Index, act: seq<BlockId>, ids: seq<BlockId>)
    requires act != [] && NoRepeats(act) && Within(x, ids)
    requires act[|act| - 1] in ids && Tail(x, y, act[|act| - 1])
    ensures (Ordered(x, act) ==> Ordered(y, act)) && Within(y, ids)
  {
    var id := act[|act| - 1];
    forall n: Name | Ordered(x, act)
      ensures OrderedSeq(Entries(y, n), act)
    {
      var e, e' := Entries(x, n), Entries(y, n);
      assert OrderedSeq(e, act);
      forall i, k | 0 <= i < k < |e'| ensures NotAfter(e'[i], e'[k], act) {
        if k < |e| {
          assert e[i] == e'[i] && e[k] == e'[k];
        } else {
          assert e'[k] == id;
        }
      }
    }
    forall n: Name, e | e in Entries(y, n)
      ensures e in ids
    {
      var k :| 0 <= k < |Entries(y, n)| && Entries(y, n)[k] == e;
      if k < |Entries(x, n)| {
        assert Entries(x, n)[k] == e;
      }
    }
  }

  lemma {:induction false} OnlyEntries(ns: seq<Name>, id: BlockId, n: Name, k: nat)
    requires k < |Entries(InsertAll(map[], ns, id), n)|
    ensures Entries(InsertAll(map[], ns, id), n)[k] == id && n in ns
  {
    InsertAllEntries(map[], ns, id, n);
  }

  lemma AppendEntries(x: Index, y: Index, n: Name)
    ensures Entries(Append(x, y), n) == Entries(x, n) + Entries(y, n)
  {
  }

  /** Entering a nested block of the same function keeps the order, unless a `for`
      variable hides a visible local of the function. */
  lemma SubKeepsOrder(k: Kind, n: Node, env: Index, act: seq<BlockId>, ids: seq<BlockId>)
    requires NoRepeats(act) && Ordered(env, act) && Within(env, ids)
    requires n.block.id !in ids && forall a | a in act :: a in ids
    requires forall x, id | x in EntryNames(k, n) && id in Entries(env, x) :: id !in act
    ensures NoRepeats(act + [n.block.id])
    ensures Ordered(NodeEnv(k, n, env), act + [n.block.id]) && Within(NodeEnv(k, n, env), ids + [n.block.id])
  {
    var id := n.block.id;
    var head := InsertAll(map[], EntryNames(k, n), id);
    forall x: Name
      ensures OrderedSeq(Entries(NodeEnv(k, n, env), x), act + [id])
    {
      AppendEntries(head, env, x);
      forall i | 0 <= i < |Entries(head, x)| ensures Entries(head, x)[i] == id && x in EntryNames(k, n) {
        OnlyEntries(EntryNames(k, n), id, x, i);
      }
      assert OrderedSeq(Entries(env, x), act);
      assert Entries(head, x) != [] ==> Entries(head, x)[0] == id && x in EntryNames(k, n);
      SubKeepsOrderSeq(Entries(head, x), Entries(env, x), act, id);
    }
    NodeEnvWithin(k, n, env, ids);
  }

  lemma SubKeepsOrderSeq(head: seq<BlockId>, es: seq<BlockId>, act: seq<BlockId>, id: BlockId)
    requires NoRepeats(act + [id]) && OrderedSeq(es, act)
    requires forall i | 0 <= i < |head| :: head[i] == id
    requires forall e | e in es :: e != id
    requires head != [] ==> forall e | e in es :: e !in act
    ensures OrderedSeq(head + es, act + [id])
  {
    var all, act' := head + es, act + [id];
    forall i, k | 0 <= i < k < |all| ensures NotAfter(all[i], all[k], act') {
      if k < |head| {
        assert all[k] == id;
      } else if i < |head| {
        assert all[k] in es && head[i] == id;
      } else {
        assert all[i] == es[i - |head|] && all[k] == es[k - |head|];
        assert all[i] in es && all[k] in es;
        assert NotAfter(es[i - |head|], es[k - |head|], act);
      }
    }
  }

  /** In a function body only the body itself is active, so the order is trivial. */
  lemma FuncKeepsOrder(k: Kind, n: Node, env: Index, ids: seq<BlockId>)
    requires Within(env, ids)
    ensures Ordered(NodeEnv(k, n, env), [n.block.id]) && Within(NodeEnv(k, n, env), ids + [n.block.id])
  {
    NodeEnvWithin(k, n, env, ids);
  }

  lemma NodeEnvWithin(k: Kind, n: Node, env: Index, ids: seq<BlockId>)
    requires Within(env, ids)
    ensures Within(NodeEnv(k, n, env), ids + [n.block.id])
  {
    var head := InsertAll(map[], EntryNames(k, n), n.block.id);
    forall x: Name, id | id in Entries(NodeEnv(k, n, env), x)
      ensures id in ids + [n.block.id]
    {
      AppendEntries(head, env, x);
      if id in Entries(head, x) {
        var i :| 0 <= i < |Entries(head, x)| && Entries(head, x)[i] == id;
        OnlyEntries(EntryNames(k, n), n.block.id, x, i);
      }
    }
  }

  // ----- lookup -----

  /** The last of the given blocks whose store has the name: what a scan that never
      stops early leaves in its candidate. */
  function LastHolder(es: seq<BlockId>, f: Frame, n: Name): (r: Option<BlockId>)
    ensures r.Some? ==> Holds(f, r.value, n)
  {
    if es == [] then None
    else if Holds(f, es[|es| - 1], n) then Some(es[|es| - 1])
    else LastHolder(es[..|es| - 1], f, n)
  }

  lemma {:induction false} LastHolderProperty(es: seq<BlockId>, f: Frame, n: Name)
    ensures LastHolder(es, f, n).None? <==> forall k | 0 <= k < |es| :: !Holds(f, es[k], n)
    ensures LastHolder(es, f, n).Some? ==>
              exists k :: IsLast(es, f, n, k) && es[k] == LastHolder(es, f, n).value
  {
    if es != [] && Holds(f, es[|es| - 1], n) {
      assert IsLast(es, f, n, |es| - 1);
    } else if es != [] {
      var front := es[..|es| - 1];
      LastHolderProperty(front, f, n);
      if LastHolder(front, f, n).Some? {
        var k :| IsLast(front, f, n, k) && front[k] == LastHolder(front, f, n).value;
        assert IsLast(es, f, n, k);
      } else {
        forall k | 0 <= k < |es| ensures !Holds(f, es[k], n) {
          if k < |front| { assert front[k] == es[k]; }
        }
      }
    }
  }

  /** The stores of a frame belong to active blocks, or to the blocks `extra` that are being
      prepared; every name an active block holds has an entry for that block in `env`. */
  ghost predicate Covered(f: Frame, act: seq<BlockId>, extra: set<BlockId>, env: Index) {
    forall id: BlockId, n: Name {:trigger Holds(f, id, n)} | Holds(f, id, n) :: id in extra
        || (id in act && id in Entries(env, n))
  }

  /** Position `k` is the last one of `es` whose block holds the name. */
  ghost predicate IsLast(es: seq<BlockId>, f: Frame, n: Name, k: int) {
    && 0 <= k < |es| && Holds(f, es[k], n)
    && forall m | k < m < |es| :: !Holds(f, es[m], n)
  }

  /** Index and scope chain agree: in a block whose final index is `y`, the scan of the
      index finds the innermost active block that holds the name. */
  lemma IndexAgreesWithScopeChain(
      f: Frame, act: seq<BlockId>, extra: set<BlockId>, env: Index, y: Index, ids: seq<BlockId>, n: Name)
    requires act != [] && NoRepeats(act) && Covered(f, act, extra, env)
    requires Ordered(env, act) && Within(env, ids) && forall a | a in act :: a in ids
    requires forall id | id in extra :: id !in ids
    requires Tail(env, y, act[|act| - 1])
    ensures LastHolder(Entries(y, n), f, n) == LastHolder(act, f, n)
  {
    TailKeepsOrder(env, y, act, ids);
    var es := Entries(y, n);
    LastHolderProperty(es, f, n);
    LastHolderProperty(act, f, n);
    assert OrderedSeq(es, act);
    assert forall id | id in es && Holds(f, id, n) :: id in act;
    if LastHolder(act, f, n).Some? {
      var p :| IsLast(act, f, n, p) && act[p] == LastHolder(act, f, n).value;
      HolderHasEntry(f, act, extra, env, y, ids, n, act[p]);
      SameLast(es, act, f, n, p);
    }
  }

  /** In a list that is ordered along the active blocks, the last holder is the innermost one. */
  lemma SameLast(es: seq<BlockId>, act: seq<BlockId>, f: Frame, n: Name, p: int)
    requires OrderedSeq(es, act) && IsLast(act, f, n, p) && act[p] in es
    requires forall id | id in es && Holds(f, id, n) :: id in act
    ensures LastHolder(es, f, n) == Some(act[p])
  {
    LastHolderProperty(es, f, n);
    var k :| 0 <= k < |es| && es[k] == act[p];
    var j :| IsLast(es, f, n, j) && es[j] == LastHolder(es, f, n).value;
    assert es[j] in es;
    var q :| 0 <= q < |act| && act[q] == es[j];
    assert k <= j && q <= p;
    if k < j {
      assert NotAfter(es[k], es[j], act);
    }
  }

  lemma HolderHasEntry(
      f: Frame, act: seq<BlockId>, extra: set<BlockId>, env: Index, y: Index, ids: seq<BlockId>, n: Name, id: BlockId)
    requires act != [] && Covered(f, act, extra, env) && Tail(env, y, act[|act| - 1])
    requires forall e | e in extra :: e !in ids
    requires Holds(f, id, n) && id in ids
    ensures id in Entries(y, n)
  {
    var k :| 0 <= k < |Entries(env, n)| && Entries(env, n)[k] == id;
    assert Entries(y, n)[k] == id;
  }

  // ----- the order of the index, with or without hidden locals -----

  function StripHead(es: seq<BlockId>, b: BlockId): seq<BlockId> {
    if es != [] && es[0] == b then StripHead(es[1..], b) else es
  }

  function StripTail(es: seq<BlockId>, b: BlockId): seq<BlockId> {
    if es != [] && es[|es| - 1] == b then StripTail(es[..|es| - 1], b) else es
  }

  /** The entries between those that block `b` put in front and those it appended. */
  function Inner(es: seq<BlockId>, b: BlockId): seq<BlockId> {
    StripTail(StripHead(es, b), b)
  }

  /** The entries of a name, for the active blocks `act`: each block has its `for` variables or parameters in
      front of what it inherits from the blocks around it, and its `local` names behind. */
  ghost predicate Layered(es: seq<BlockId>, act: seq<BlockId>)
    decreases |act|
  {
    act != [] ==>
      var b := act[|act| - 1];
      b !in Inner(es, b) && Layered(Inner(es, b), act[..|act| - 1])
  }

  ghost predicate Layers(x: Index, act: seq<BlockId>) {
    forall n: Name :: Layered(Entries(x, n), act)
  }

  /** The active block `b` has appended the name by a `local` statement, behind what it inherited. */
  predicate Appended(es: seq<BlockId>, act: seq<BlockId>, b: BlockId)
    decreases |act|
  {
    act != [] &&
    var top, rest := act[|act| - 1], StripHead(es, act[|act| - 1]);
    if b == top then rest != [] && rest[|rest| - 1] == b
    else Appended(Inner(es, top), act[..|act| - 1], b)
  }

  /** The innermost active block that holds the name declares it by a `local`, or no other one holds it. */
  ghost predicate FindsInnermost(es: seq<BlockId>, act: seq<BlockId>, f: Frame, n: Name) {
    match LastHolder(act, f, n)
    case None => true
    case Some(b) => Appended(es, act, b) || forall a | a in act && Holds(f, a, n) :: a == b
  }

  lemma {:induction false} StripHeadAppend(h: seq<BlockId>, es: seq<BlockId>, b: BlockId)
    requires (forall i | 0 <= i < |h| :: h[i] == b) && (es == [] || es[0] != b)
    ensures StripHead(h + es, b) == es
  {
    if h != [] {
      StripHeadAppend(h[1..], es, b);
      assert (h + es)[1..] == h[1..] + es;
    } else {
      assert h + es == es;
    }
  }

  lemma {:induction false} StripTailAppend(es: seq<BlockId>, t: seq<BlockId>, b: BlockId)
    requires forall i | 0 <= i < |t| :: t[i] == b
    ensures StripTail(es + t, b) == StripTail(es, b)
  {
    if t != [] {
      StripTailAppend(es, t[..|t| - 1], b);
      assert (es + t)[..|es + t| - 1] == es + t[..|t| - 1];
    } else {
      assert es + t == es;
    }
  }

  /** The three parts of a list. */
  lemma {:induction false} HeadParts(es: seq<BlockId>, b: BlockId) returns (h: seq<BlockId>)
    ensures es == h + StripHead(es, b) && forall i | 0 <= i < |h| :: h[i] == b
    ensures StripHead(es, b) == [] || StripHead(es, b)[0] != b
  {
    h := [];
    if es != [] && es[0] == b {
      var h' := HeadParts(es[1..], b);
      h := [b] + h';
      assert es == [b] + es[1..];
    }
  }

  lemma {:induction false} TailParts(es: seq<BlockId>, b: BlockId) returns (t: seq<BlockId>)
    ensures es == StripTail(es, b) + t && forall i | 0 <= i < |t| :: t[i] == b
    ensures StripTail(es, b) == [] || StripTail(es, b)[|StripTail(es, b)| - 1] != b
  {
    t := [];
    if es != [] && es[|es| - 1] == b {
      var t' := TailParts(es[..|es| - 1], b);
      t := t' + [b];
      assert es == es[..|es| - 1] + [b];
    }
  }

  /** What a block appends does not change what it inherited. */
  lemma AppendKeepsInner(es: seq<BlockId>, t: seq<BlockId>, b: BlockId)
    requires forall i | 0 <= i < |t| :: t[i] == b
    ensures Inner(es + t, b) == Inner(es, b)
  {
    var h := HeadParts(es, b);
    var rest := StripHead(es, b);
    if rest == [] {
      assert es == h;
      StripHeadAppend(h + t, [], b);
      assert h + t + [] == es + t;
    } else {
      StripHeadAppend(h, rest + t, b);
      assert h + (rest + t) == es + t;
      StripTailAppend(rest, t, b);
    }
  }

  lemma AppendKeepsLayers(x: Index, y: Index, act: seq<BlockId>)
    requires act != [] && Layers(x, act) && Tail(x, y, act[|act| - 1])
    ensures Layers(y, act)
  {
    var b := act[|act| - 1];
    forall n: Name ensures Layered(Entries(y, n), act) {
      var t := Entries(y, n)[|Entries(x, n)|..];
      assert Entries(y, n) == Entries(x, n) + t;
      assert Layered(Entries(x, n), act);
      AppendKeepsInner(Entries(x, n), t, b);
    }
  }

  /** Entering a block puts its own names in front. */
  lemma EnteredLayered(h: seq<BlockId>, es: seq<BlockId>, act: seq<BlockId>, b: BlockId)
    requires (forall i | 0 <= i < |h| :: h[i] == b) && b !in es && Layered(es, act)
    ensures Layered(h + es, act + [b])
  {
    assert es != [] ==> es[0] in es && es[|es| - 1] in es;
    StripHeadAppend(h, es, b);
    assert Inner(h + es, b) == es;
    assert (act + [b])[..|act + [b]| - 1] == act;
  }

  lemma EnteredLayers(k: Kind, n: Node, env: Index, act: seq<BlockId>, ids: seq<BlockId>)
    requires Layers(env, act) && Within(env, ids) && n.block.id !in ids
    ensures Layers(NodeEnv(k, n, env), act + [n.block.id])
  {
    var id := n.block.id;
    var head := InsertAll(map[], EntryNames(k, n), id);
    forall x: Name ensures Layered(Entries(NodeEnv(k, n, env), x), act + [id]) {
      AppendEntries(head, env, x);
      forall i | 0 <= i < |Entries(head, x)| ensures Entries(head, x)[i] == id {
        OnlyEntries(EntryNames(k, n), id, x, i);
      }
      assert Layered(Entries(env, x), act);
      EnteredLayered(Entries(head, x), Entries(env, x), act, id);
    }
  }

  lemma NoLayers(env: Index)
    ensures Layers(env, [])
  {
  }

  lemma EmptyLayers(id: BlockId)
    ensures Layers(map[], [id])
  {
  }

  // ----- what the scan of a layered list finds -----

  lemma {:induction false} LastHolderAppend(es: seq<BlockId>, t: seq<BlockId>, f: Frame, n: Name)
    ensures LastHolder(es + t, f, n) == if LastHolder(t, f, n).Some? then LastHolder(t, f, n) else LastHolder(es, f, n)
  {
    if t != [] {
      LastHolderAppend(es, t[..|t| - 1], f, n);
      assert (es + t)[..|es + t| - 1] == es + t[..|t| - 1];
    } else {
      assert es + t == es;
    }
  }

  lemma {:induction false} LastHolderSame(es: seq<BlockId>, f: Frame, n: Name, b: BlockId)
    requires forall i | 0 <= i < |es| :: es[i] == b
    ensures LastHolder(es, f, n) == if es != [] && Holds(f, b, n) then Some(b) else None
  {
    if es != [] { LastHolderSame(es[..|es| - 1], f, n, b); }
  }

  lemma InnerMembers(es: seq<BlockId>, b: BlockId, x: BlockId)
    requires x != b
    ensures x in Inner(es, b) <==> x in es
  {
    var h := HeadParts(es, b);
    var t := TailParts(StripHead(es, b), b);
    assert es == h + (Inner(es, b) + t);
    assert x !in h && x !in t;
  }

  /** The scan of the three parts of a layered list. */
  lemma ScanParts(es: seq<BlockId>, b: BlockId, f: Frame, n: Name)
    requires b !in Inner(es, b)
    ensures !Holds(f, b, n) ==> LastHolder(es, f, n) == LastHolder(Inner(es, b), f, n)
    ensures Holds(f, b, n) && b in es ==>
              LastHolder(es, f, n) == if StripHead(es, b) != [] && StripHead(es, b)[|StripHead(es, b)| - 1] == b
                  then Some(b)
                                      else if LastHolder(Inner(es, b), f, n).Some? then LastHolder(Inner(es, b), f, n)
                                      else Some(b)
  {
    hide LastHolder, StripHead, StripTail, Holds;
    var h := HeadParts(es, b);
    var rest := StripHead(es, b);
    var t := TailParts(rest, b);
    assert rest == Inner(es, b) + t;
    LastHolderAppend(h, rest, f, n);
    LastHolderAppend(Inner(es, b), t, f, n);
    LastHolderSame(h, f, n, b);
    LastHolderSame(t, f, n, b);
    assert t != [] ==> rest[|rest| - 1] == b;
    assert t == [] ==> rest == Inner(es, b);
    assert rest != [] ==> rest[|rest| - 1] in rest;
  }

  /** Exactly when the scan of the index finds the innermost active block that holds a name, in any
      program. */
  lemma {:induction false} ScanFindsInnermost(es: seq<BlockId>, act: seq<BlockId>, f: Frame, n: Name)
    requires NoRepeats(act) && Layered(es, act)
    requires forall id | id in es && Holds(f, id, n) :: id in act
    requires forall id | id in act && Holds(f, id, n) :: id in es
    ensures LastHolder(es, f, n) == LastHolder(act, f, n) <==> FindsInnermost(es, act, f, n)
    ensures LastHolder(es, f, n).None? <==> LastHolder(act, f, n).None?
    decreases |act|
  {
    hide StripTail, StripHead, Inner, FindsInnermost, LastHolder;
    HolderIn(es, f, n);
    HolderIn(act, f, n);
    if act == [] {
      NothingToFind(es, f, n);
    } else {
      var b, outer, mid := act[|act| - 1], act[..|act| - 1], Inner(es, act[|act| - 1]);
      assert act == outer + [b] && b !in outer;
      forall id ensures id != b ==> (id in mid <==> id in es) {
        if id != b { InnerMembers(es, b, id); }
      }
      ScanParts(es, b, f, n);
      HolderIn(mid, f, n);
      HolderIn(outer, f, n);
      ScanStep(es, act, f, n);
      if !Holds(f, b, n) {
        ScanFindsInnermost(mid, outer, f, n);
      }
    }
  }

  lemma NothingToFind(es: seq<BlockId>, f: Frame, n: Name)
    ensures FindsInnermost(es, [], f, n) && LastHolder([], f, n).None?
  {
  }

  lemma HolderIn(es: seq<BlockId>, f: Frame, n: Name)
    ensures LastHolder(es, f, n).None? <==> forall a | a in es :: !Holds(f, a, n)
    ensures LastHolder(es, f, n).Some? ==> LastHolder(es, f, n).value in es && Holds(f, LastHolder(es, f, n).value, n)
  {
    LastHolderProperty(es, f, n);
  }

  lemma ScanStep(es: seq<BlockId>, act: seq<BlockId>, f: Frame, n: Name)
    requires act != [] && NoRepeats(act)
    ensures var b, outer := act[|act| - 1], act[..|act| - 1];
      && LastHolder(act, f, n) == (if Holds(f, b, n) then Some(b) else LastHolder(outer, f, n))
      && (!Holds(f, b, n) ==>
            (FindsInnermost(es, act, f, n) <==> FindsInnermost(Inner(es, b), outer, f, n)))
      && (Holds(f, b, n) ==>
            (FindsInnermost(es, act, f, n) <==>
              (StripHead(es, b) != [] && StripHead(es, b)[|StripHead(es, b)| - 1] == b)
              || forall a | a in outer :: !Holds(f, a, n)))
  {
    hide StripTail, StripHead, Inner;
    var b, outer := act[|act| - 1], act[..|act| - 1];
    assert act == outer + [b] && b !in outer;
    HolderIn(outer, f, n);
  }

  /** The same for the index of a block, at a position of the program with index `env`. */
  lemma IndexFindsInnermost(
      f: Frame, act: seq<BlockId>, extra: set<BlockId>, env: Index, y: Index, ids: seq<BlockId>, n: Name)
    requires act != [] && NoRepeats(act) && Covered(f, act, extra, env)
    requires Layers(env, act) && Within(env, ids) && forall a | a in act :: a in ids
    requires forall id | id in extra :: id !in ids
    requires Tail(env, y, act[|act| - 1])
    ensures LastHolder(Entries(y, n), f, n) == LastHolder(act, f, n) <==> FindsInnermost(Entries(y, n), act, f, n)
    ensures LastHolder(Entries(y, n), f, n).None? <==> LastHolder(act, f, n).None?
  {
    hide Layered, FindsInnermost, LastHolder;
    AppendKeepsLayers(env, y, act);
    assert Layered(Entries(y, n), act);
    forall id | id in act && Holds(f, id, n) ensures id in Entries(y, n) {
      HolderHasEntry(f, act, extra, env, y, ids, n, id);
    }
    forall id | id in Entries(y, n) && Holds(f, id, n) ensures id in act {
      EntryWithin(env, y, act, ids, n, id);
    }
    ScanFindsInnermost(Entries(y, n), act, f, n);
  }

  lemma EntryWithin(env: Index, y: Index, act: seq<BlockId>, ids: seq<BlockId>, n: Name, id: BlockId)
    requires act != [] && Within(env, ids) && (forall a | a in act :: a in ids) && Tail(env, y, act[|act| - 1])
    requires id in Entries(y, n)
    ensures id in ids
  {
    var k :| 0 <= k < |Entries(y, n)| && Entries(y, n)[k] == id;
    if k < |Entries(env, n)| {
      assert Entries(env, n)[k] == id;
    } else {
      assert id == act[|act| - 1];
    }
  }

  /** Where the body of a `for` is entered, the entry of its variable stands in front: the variable is found
      exactly when no block whose local of that name is visible at the loop holds the name. */
  lemma ForVariableFound(k: Kind, body: Node, env: Index, f: Frame, x: Name)
    requires body.Sub? && x in HeadNames(k) && body.block.id !in Entries(env, x) && Holds(f, body.block.id, x)
    ensures LastHolder(Entries(NodeEnv(k, body, env), x), f, x) == Some(body.block.id)
      <==> forall a | a in Entries(env, x) :: !Holds(f, a, x)
  {
    var id, head := body.block.id, Entries(InsertAll(map[], EntryNames(k, body), body.block.id), x);
    AppendEntries(InsertAll(map[], EntryNames(k, body), id), env, x);
    InsertAllEntries(map[], EntryNames(k, body), id, x);
    forall i | 0 <= i < |head| ensures head[i] == id {
      OnlyEntries(EntryNames(k, body), id, x, i);
    }
    LastHolderSame(head, f, x, id);
    LastHolderAppend(head, Entries(env, x), f, x);
    HolderIn(Entries(env, x), f, x);
  }

  /** `local i; for i = 1, 2 do print(i) end`: in the body the scan finds the outer `i`. */
  lemma ForVariableHidden(body: Block, chunk: Block, t: Tables, f: Frame, outer: Cell, inner: Cell)
    requires body == Block(1, [Stat(Kind.Plain, [])])
    requires chunk == Block(0, [Stat(Kind.Local(["i"]), []), Stat(Kind.NumFor("i"), [Sub(body)])])
    requires Analyzed(chunk, map[], [0], t) && f == map[0 := map["i" := outer], 1 := map["i" := inner]]
    ensures WellFormed(chunk) && 1 in t.index && Entries(t.index[1], "i") == [1, 0]
    ensures LastHolder(Entries(t.index[1], "i"), f, "i") == Some(0) && LastHolder([0, 1], f, "i") == Some(1)
    ensures !FindsInnermost(Entries(t.index[1], "i"), [0, 1], f, "i")
  {
    hide Analyzed, WellFormed, NodeEnv, EnvAt, Append, InsertAll;
    HiddenTree(body, chunk, t);
    assert [1, 0][..1] == [1] && [0, 1][..1] == [0] && [1][..0] == [] && [0][..0] == [];
    assert StripHead([1, 0], 1) == [0] by {
      assert [1, 0][1..] == [0];
    }
    assert 0 in [0, 1] && Holds(f, 0, "i");
  }

  lemma HiddenTree(body: Block, chunk: Block, t: Tables)
    requires body == Block(1, [Stat(Kind.Plain, [])])
    requires chunk == Block(0, [Stat(Kind.Local(["i"]), []), Stat(Kind.NumFor("i"), [Sub(body)])])
    requires Analyzed(chunk, map[], [0], t)
    ensures WellFormed(chunk) && 1 in t.index && Entries(t.index[1], "i") == [1, 0]
  {
    assert WellFormedStat(body.stats[0]) && WellFormed(body);
    assert WellFormedStat(chunk.stats[0]) && WellFormedStat(chunk.stats[1]);
    var loop := chunk.stats[1];
    var env := EnvAt(chunk, map[], 2);
    assert AnalyzedStat(loop, env, [0], t);
    assert AnalyzedNode(loop.kind, loop.nodes[0], env, [0], t);
    HiddenEntries(body, chunk);
  }

  lemma HiddenEntries(body: Block, chunk: Block)
    requires body == Block(1, [Stat(Kind.Plain, [])])
    requires chunk == Block(0, [Stat(Kind.Local(["i"]), []), Stat(Kind.NumFor("i"), [Sub(body)])])
    ensures var env := EnvAt(chunk, map[], 2);
            Entries(EnvAt(body, NodeEnv(Kind.NumFor("i"), Sub(body), env), 1), "i") == [1, 0]
  {
    assert ["i"][..0] == [];
    assert EnvAt(chunk, map[], 1) == Insert(map[], "i", 0);
    assert EnvAt(chunk, map[], 2) == Insert(map[], "i", 0);
  }
}
