/** The listener that walks the tree before a run: it builds the scopes for the check of gotos, checks
breaks, and fills the tables that the interpreter uses. */
module Analysis {
  import opened Helpers
  import opened Syntax
  import opened Scoping
  import opened Scopes
  import opened Tabling
  import opened Forest
  import opened GotoRules
  import Control
  import Flow

  // ----- breaks -----

  /** Whether some loop is entered and not yet left when child `j` is walked. */
  predicate NodeOpen(s: Stat, j: int, open: bool) {
    open || (IsLoop(s.kind) && j <= BodyIndex(s))
  }

  /** The walk meets no break outside of all loops; `open` says that it starts inside a loop. */
  ghost predicate Passes(b: Block, open: bool) {
    forall i | 0 <= i < |b.stats| :: PassesStat(b.stats[i], open)
  }

  ghost predicate PassesStat(s: Stat, open: bool) {
    && (s.kind.Break? ==> open)
    && forall j | 0 <= j < |s.nodes| :: Passes(s.nodes[j].block, NodeOpen(s, j, open))
  }

  /** The first `j` children of a statement pass. */
  ghost predicate PassedUpTo(s: Stat, j: nat, open: bool) {
    j <= |s.nodes| && forall k | 0 <= k < j :: Passes(s.nodes[k].block, NodeOpen(s, k, open))
  }

  lemma PassedStep(s: Stat, j: nat, open: bool)
    requires j < |s.nodes| && PassedUpTo(s, j, open)
    ensures PassedUpTo(s, j + 1, open) <==> Passes(s.nodes[j].block, NodeOpen(s, j, open))
    ensures !PassedUpTo(s, j + 1, open) ==> !PassesStat(s, open)
  {
  }

  lemma PassedAll(s: Stat, open: bool)
    ensures PassedUpTo(s, 0, open)
    ensures PassesStat(s, open) <==> PassedUpTo(s, |s.nodes|, open) && (s.kind.Break? ==> open)
  {
  }

  /** Every break has an enclosing loop in its own function. */
  ghost predicate BreaksEnclosed(chunk: Block) {
    !FreeBreak(chunk) && FunctionsEnclose(chunk)
  }

  /** The breaks of nested functions do. */
  ghost predicate FunctionsEnclose(chunk: Block) {
    forall f | f in Funcs(chunk) :: !FreeBreak(f)
  }

  /** Such programs pass. */
  lemma {:induction false} EnclosedBreaksPass(b: Block, open: bool)
    requires WellFormed(b) && (open || !FreeBreak(b))
    requires FunctionsEnclose(b)
    ensures Passes(b, open)
  {
    forall i | 0 <= i < |b.stats| ensures PassesStat(b.stats[i], open) {
      var s := b.stats[i];
      FuncsMember(b, i, |b.stats|);
      assert WellFormedStat(s);
      forall j | 0 <= j < |s.nodes| ensures Passes(s.nodes[j].block, NodeOpen(s, j, open)) {
        StatFuncsMember(s, j, |s.nodes|);
        EnclosedBreaksPass(s.nodes[j].block, NodeOpen(s, j, open));
      }
    }
  }

  lemma {:induction false} PassesHasNoFreeBreak(b: Block)
    requires Passes(b, false)
    ensures !FreeBreak(b)
  {
    forall i | 0 <= i < |b.stats| ensures !FreeBreakStat(b.stats[i]) {
      var s := b.stats[i];
      assert PassesStat(s, false);
      forall j | 0 <= j < |s.nodes| && s.nodes[j].Sub? && !IsLoop(s.kind) ensures !FreeBreak(s.nodes[j].block) {
        PassesHasNoFreeBreak(s.nodes[j].block);
      }
    }
  }

  /** The walk also lets pass a break of a function that is defined inside a loop: the breaks of a program
      that passes have enclosing loops exactly when no nested function has a break without one. */
  lemma {:induction false} PassingBreaks(chunk: Block)
    requires WellFormed(chunk)
    ensures BreaksEnclosed(chunk) <==> Passes(chunk, false) && FunctionsEnclose(chunk)
  {
    hide Passes, FreeBreak, Funcs, WellFormed, FunctionsEnclose;
    if BreaksEnclosed(chunk) {
      EnclosedBreaksPass(chunk, false);
    }
    if Passes(chunk, false) {
      PassesHasNoFreeBreak(chunk);
    }
  }

  /** `while c do local f = function() break end end` passes, and its break would leave the function. */
  lemma BreakOutOfFunctionPasses()
    ensures var f := Block(2, [Stat(Kind.Break, [])]);
            var body := Block(1, [Stat(Kind.Local(["f"]), [Func([], f)])]);
            var chunk := Block(0, [Stat(Kind.While, [Sub(body)])]);
            WellFormed(chunk) && Passes(chunk, false) && FreeBreak(f)
            && Flow.BlockCan(f, 0, Control.Outcome.Break)
  {
    var f := Block(2, [Stat(Kind.Break, [])]);
    var body := Block(1, [Stat(Kind.Local(["f"]), [Func([], f)])]);
    var chunk := Block(0, [Stat(Kind.While, [Sub(body)])]);
    assert FreeBreakStat(f.stats[0]);
    assert Flow.StepsTo(f, 0, Control.Outcome.Break, Control.Outcome.Break);
    assert Flow.StatCan(f.stats[0], Control.Outcome.Break);
    assert WellFormedStat(f.stats[0]) && WellFormed(f);
    assert WellFormedStat(body.stats[0]) && WellFormed(body);
    assert WellFormedStat(chunk.stats[0]);
    assert PassesStat(f.stats[0], true) && Passes(f, true);
    assert PassesStat(body.stats[0], true) && Passes(body, true);
    assert PassesStat(chunk.stats[0], false);
  }

  // ----- scopes -----

  /** The walk changed the current scope and added the scopes of the functions `fs`. */
  ghost predicate ScopesStep(pre: seq<Scope>, post: seq<Scope>, cur: nat, fs: seq<Block>) {
    && cur < |pre| && |post| == |pre| + |fs|
    && (forall k | 0 <= k < |pre| && k != cur :: post[k] == pre[k])
    && post[cur].root == pre[cur].root
    && (forall k | 0 <= k < |fs| :: ScopeOf(post[|pre| + k], fs[k]))
  }

  lemma ScopesStepCompose(a: seq<Scope>, b: seq<Scope>, c: seq<Scope>, cur: nat, f: seq<Block>, g: seq<Block>)
    requires ScopesStep(a, b, cur, f) && ScopesStep(b, c, cur, g)
    ensures ScopesStep(a, c, cur, f + g)
  {
    forall k | 0 <= k < |f + g| ensures ScopeOf(c[|a| + k], (f + g)[k]) {
      if k < |f| {
        assert c[|a| + k] == b[|a| + k];
      } else {
        assert c[|a| + k] == c[|b| + (k - |f|)];
      }
    }
  }

  /** The scope of a function that has been walked. */
  lemma FunctionScope(a: seq<Scope>, c: seq<Scope>, cur: nat, body: Block)
    requires cur < |a| && ScopesStep(a + [Scope(map[], body.id)], c, |a|, Funcs(body))
    requires BlockListed(map[], c[|a|].elements, None, body)
    ensures ScopesStep(a, c, cur, [body] + Funcs(body)) && c[cur] == a[cur]
  {
    var b := a + [Scope(map[], body.id)];
    TabledHasOwn(body, c[|a|].elements);
    assert ScopeOf(c[|a|], body);
    var fs := [body] + Funcs(body);
    forall k | 0 <= k < |fs| ensures ScopeOf(c[|a| + k], fs[k]) {
      if k > 0 {
        assert fs[k] == Funcs(body)[k - 1];
        assert c[|a| + k] == c[|b| + (k - 1)];
      }
    }
    assert forall k | 0 <= k < |a| :: b[k] == a[k];
  }

  lemma NoNames(m: map<BlockId, Index>)
    ensures forall id :: WithNames(m, id, []) == m
  {
  }

  lemma ScopesPushed(pre: seq<Scope>, post: seq<Scope>, cur: nat)
    requires cur < |pre| && |post| == |pre| && post == pre[cur := post[cur]] && post[cur].root == pre[cur].root
    ensures ScopesStep(pre, post, cur, [])
  {
  }

  lemma EnterPushed(s0: seq<Scope>, s1: seq<Scope>, cur: nat, parent: Option<BlockId>, id: BlockId)
    requires cur < |s0| && (parent.Some? ==> parent.value in s0[cur].elements)
    requires s1 == Pushed(if parent.Some? then Pushed(s0, cur, parent.value, [BlockE(id)]) else s0, cur, id, [])
    ensures ScopesStep(s0, s1, cur, []) && |s1| == |s0|
    ensures var m0 := s0[cur].elements;
            var m1 := if parent.Some? then m0[parent.value := m0[parent.value] + [BlockE(id)]] else m0;
            s1[cur].elements == m1[id := ListAt(m1, id) + []]
  {
    ScopesPushed(s0, s1, cur);
  }

  lemma BlockEnteredFacts(t: Tables, open: seq<BlockId>, id: BlockId)
    requires open != [] ==> open[|open| - 1] in t.index
    ensures id in BlockEntered(t, open, id).index && BlockEntered(t, open, id).parents == t.parents
  {
  }

  lemma StatPushed(s0: seq<Scope>, s1: seq<Scope>, cur: nat, ctx: BlockId, s: Stat)
    requires cur < |s0| && ctx in s0[cur].elements && s1 == Pushed(s0, cur, ctx, KindElements(s.kind))
    requires ctx !in StatIds(s) && forall id | id in StatOwn(s) :: id !in s0[cur].elements
    ensures ScopesStep(s0, s1, cur, []) && |s1| == |s0|
    ensures StatListed(s0[cur].elements, s1[cur].elements, ctx, s, 0)
  {
    ScopesPushed(s0, s1, cur);
    forall k, id | 0 <= k < |s.nodes| && s.nodes[k].Sub?
        && id in Own(s.nodes[k].block) ensures id !in s1[cur].elements {
      NodeInStat(s, k);
    }
  }

  /** What is known when child `j` of a statement is walked. */
  lemma NodeStarts(s: Stat, j: nat, t: Tables, t': Tables, m: Elements, m': Elements, ctx: BlockId,
      chain: seq<BlockId>, loops: set<BlockId>)
    requires WellFormedStat(s) && DistinctStat(s) && j < |s.nodes|
    requires StatTables(t, t', ctx, s, j, chain) && StatListed(m, m', ctx, s, j)
    requires forall id | id in chain :: id !in StatIds(s)
    requires forall id | id in loops :: id !in StatIds(s)
    ensures WellFormed(s.nodes[j].block) && Distinct(s.nodes[j].block) && NodeFresh(t', s.kind, s.nodes[j])
    ensures forall id | id in chain :: id !in Ids(s.nodes[j].block)
    ensures forall id | id in loops :: id !in Ids(s.nodes[j].block)
    ensures s.nodes[j].block.id in Ids(s.nodes[j].block)
    ensures s.nodes[j].Sub? ==> forall id | id in Own(s.nodes[j].block) :: id !in m'
    ensures ctx in m'
    ensures IsLoop(s.kind) && j != BodyIndex(s) ==> s.nodes[BodyIndex(s)].block.id !in Ids(s.nodes[j].block)
  {
    hide Ids, StatIds, Own, StatOwn, AnalyzedNode, Tabled, CtxTables, StatElements, Outside, NodeFresh, WellFormed,
      Distinct;
    NodeIdsInStat(s, j);
    if IsLoop(s.kind) && j != BodyIndex(s) {
      NodeIdsInStat(s, BodyIndex(s));
      if j < BodyIndex(s) {
        SiblingIds(s, j, BodyIndex(s));
      } else {
        SiblingIds(s, BodyIndex(s), j);
      }
    }
  }

  lemma StatFuncsStep(s: Stat, j: nat)
    requires j < |s.nodes|
    ensures StatFuncs(s, j + 1) == StatFuncs(s,
        j) + ((if s.nodes[j].Func? then [s.nodes[j].block] else []) + Funcs(s.nodes[j].block))
  {
  }

  lemma ShapedStat(s: Stat)
    requires WellFormedStat(s)
    ensures Shaped(s)
  {
  }

  lemma BodyInside(s: Stat)
    requires Shaped(s)
    ensures IsLoop(s.kind) ==> 0 <= BodyIndex(s) < |s.nodes|
  {
  }

  lemma IdIn(b: Block)
    ensures b.id in Ids(b) && b.id in Own(b)
  {
  }

  lemma CtxIndexed(t: Tables, t': Tables, ctx: BlockId, s: Stat, j: nat, chain: seq<BlockId>)
    requires j <= |s.nodes| && StatTables(t, t', ctx, s, j, chain)
    ensures ctx in t'.index
  {
  }

  lemma StatFuncsNone(s: Stat)
    ensures StatFuncs(s, 0) == []
  {
  }

  /** What is known when the first statement of a block is walked. */
  lemma BlockStarts(b: Block, m0: Elements, m: Elements, parent: Option<BlockId>)
    requires Distinct(b)
    requires forall id | id in Own(b) && id in m0 :: id == b.id && m0[id] == []
    requires parent.Some? ==> parent.value in m0 && parent.value !in Ids(b)
    requires var m1 := if parent.Some? then m0[parent.value := m0[parent.value] + [BlockE(b.id)]] else m0;
             m == m1[b.id := ListAt(m1, b.id) + []]
    ensures StatsListed(m, m, b, 0) && b.id in Own(b) && b.id in Ids(b)
    ensures m == (if parent.Some? then m0[parent.value := m0[parent.value] + [BlockE(b.id)]] else m0)[b.id := []]
    ensures parent.Some? ==> parent.value !in Own(b)
  {
    OwnWithinIds(b);
    forall k, id | 0 <= k < |b.stats| && id in StatOwn(b.stats[k]) ensures id !in m {
      StatOwnInBlock(b, k);
      StatOwnWithinIds(b.stats[k]);
    }
  }

  /** What is known when statement `i` of a block is walked. */
  lemma StatStarts(b: Block, t: Tables, t': Tables, m: Elements, m': Elements, env: Index, chain: seq<BlockId>,
      i: nat, loops: set<BlockId>)
    requires WellFormed(b) && Distinct(b) && i < |b.stats|
    requires StatsTables(t, t', b, env, chain, i) && StatsListed(m, m', b, i)
    requires forall id | id in loops :: id in Ids(b) ==> id == b.id
    requires forall id | id in chain :: id in Ids(b) ==> id == b.id
    ensures WellFormedStat(b.stats[i]) && DistinctStat(b.stats[i]) && StatFresh(t', b.stats[i])
    ensures forall id | id in chain :: id !in StatIds(b.stats[i])
    ensures forall id | id in loops :: id !in StatIds(b.stats[i])
    ensures b.id in m' && forall id | id in StatOwn(b.stats[i]) :: id !in m'
  {
    StatIdsInBlock(b, i);
  }

  lemma FuncsStep(b: Block, i: nat)
    requires i < |b.stats|
    ensures FuncsUpTo(b, i + 1) == FuncsUpTo(b, i) + StatFuncs(b.stats[i], |b.stats[i].nodes|)
  {
  }

  lemma FuncsNone(b: Block)
    ensures FuncsUpTo(b, 0) == []
  {
  }

  lemma WithNamesKeeps(m: map<BlockId, Index>)
    ensures forall id, ns :: m.Keys <= WithNames(m, id, ns).Keys
  {
  }

  lemma PushedSize(scopes: seq<Scope>, cur: nat, ctx: BlockId)
    requires cur < |scopes|
    ensures forall es :: |Pushed(scopes, cur, ctx, es)| == |scopes|
  {
  }

  /** One scope per function, in the order in which the walk enters the functions. */
  ghost predicate ScopesOf(scopes: seq<Scope>, roots: seq<Block>) {
    |scopes| == |roots| && forall k | 0 <= k < |roots| :: ScopeOf(scopes[k], roots[k])
  }

  /** The functions of a program: the chunk and all functions below it. */
  function Roots(chunk: Block): seq<Block> {
    [chunk] + Funcs(chunk)
  }

  lemma ChunkScopes(chunk: Block, post: seq<Scope>)
    requires ScopesStep([Scope(map[chunk.id := []], chunk.id)], post, 0, Funcs(chunk))
    requires BlockListed(map[chunk.id := []], post[0].elements, None, chunk)
    ensures ScopesOf(post, Roots(chunk))
  {
    hide Own, Tabled;
    TabledHasOwn(chunk, post[0].elements);
    IdIn(chunk);
    var roots := Roots(chunk);
    forall k | 0 <= k < |roots| ensures ScopeOf(post[k], roots[k]) {
      if k > 0 {
        assert roots[k] == Funcs(chunk)[k - 1] && post[k] == post[1 + (k - 1)];
      }
    }
  }

  lemma RootsApart(chunk: Block)
    requires Distinct(chunk)
    ensures Apart(Roots(chunk), Ids(chunk), {})
  {
    hide Own, Ids, Distinct;
    FuncsApart(chunk);
    OwnWithinIds(chunk);
    var roots := Roots(chunk);
    assert forall k | 1 <= k < |roots| :: roots[k] == Funcs(chunk)[k - 1];
  }

  /** The verdict on one scope. */
  ghost predicate ScopeLegal(sc: Scope, root: Block) {
    && root.id in sc.elements && AllUnique(root, sc.elements)
    && AllLegal(sc.elements, [], root.id, |sc.elements[root.id]|)
  }

  lemma RejectedScope(sc: Scope, root: Block, v: Verdict)
    requires ScopeOf(sc, root)
    requires (v.LabelAlreadyDefined? && SomeRepeated(root, sc.elements, v.mark))
             || ((v.InvisibleLabel? || v.CrossedLocal?) && SomeRejected(sc.elements, [], root.id, v))
    ensures !ScopeLegal(sc, root)
  {
    if v.LabelAlreadyDefined? {
      RepeatedIsNotUnique(root, sc.elements, v.mark);
    } else {
      var q, l :| IsSite(sc.elements, root.id, q, l) && InBounds(sc.elements, [] + q)
          && Rejected(sc.elements, [] + q, l, v);
      PathSteps(sc.elements, root.id, q, l);
      RejectedIsNotLegal(sc.elements, [] + q, l, v);
    }
  }

  class SyntacticAnalyzer {
    var context: Option<BlockId>
    var blocks: seq<BlockId>
    var scopes: seq<Scope>
    var stackScopes: seq<nat>
    var currentScope: nat
    var loopBlocks: set<BlockId>
    var labelToContext: map<Name, seq<BlockId>>
    var localsPerBlock: map<BlockId, Index>
    var blocksRelations: seq<BlockId>
    var functionsParents: map<BlockId, seq<BlockId>>

    constructor ()
      ensures context == None && blocks == [] && scopes == [] && stackScopes == [] && loopBlocks == {}
      ensures T() == Tables(map[], map[], map[], false) && blocksRelations == []
    {
      context, blocks, scopes, stackScopes, currentScope := None, [], [], [], 0;
      loopBlocks, labelToContext, localsPerBlock := {}, map[], map[];
      blocksRelations, functionsParents := [], map[];
    }

    ghost function T(): Tables
      reads this
    {
      Tables(labelToContext, localsPerBlock, functionsParents, false)
    }

    /** Both stacks of blocks hold the same blocks, and each of them has an index. */
    ghost predicate Walking()
      reads this
    {
      && currentScope < |scopes| && stackScopes != [] && stackScopes[|stackScopes| - 1] == currentScope
      && blocksRelations == blocks
      && (forall i | 0 <= i < |blocks| :: blocks[i] in localsPerBlock)
    }

    ghost function Current(): Elements
      reads this
      requires currentScope < |scopes|
    {
      scopes[currentScope].elements
    }

    // ----- listener -----

    method PushElement(e: Element)
      requires currentScope < |scopes| && context.Some?
      modifies this`scopes
      ensures scopes == Pushed(old(scopes), currentScope, context.value, [e])
    {
      var sc := scopes[currentScope];
      scopes := scopes[currentScope := sc.(elements := sc.elements[context.value := ListAt(sc.elements,
          context.value) + [e]])];
    }

    method PushLocals(ns: seq<Name>)
      requires currentScope < |scopes| && context.Some? && context.value in Current()
      modifies this`scopes
      ensures scopes == Pushed(old(scopes), currentScope, context.value, Locals(ns))
    {
      PushedMore(scopes, currentScope, context.value, [], []);
      assert Locals(ns[..0]) == [];
      for i := 0 to |ns|
        invariant |scopes| == |old(scopes)|
        invariant scopes == Pushed(old(scopes), currentScope, context.value, Locals(ns[..i]))
      {
        PushElement(LocalE(ns[i]));
        PushedMore(old(scopes), currentScope, context.value, Locals(ns[..i]), [LocalE(ns[i])]);
        assert Locals(ns[..i + 1]) == Locals(ns[..i]) + [LocalE(ns[i])];
      }
      assert ns[..|ns|] == ns;
    }

    /** Adds names to the index of a block. */
    method InsertNames(id: BlockId, ns: seq<Name>)
      modifies this`localsPerBlock
      ensures localsPerBlock == WithNames(old(localsPerBlock), id, ns)
    {
      for i := 0 to |ns|
        invariant localsPerBlock == WithNames(old(localsPerBlock), id, ns[..i])
      {
        assert ns[..i + 1][..i] == ns[..i];
        localsPerBlock := localsPerBlock[id := Insert(IndexAt(localsPerBlock, id), ns[i], id)];
      }
      assert ns[..|ns|] == ns;
    }

    method EnterChunk(id: BlockId)
      modifies this`scopes, this`stackScopes, this`currentScope
      ensures scopes == old(scopes) + [Scope(map[id := []], id)] && currentScope == |old(scopes)|
      ensures stackScopes == old(stackScopes) + [currentScope]
    {
      scopes := scopes + [Scope(map[id := []], id)];
      currentScope := |scopes| - 1;
      stackScopes := stackScopes + [currentScope];
    }

    /** Name by name, the entries of `source` are put behind those of `target`. */
    method AppendIndex(target: Index, source: Index) returns (r: Index)
      ensures r == Append(target, source)
    {
      r := target;
      var names := source.Keys;
      while names != {}
        invariant names <= source.Keys
        invariant r.Keys == target.Keys + (source.Keys - names)
        invariant forall n | n in r :: r[n] == Entries(target, n) + (if n in names then [] else Entries(source, n))
      {
        var n :| n in names;
        r := r[n := Entries(r, n) + source[n]];
        names := names - {n};
      }
    }

    method EnterBlock(id: BlockId)
      requires Walking() && (context.Some? ==> context.value in Current())
      modifies this`blocks, this`scopes, this`context, this`localsPerBlock, this`blocksRelations
      ensures Walking() && blocks == old(blocks) + [id] && context == Some(id)
      ensures T() == BlockEntered(old(T()), old(blocks), id)
      ensures scopes == Pushed(
                if old(context).Some? then Pushed(old(scopes), currentScope, old(context).value, [BlockE(id)])
                else old(scopes), currentScope, id, [])
    {
      blocks := blocks + [id];
      if context.Some? {
        PushElement(BlockE(id));
      }
      var sc := scopes[currentScope];
      scopes := scopes[currentScope := sc.(elements := sc.elements[id := ListAt(sc.elements, id)])];
      assert ListAt(sc.elements, id) + [] == ListAt(sc.elements, id);
      context := Some(id);
      if blocksRelations == [] {
        localsPerBlock := localsPerBlock[id := IndexAt(localsPerBlock, id)];
      } else {
        var x := AppendIndex(IndexAt(localsPerBlock, id), localsPerBlock[blocksRelations[|blocksRelations| - 1]]);
        localsPerBlock := localsPerBlock[id := x];
      }
      blocksRelations := blocksRelations + [id];
    }

    method ExitBlock(id: BlockId) returns (balanced: bool)
      requires Walking() && blocks != []
      modifies this`blocks, this`context, this`loopBlocks, this`blocksRelations
      ensures balanced <==> old(blocks)[|old(blocks)| - 1] == id
      ensures balanced ==>
                && Walking() && blocks == old(blocks)[..|old(blocks)| - 1]
                && loopBlocks == old(loopBlocks) - {id}
      ensures balanced ==> context == if blocks == [] then None else Some(blocks[|blocks| - 1])
    {
      if blocks[|blocks| - 1] != id {
        return false;
      }
      blocks := blocks[..|blocks| - 1];
      context := if blocks == [] then None else Some(blocks[|blocks| - 1]);
      loopBlocks := loopBlocks - {id};
      blocksRelations := blocksRelations[..|blocksRelations| - 1];
      balanced := true;
    }

    /** Records what a statement says about its own block, and rejects a break outside of all loops. */
    method EnterStat(s: Stat) returns (ok: bool)
      requires Walking() && blocks != [] && context == Some(blocks[|blocks| - 1]) && Shaped(s)
      requires context.value in Current()
      modifies this`scopes, this`localsPerBlock, this`labelToContext, this`loopBlocks
      ensures ok <==> (s.kind.Break? ==> old(loopBlocks) != {})
      ensures Walking()
      ensures ok ==> T() == StatEntered(old(T()), context.value, s)
      ensures ok ==> loopBlocks == old(loopBlocks) + if IsLoop(s.kind) then {s.nodes[BodyIndex(s)].block.id} else {}
      ensures ok ==> scopes == Pushed(old(scopes), currentScope, context.value,
                                      if s.kind.Label? then [] else KindElements(s.kind))
    {
      hide Pushed, WithNames, ListAt, IndexAt, Locals;
      PushedMore(scopes, currentScope, context.value, [], []);
      NoNames(localsPerBlock);
      WithNamesKeeps(localsPerBlock);
      PushedSize(scopes, currentScope, context.value);
      var ctx := blocksRelations[|blocksRelations| - 1];
      ok := true;
      match s.kind
      case Goto(l) =>
        PushElement(GotoE(l));
      case LocalFunction(n) =>
        PushElement(LocalE(n));
        InsertNames(ctx, [n]);
      case Local(ns) =>
        PushLocals(ns);
        InsertNames(ctx, ns);
      case Function(n) =>
        PushElement(LocalE(n));
      case Label(l) =>
        labelToContext := labelToContext[l := Entries(labelToContext, l) + [ctx]];
      case NumFor(n) =>
        loopBlocks := loopBlocks + {s.nodes[BodyIndex(s)].block.id};
        InsertNames(s.nodes[BodyIndex(s)].block.id, [n]);
      case ForIn(ns) =>
        loopBlocks := loopBlocks + {s.nodes[BodyIndex(s)].block.id};
        InsertNames(s.nodes[BodyIndex(s)].block.id, ns);
      case While =>
        loopBlocks := loopBlocks + {s.nodes[BodyIndex(s)].block.id};
      case Repeat =>
        loopBlocks := loopBlocks + {s.nodes[BodyIndex(s)].block.id};
      case Break =>
        ok := loopBlocks != {};
      case _ =>
    }

    method EnterLabel(l: Name)
      requires currentScope < |scopes| && context.Some?
      modifies this`scopes
      ensures scopes == Pushed(old(scopes), currentScope, context.value, [LabelE(l)]) && |scopes| == |old(scopes)|
    {
      PushElement(LabelE(l));
    }

    /** Lists the open blocks as those that a function can see. */
    method AddParents(id: BlockId)
      modifies this`functionsParents
      ensures functionsParents == WithParents(old(functionsParents), id, blocksRelations)
    {
      for i := 0 to |blocksRelations|
        invariant functionsParents == WithParents(old(functionsParents), id, blocksRelations[..i])
      {
        assert blocksRelations[..i + 1] == blocksRelations[..i] + [blocksRelations[i]];
        ghost var before := functionsParents;
        functionsParents := functionsParents[id := ParentsAt(functionsParents, id) + [blocksRelations[i]]];
        assert ParentsAt(before, id) == ParentsAt(old(functionsParents), id) + blocksRelations[..i];
        assert ParentsAt(before, id) + [blocksRelations[i]] == ParentsAt(old(functionsParents),
            id) + blocksRelations[..i + 1];
      }
      assert blocksRelations[..|blocksRelations|] == blocksRelations;
    }

    /** Starts the scope of a function and lists the blocks that the function can see. */
    method EnterFuncbody(n: Node)
      requires n.Func?
      modifies this`localsPerBlock, this`functionsParents, this`scopes, this`stackScopes, this`currentScope,
          this`context
      ensures T() == FuncEntered(old(T()), blocksRelations, n)
      ensures old(Walking()) ==> Walking()
      ensures scopes == old(scopes) + [Scope(map[], n.block.id)] && currentScope == |old(scopes)|
      ensures stackScopes == old(stackScopes) + [currentScope] && context == None
    {
      InsertNames(n.block.id, n.params);
      AddParents(n.block.id);
      scopes := scopes + [Scope(map[], n.block.id)];
      currentScope := |scopes| - 1;
      stackScopes := stackScopes + [currentScope];
      context := None;
    }

    method ExitFuncbody()
      requires |stackScopes| >= 2
      modifies this`stackScopes, this`currentScope
      ensures stackScopes == old(stackScopes)[..|old(stackScopes)| - 1]
          && currentScope == stackScopes[|stackScopes| - 1]
    {
      stackScopes := stackScopes[..|stackScopes| - 1];
      currentScope := stackScopes[|stackScopes| - 1];
    }

    // ----- the walk -----

    /** Nothing is recorded yet for a block that is about to be walked. */
    ghost predicate BlockNew(b: Block)
      reads this
    {
      && WellFormed(b) && Distinct(b)
      && NoLabels(T(), b.id) && (forall id | id in Ids(b) && id != b.id :: FreshAt(T(), id))
      && (forall id | id in loopBlocks :: id in Ids(b) ==> id == b.id)
      && (forall id | id in blocks :: id !in Ids(b))
    }

    method WalkBlock(b: Block) returns (ok: bool)
      requires Walking() && BlockNew(b)
      requires context.Some? ==> blocks != [] && context.value == blocks[|blocks| - 1] && context.value in Current()
      requires forall id | id in Own(b) && id in Current() :: id == b.id && Current()[id] == []
      modifies this
      ensures ok <==> Passes(b, old(loopBlocks) != {})
      ensures ok ==> Walking() && blocks == old(blocks) && stackScopes == old(stackScopes)
      ensures ok ==>
                && context == (if blocks == [] then None else Some(blocks[|blocks| - 1]))
                && loopBlocks == old(loopBlocks) - {b.id}
      ensures ok ==> Outside(old(T()), T(), Ids(b))
                     && Analyzed(b, BlockEntered(old(T()), old(blocks), b.id).index[b.id], blocks + [b.id], T())
      ensures ok && b.id in old(functionsParents) ==>
                b.id in functionsParents && functionsParents[b.id] == old(functionsParents)[b.id]
      ensures ok ==> ScopesStep(old(scopes), scopes, currentScope, Funcs(b))
                     && BlockListed(old(Current()), Current(), old(context), b)
      decreases b, 1
    {
      hide Analyzed, Ids, Own, Distinct, FreshAt, WellFormed, PassesStat, EnvAt, SameAt, StatIds, StatOwn;
      hide Outside, Tabled, BlockListed, StatsListed, StatsTables, ScopesStep, FuncsUpTo, NoLabels, Passes, Pushed;
      hide BlockEntered, Append, IndexAt, ListAt;
      ghost var t0, m0, s0, parent := T(), Current(), scopes, context;
      BlockEnteredFresh(t0, blocks, b, blocks + [b.id]);
      EnterBlock(b.id);
      ghost var t, m, s1 := T(), Current(), scopes;
      BlockEnteredFacts(t0, old(blocks), b.id);
      EnterPushed(s0, s1, currentScope, parent, b.id);
      BlockStarts(b, m0, m, parent);
      ok := WalkStats(b);
      if !ok {
        return;
      }
      ScopesStepCompose(s0, s1, scopes, currentScope, [], Funcs(b));
      assert [] + Funcs(b) == Funcs(b);
      BlockWalked(t0, t, T(), b, t.index[b.id], blocks);
      StatsListedInParent(m0, m, Current(), parent, b);
      ok := ExitBlock(b.id);
      assert blocks == old(blocks);
    }

    /** The statements of a block that has just been entered. */
    method WalkStats(b: Block) returns (ok: bool)
      requires Walking() && blocks != [] && blocks[|blocks| - 1] == b.id && context == Some(b.id)
      requires WellFormed(b) && Distinct(b)
      requires forall id | id in loopBlocks :: id in Ids(b) ==> id == b.id
      requires forall id | id in blocks :: id in Ids(b) ==> id == b.id
      requires StatsTables(T(), T(), b, T().index[b.id], blocks, 0) && StatsListed(Current(), Current(), b, 0)
      modifies this
      ensures ok <==> Passes(b, old(loopBlocks) != {})
      ensures ok ==> Walking() && blocks == old(blocks) && stackScopes == old(stackScopes) && context == old(context)
      ensures ok ==> loopBlocks == old(loopBlocks)
      ensures ok ==> StatsTables(old(T()), T(), b, old(T()).index[b.id], blocks, |b.stats|)
      ensures ok ==> StatsListed(old(Current()), Current(), b, |b.stats|)
      ensures ok ==> ScopesStep(old(scopes), scopes, currentScope, Funcs(b))
      decreases b, 0
    {
      hide Analyzed, Ids, Own, Distinct, WellFormed, PassesStat, EnvAt, StatIds, StatOwn, StatListed, StatTables;
      hide Outside, Tabled, StatsListed, StatsTables, ScopesStep, FuncsUpTo, StatFresh, WellFormedStat, DistinctStat;
      ghost var t, m, env := T(), Current(), T().index[b.id];
      ScopesPushed(scopes, scopes, currentScope);
      FuncsNone(b);
      var i := 0;
      while i < |b.stats|
        invariant 0 <= i <= |b.stats| && Walking()
        invariant blocks == old(blocks) && stackScopes == old(stackScopes) && context == old(context)
            && loopBlocks == old(loopBlocks)
        invariant StatsTables(t, T(), b, env, blocks, i) && StatsListed(m, Current(), b, i)
        invariant ScopesStep(old(scopes), scopes, currentScope, FuncsUpTo(b, i))
        invariant forall k | 0 <= k < i :: PassesStat(b.stats[k], old(loopBlocks) != {})
      {
        StatStarts(b, t, T(), m, Current(), env, blocks, i, loopBlocks);
        ghost var ti, mi, si := T(), Current(), scopes;
        ok := WalkStat(b.stats[i]);
        if !ok {
          return;
        }
        StatWalked(t, ti, T(), b, env, blocks, i);
        StatListedInBlock(m, mi, Current(), b, i);
        ScopesStepCompose(old(scopes), si, scopes, currentScope, FuncsUpTo(b, i),
            StatFuncs(b.stats[i], |b.stats[i].nodes|));
        FuncsStep(b, i);
        i := i + 1;
      }
      ok := true;
    }

    method WalkStat(s: Stat) returns (ok: bool)
      requires Walking() && blocks != [] && context == Some(blocks[|blocks| - 1])
      requires WellFormedStat(s) && DistinctStat(s) && StatFresh(T(), s)
      requires forall id | id in blocks :: id !in StatIds(s)
      requires forall id | id in loopBlocks :: id !in StatIds(s)
      requires context.value in Current() && forall id | id in StatOwn(s) :: id !in Current()
      modifies this
      ensures ok <==> PassesStat(s, old(loopBlocks) != {})
      ensures ok ==> Walking() && blocks == old(blocks) && stackScopes == old(stackScopes) && context == old(context)
      ensures ok ==> loopBlocks == old(loopBlocks)
      ensures ok ==> StatTables(old(T()), T(), context.value, s, |s.nodes|, blocks)
      ensures ok ==> ScopesStep(old(scopes), scopes, currentScope, StatFuncs(s, |s.nodes|))
                     && StatListed(old(Current()), Current(), context.value, s, |s.nodes|)
      decreases s, 1
    {
      hide Analyzed, Ids, Own, WellFormed, Passes, EnvAt, StatIds, StatOwn, StatListed, StatTables, StatEntered,
        DistinctStat;
      hide Outside, Tabled, ScopesStep, StatFuncs, StatFresh, Pushed, WellFormedStat, Shaped, AnalyzedNode, BlockListed;
      ghost var t, m, s0 := T(), Current(), scopes;
      ghost var ctx := context.value;
      ShapedStat(s);
      StatEnteredFresh(t, ctx, s, blocks);
      ok := EnterStat(s);
      if !ok {
        return;
      }
      PushedMore(s0, currentScope, ctx, [], KindElements(s.kind));
      if s.kind.Label? {
        EnterLabel(s.kind.mark);
      }
      assert [] + KindElements(s.kind) == KindElements(s.kind);
      StatPushed(s0, scopes, currentScope, ctx, s);
      StatFuncsNone(s);
      ok := WalkNodes(s, t, m, s0, old(loopBlocks));
    }

    /** The children of a statement that has just been entered. */
    method WalkNodes(s: Stat, ghost t: Tables, ghost m: Elements, ghost s0: seq<Scope>, ghost loops: set<BlockId>)
        returns (ok: bool)
      requires Walking() && blocks != [] && context == Some(blocks[|blocks| - 1]) && Shaped(s)
      requires WellFormedStat(s) && DistinctStat(s)
      requires forall id | id in blocks :: id !in StatIds(s)
      requires forall id | id in loops :: id !in StatIds(s)
      requires loopBlocks == loops + if IsLoop(s.kind) then {s.nodes[BodyIndex(s)].block.id} else {}
      requires StatTables(t, T(), context.value, s, 0, blocks) && StatListed(m, Current(), context.value, s, 0)
      requires ScopesStep(s0, scopes, currentScope, StatFuncs(s, 0)) && (s.kind.Break? ==> loops != {})
      modifies this
      ensures ok <==> PassesStat(s, loops != {})
      ensures ok ==> Walking() && blocks == old(blocks) && stackScopes == old(stackScopes) && context == old(context)
      ensures ok ==> loopBlocks == loops
      ensures ok ==> StatTables(t, T(), context.value, s, |s.nodes|, blocks)
      ensures ok ==> ScopesStep(s0, scopes, currentScope, StatFuncs(s, |s.nodes|))
                     && StatListed(m, Current(), context.value, s, |s.nodes|)
      decreases s, 0
    {
      hide Analyzed, Ids, Own, WellFormed, Passes, EnvAt, StatIds, StatOwn, StatListed, StatTables, DistinctStat,
        Distinct;
      hide Outside, Tabled, ScopesStep, StatFuncs, NodeFresh, WellFormedStat, AnalyzedNode, BlockListed, Shaped,
        Funcs, PassesStat, PassedUpTo;
      BodyInside(s);
      PassedAll(s, loops != {});
      var j := 0;
      while j < |s.nodes|
        invariant 0 <= j <= |s.nodes| && Walking()
        invariant blocks == old(blocks) && stackScopes == old(stackScopes) && context == old(context)
        invariant loopBlocks == loops + if IsLoop(s.kind) && j <= BodyIndex(s) then {s.nodes[BodyIndex(s)].block.id}
            else {}
        invariant StatTables(t, T(), context.value, s, j, blocks) && StatListed(m, Current(), context.value, s, j)
        invariant ScopesStep(s0, scopes, currentScope, StatFuncs(s, j))
        invariant PassedUpTo(s, j, loops != {})
      {
        NodeStarts(s, j, t, T(), m, Current(), context.value, blocks, loops);
        CtxIndexed(t, T(), context.value, s, j, blocks);
        PassedStep(s, j, loops != {});
        ghost var tj, mj, sj := T(), Current(), scopes;
        ok := WalkNode(s.kind, s.nodes[j]);
        if !ok {
          return;
        }
        assert context.value in blocks;
        NodeWalked(t, tj, T(), context.value, s, j, blocks);
        NodeListed(m, mj, Current(), context.value, s, j);
        ScopesStepCompose(s0, sj, scopes, currentScope, StatFuncs(s, j),
                          (if s.nodes[j].Func? then [s.nodes[j].block] else []) + Funcs(s.nodes[j].block));
        StatFuncsStep(s, j);
        j := j + 1;
      }
      ok := true;
    }

    method WalkNode(k: Kind, n: Node) returns (ok: bool)
      requires Walking() && blocks != [] && context == Some(blocks[|blocks| - 1])
      requires WellFormed(n.block) && Distinct(n.block) && NodeFresh(T(), k, n)
      requires forall id | id in blocks :: id !in Ids(n.block)
      requires forall id | id in loopBlocks :: id in Ids(n.block) ==> id == n.block.id
      requires context.value in Current() && (n.Sub? ==> forall id | id in Own(n.block) :: id !in Current())
      modifies this
      ensures ok <==> Passes(n.block, old(loopBlocks) != {})
      ensures ok ==> Walking() && blocks == old(blocks) && stackScopes == old(stackScopes) && context == old(context)
      ensures ok ==> loopBlocks == old(loopBlocks) - {n.block.id}
      ensures ok ==> Outside(old(T()), T(), Ids(n.block))
                     && AnalyzedNode(k, n, old(T()).index[context.value], blocks, T())
      ensures ok ==> ScopesStep(old(scopes), scopes, currentScope,
                                (if n.Func? then [n.block] else []) + Funcs(n.block))
      ensures ok && n.Sub? ==> BlockListed(old(Current()), Current(), context, n.block)
      ensures ok && n.Func? ==> Current() == old(Current())
      decreases n, 2
    {
      hide Analyzed, Ids, Own, WellFormed, Passes, Distinct, FreshAt, NoLabels;
      hide Outside, Tabled, ScopesStep, AnalyzedNode, BlockListed, InsertAll, Append, BlockEntered, FuncEntered,
        Funcs, NodeEnv;
      ghost var t, m, s0 := T(), Current(), scopes;
      if n.Sub? {
        ok := WalkBlock(n.block);
        if ok {
          SubNodeWalked(t, T(), k, n, blocks);
          assert [] + Funcs(n.block) == Funcs(n.block);
        }
      } else {
        var outer := currentScope;
        IdIn(n.block);
        assert blocks[|blocks| - 1] in blocks;
        FuncNodeEntered(t, k, n, blocks);
        EnterFuncbody(n);
        ok := WalkBlock(n.block);
        if ok {
          FuncNodeWalked(t, T(), k, n, blocks);
          FunctionScope(s0, scopes, outer, n.block);
          ExitFuncbody();
          assert stackScopes == old(stackScopes);
        }
      }
    }

    /** Walks a whole program.  It passes unless a break stands outside of all loops; then every function
        has its scope, and the tables are right for every block. */
    method WalkChunk(chunk: Block) returns (ok: bool)
      requires context == None && blocks == [] && blocksRelations == [] && scopes == [] && stackScopes == []
          && loopBlocks == {}
      requires T() == Tables(map[], map[], map[], false) && WellFormed(chunk) && Distinct(chunk)
      modifies this
      ensures ok <==> Passes(chunk, false)
      ensures ok ==> Analyzed(chunk, map[], [chunk.id], T()) && ScopesOf(scopes, Roots(chunk))
      ensures ok ==> blocks == [] && loopBlocks == {}
    {
      hide Analyzed, Own, Ids, Distinct, WellFormed, Passes, ScopesStep, BlockListed, ScopesOf;
      EnterChunk(chunk.id);
      IdIn(chunk);
      ok := WalkBlock(chunk);
      if ok {
        assert old(blocks) + [chunk.id] == [chunk.id];
        assert [] + [Scope(map[chunk.id := []], chunk.id)] == [Scope(map[chunk.id := []], chunk.id)];
        ChunkScopes(chunk, scopes);
      }
    }

    /** Checks the labels and the gotos of every scope. */
    method ValidateGotos(ghost chunk: Block) returns (v: Verdict)
      requires Distinct(chunk) && ScopesOf(scopes, Roots(chunk))
      ensures v.Accepted? <==> forall k | 0 <= k < |scopes| :: ScopeLegal(scopes[k], Roots(chunk)[k])
      ensures v.LabelAlreadyDefined? ==>
                exists k | 0 <= k < |scopes| :: SomeRepeated(Roots(chunk)[k], scopes[k].elements, v.mark)
      ensures v.InvisibleLabel? || v.CrossedLocal? ==>
                exists k | 0 <= k < |scopes| :: SomeRejected(scopes[k].elements, [], Roots(chunk)[k].id, v)
    {
      hide Own, Tabled, Distinct, Ids, SomeRejected, SomeRepeated, AllUnique, AllLegal, ScopeLegal, Roots, EarlierLabel;
      ghost var roots := Roots(chunk);
      RootsApart(chunk);
      var seen: set<BlockId> := {};
      var i := 0;
      while i < |scopes|
        invariant 0 <= i <= |scopes|
        invariant forall k | i <= k < |roots| :: Own(roots[k]) !! seen
        invariant forall k | 0 <= k < i :: ScopeLegal(scopes[k], roots[k])
      {
        var scope := scopes[i];
        assert ScopeOf(scope, roots[i]);
        v, seen := ValidateLabels(scope, scope.root, seen, roots[i]);
        if v.Accepted? {
          NoPlaces(scope.elements);
          v := ExploreContext(scope, scope.root, [], [], [], roots[i]);
          NotADuplicate(scope.elements, scope.root, v);
        }
        if !v.Accepted? {
          RejectedScope(scope, roots[i], v);
          return;
        }
        TabledRoot(roots[i], scope.elements);
        LegalScope(scope, roots[i]);
        i := i + 1;
      }
      v := Accepted;
    }
  }

  lemma NoPlaces(m: Elements)
    ensures InBounds(m, []) && Slices(m, []) == [] && forall l: Name :: !EarlierLabel(m, [], l)
  {
  }

  lemma NotADuplicate(m: Elements, ctx: BlockId, v: Verdict)
    ensures SomeRejected(m, [], ctx, v) ==> v.InvisibleLabel? || v.CrossedLocal?
  {
  }

  lemma LegalScope(sc: Scope, root: Block)
    requires ScopeOf(sc, root) && AllUnique(root, sc.elements)
    requires root.id in sc.elements && AllLegal(sc.elements, [], root.id, |sc.elements[root.id]|)
    ensures ScopeLegal(sc, root)
  {
  }

  /** An accepted program keeps its gotos inside their functions. */
  lemma AcceptedStays(sc: Scope, root: Block)
    requires ScopeOf(sc, root) && ScopeLegal(sc, root)
    ensures Escaping(root) == {}
  {
    LegalGotosStay(root, sc.elements);
  }
}
