/** The control-flow machine of the interpreter: the stacks of blocks, frames and functions,
and the non-local exits Break, Goto and Return that are caught and repaired on them.

Conditions, the values of expressions, the number of iterations of a loop and the functions that an
expression calls are nondeterministic, so a contract below speaks about every run. */
module Control {
  import opened Helpers
  import opened Syntax
  import opened Scoping

  datatype Outcome =
    | Normal
    | Break
    | Goto(target: Name)
    | Return
    | Error          // a run-time error, which nothing in the program catches
    | Overflow       // the bound on the depth of calls is reached
    | Unbalanced     // the end of a block finds another block on top of the stack, which nothing catches

  /** Outcomes that end the run. */
  predicate Fatal(o: Outcome) {
    o.Error? || o.Overflow? || o.Unbalanced?
  }

  /** A function value: parameters, body and the cells it is closed under. */
  datatype Closure = Closure(params: seq<Name>, body: Block, closure: Store)

  datatype Found = LocalCell(cell: Cell) | ClosureCell(cell: Cell) | GlobalCell(cell: Cell) | NotFound

  /** A caught goto: the stack when it was raised, where the raising activation starts on it,
      and the position of the block that caught it. */
  datatype Jump = Jump(target: Name, stack: seq<BlockId>, base: nat, catcher: nat)

  /** The catcher is the innermost block of the activation that holds the label. */
  ghost predicate JumpOk(j: Jump, t: Tables) {
    && j.base <= j.catcher < |j.stack|
    && HoldsLabel(t, j.target, j.stack[j.catcher])
    && forall m | j.catcher < m < |j.stack| :: !HoldsLabel(t, j.target, j.stack[m])
  }

  /** Static position of a run: index, open blocks, and open blocks of the current function. */
  datatype Ctx = Ctx(env: Index, chain: seq<BlockId>, own: seq<BlockId>)

  ghost predicate StaticOk(c: Ctx, t: Tables) {
    && c.own != [] && |c.own| <= |c.chain| && c.chain[|c.chain| - |c.own|..] == c.own
    && NoRepeats(c.chain)
    && Layers(c.env, c.own) && (t.plain ==> Ordered(c.env, c.own)) && Within(c.env, c.chain)
    && Top(c.own) in t.index && Tail(c.env, t.index[Top(c.own)], Top(c.own))
  }

  function Top<T>(s: seq<T>): T
    requires s != []
  {
    s[|s| - 1]
  }

  function Pop<T>(s: seq<T>): seq<T>
    requires s != []
  {
    s[..|s| - 1]
  }

  function SubCtx(c: Ctx, k: Kind, n: Node): Ctx {
    Ctx(NodeEnv(k, n, c.env), c.chain + [n.block.id], c.own + [n.block.id])
  }

  lemma OwnInChain(c: Ctx, t: Tables)
    requires StaticOk(c, t)
    ensures NoRepeats(c.own) && Top(c.own) == Top(c.chain) && forall a | a in c.own :: a in c.chain
  {
    assert forall i | 0 <= i < |c.own| :: c.own[i] == c.chain[|c.chain| - |c.own| + i];
  }

  lemma EnterSub(c: Ctx, k: Kind, n: Node, t: Tables)
    requires StaticOk(c, t) && n.Sub? && ReadyNode(k, n, c.env, c.chain, c.own, t)
    ensures StaticOk(SubCtx(c, k, n), t)
  {
    assert Ready(n.block, SubCtx(c, k, n).env, SubCtx(c, k, n).chain, SubCtx(c, k, n).own, t);
    StaticSub(c, k, n, t);
  }

  lemma EnvAtZero(b: Block, env: Index)
    ensures EnvAt(b, env, 0) == env
  {
  }

  lemma StaticSub(c: Ctx, k: Kind, n: Node, t: Tables)
    requires StaticOk(c, t) && n.Sub? && n.block.id !in c.chain
    requires t.plain ==> forall x, id | x in HeadNames(k) && id in Entries(c.env, x) :: id !in c.own
    requires n.block.id in t.index
    requires t.index[n.block.id] == EnvAt(n.block, NodeEnv(k, n, c.env), |n.block.stats|)
    ensures StaticOk(SubCtx(c, k, n), t)
  {
    hide Layers, Ordered, Within, Tail, NodeEnv, EnvAt, InsertAll;
    var c' := SubCtx(c, k, n);
    OwnInChain(c, t);
    assert EntryNames(k, n) == HeadNames(k);
    NodeEnvWithin(k, n, c.env, c.chain);
    EnteredLayers(k, n, c.env, c.own, c.chain);
    if t.plain {
      SubKeepsOrder(k, n, c.env, c.own, c.chain);
    }
    assert EnvAt(n.block, c'.env, 0) == c'.env by { EnvAtZero(n.block, c'.env); }
    EnvAtTail(n.block, c'.env, 0, |n.block.stats|);
    assert c'.chain[|c'.chain| - |c'.own|..] == c'.own;
  }

  /** Functions that may be called: the analyser knows them and they contain their jumps. */
  ghost predicate FunctionAt(f: Closure, c: Ctx, t: Tables) {
    && StaticOk(c, t) && c.own == [f.body.id]
    && Ready(f.body, c.env, c.chain, c.own, t)
    && (forall p | p in f.params :: f.body.id in Entries(c.env, p))
    && Contained(f.body)
  }

  ghost predicate GoodFunction(f: Closure, t: Tables) {
    exists c :: FunctionAt(f, c, t)
  }

  lemma EnterFunc(c: Ctx, k: Kind, n: Node, env: Index, t: Tables, closure: Store)
    requires StaticOk(c, t) && n.Func? && ReadyNode(k, n, env, c.chain, c.own, t)
    requires Within(env, c.chain)
    ensures GoodFunction(Closure(n.params, n.block, closure), t)
  {
    hide StaticOk, Contained, Within, NodeEnv;
    var id := n.block.id;
    var c' := Ctx(NodeEnv(k, n, env), c.chain + [id], [id]);
    FuncStatic(c, k, n, env, t);
    var f := Closure(n.params, n.block, closure);
    forall p | p in f.params ensures id in Entries(c'.env, p) {
      ParamEntry(k, n, env, p);
    }
    assert FunctionAt(f, c', t);
  }

  lemma ParamEntry(k: Kind, n: Node, env: Index, p: Name)
    requires n.Func? && p in n.params
    ensures n.block.id in Entries(NodeEnv(k, n, env), p)
  {
    InsertAllEntries(map[], n.params, n.block.id, p);
    AppendEntries(InsertAll(map[], n.params, n.block.id), env, p);
  }

  lemma FuncStatic(c: Ctx, k: Kind, n: Node, env: Index, t: Tables)
    requires StaticOk(c, t) && n.Func? && ReadyNode(k, n, env, c.chain, c.own, t)
    requires Within(env, c.chain)
    ensures StaticOk(Ctx(NodeEnv(k, n, env), c.chain + [n.block.id], [n.block.id]), t)
  {
    hide Layers, Ordered, Within, Tail, NodeEnv, EnvAt, ReadyStat, LabelNames, Contained;
    var id := n.block.id;
    var c' := Ctx(NodeEnv(k, n, env), c.chain + [id], [id]);
    FuncKeepsOrder(k, n, env, c.chain);
    NoLayers(env);
    EnteredLayers(k, n, env, [], c.chain);
    assert [] + [id] == [id];
    EnvAtZero(n.block, c'.env);
    EnvAtTail(n.block, c'.env, 0, |n.block.stats|);
    assert c'.chain[|c'.chain| - 1..] == c'.own;
  }

  // ----- repairing the stack of blocks -----

  function LastIndex(s: seq<BlockId>, x: BlockId): (n: nat)
    requires x in s
    ensures n < |s| && s[n] == x && x !in s[n + 1..]
  {
    if s[|s| - 1] == x then |s| - 1
    else
      assert s == s[..|s| - 1] + [s[|s| - 1]];
      var n := LastIndex(s[..|s| - 1], x);
      assert s[n + 1..] == s[..|s| - 1][n + 1..] + [s[|s| - 1]];
      n
  }

  lemma LastIndexIsLast(s: seq<BlockId>, x: BlockId, k: nat)
    requires k < |s| && s[k] == x
    ensures k <= LastIndex(s, x)
  {
    var n := LastIndex(s, x);
    assert forall m | n < m < |s| :: s[m] == s[n + 1..][m - n - 1];
  }

  /** Cutting the stack at the topmost occurrence of `x` restores `pre`, whose top is `x`,
      exactly when `x` does not occur again above it. */
  lemma CutRestores(pre: seq<BlockId>, suf: seq<BlockId>, x: BlockId)
    requires pre != [] && Top(pre) == x
    ensures x in pre + suf
    ensures (pre + suf)[..LastIndex(pre + suf, x) + 1] == pre <==> x !in suf
  {
    var s := pre + suf;
    assert s[|pre| - 1] == x;
    var n := LastIndex(s, x);
    if x in suf {
      var k :| 0 <= k < |suf| && suf[k] == x;
      assert s[|pre| + k] == x;
      LastIndexIsLast(s, x, |pre| + k);
    } else {
      LastIndexIsLast(s, x, |pre| - 1);
      assert forall m | |pre| <= m < |s| :: s[m] == suf[m - |pre|];
      assert s[..|pre|] == pre;
    }
  }

  function Erase(f: Frame, ids: seq<BlockId>): Frame {
    f - set x | x in ids
  }

  lemma EraseOneMore(f: Frame, ids: seq<BlockId>, id: BlockId)
    ensures Erase(f, []) == f
    ensures Erase(Erase(f, ids), [id]) == Erase(f, ids + [id])
  {
  }

  // ----- closures -----

  /** The names and cells held by some blocks; inner blocks come later and win. */
  function Captured(ids: seq<BlockId>, f: Frame): Store {
    if ids == [] then map[] else Captured(Pop(ids), f) + StoreAt(f, Top(ids))
  }

  ghost predicate NoDouble(ids: seq<BlockId>, f: Frame) {
    forall i, k, n: Name | 0 <= i < k < |ids| && Holds(f, ids[i], n) :: !Holds(f, ids[k], n)
  }

  lemma {:induction false} CapturedIsLastHolder(ids: seq<BlockId>, f: Frame, n: Name)
    ensures n in Captured(ids, f) <==> LastHolder(ids, f, n).Some?
    ensures n in Captured(ids, f) ==> Captured(ids, f)[n] == StoreAt(f, LastHolder(ids, f, n).value)[n]
  {
    if ids != [] {
      CapturedIsLastHolder(Pop(ids), f, n);
    }
  }

  /** What a name stands for, when `es` are the blocks that are searched for it. */
  ghost function Resolved(es: seq<BlockId>, f: Frame, functions: seq<Closure>, globals: Store, n: Name): Found {
    match LastHolder(es, f, n)
    case Some(id) => LocalCell(StoreAt(f, id)[n])
    case None =>
      if functions != [] && n in Top(functions).closure then ClosureCell(Top(functions).closure[n])
      else if n in globals then GlobalCell(globals[n])
      else NotFound
  }

  /** Closures share cells, but only those of locals: in a later activation of the function, a name that
      is not local there stands for a cell of the closure exactly when it was a local where the function
      was made, and then for the very cell it stood for.  Names that the maker itself found in its own
      closure are lost. */
  lemma ClosureResolves(fn: Closure, own: seq<BlockId>, f: Frame, functions: seq<Closure>, globals: Store, n: Name,
                        act: seq<BlockId>, g: Frame, later: seq<Closure>, globals': Store)
    requires fn.closure == Captured(own, f)
    requires later != [] && Top(later) == fn && forall k | 0 <= k < |act| :: !Holds(g, act[k], n)
    ensures Resolved(act, g, later, globals', n)
      == match Resolved(own, f, functions, globals, n)
         case LocalCell(cell) => ClosureCell(cell)
         case _ => if n in globals' then GlobalCell(globals'[n]) else NotFound
  {
    CapturedIsLastHolder(own, f, n);
    LastHolderProperty(act, g, n);
  }

  /** No statement of the block is a `for`, nor is one below it. */
  ghost predicate NoFor(b: Block) {
    forall i, j | 0 <= i < |b.stats| && 0 <= j < |b.stats[i].nodes| ::
      HeadNames(b.stats[i].kind) == [] && NoFor(b.stats[i].nodes[j].block)
  }

  lemma {:induction false} NoForNoShadow(b: Block, env: Index, own: seq<BlockId>)
    requires NoFor(b)
    ensures NoShadow(b, env, own)
  {
    hide EnvAt, NodeEnv;
    forall i | 0 <= i < |b.stats| ensures NoShadowStat(b.stats[i], EnvAt(b, env, i + 1), own) {
      var s, env' := b.stats[i], EnvAt(b, env, i + 1);
      forall j | 0 <= j < |s.nodes| ensures NoShadowNode(s.kind, s.nodes[j], env', own) {
        var n := s.nodes[j];
        NoForNoShadow(n.block, NodeEnv(s.kind, n, env'), if n.Sub? then own + [n.block.id] else [n.block.id]);
      }
    }
  }

  /** `local x = 1; function f() return function() return x end end; f()()`: the inner function does not
      find `x`, which is a local of the program and in the closure of `f`. */
  lemma NestedClosureLosesName(inner: Block, maker: Block, chunk: Block, frame: Frame, f: Closure, g: Closure,
                               cell: Cell, globals: Store)
    requires inner == Block(2, [Stat(Kind.Return, [])]) && maker == Block(1, [Stat(Kind.Return, [Func([], inner)])])
    requires chunk == Block(0, [Stat(Kind.Local(["x"]), []), Stat(Kind.Function("f"), [Func([], maker)]),
                                Stat(Kind.Plain, [])])
    requires frame == map[0 := map["x" := cell]] && "x" !in globals
    requires f == Closure([], maker, Captured([0], frame)) && g == Closure([], inner, Captured([1], map[]))
    ensures WellFormed(chunk) && NoShadow(chunk, map[], [0])
    ensures Resolved([0], frame, [], globals, "x") == LocalCell(cell)
    ensures Resolved([1], map[], [f], globals, "x") == ClosureCell(cell)
    ensures Resolved([2], map[], [g], globals, "x") == NotFound
  {
    hide WellFormed, NoShadow;
    MakerTree(inner, maker, chunk);
    assert Pop([0]) == [] && Pop([1]) == [];
    ClosureResolves(f, [0], frame, [], globals, "x", [1], map[], [f], globals);
    ClosureResolves(g, [1], map[], [f], globals, "x", [2], map[], [g], globals);
  }

  lemma MakerTree(inner: Block, maker: Block, chunk: Block)
    requires inner == Block(2, [Stat(Kind.Return, [])]) && maker == Block(1, [Stat(Kind.Return, [Func([], inner)])])
    requires chunk == Block(0, [Stat(Kind.Local(["x"]), []), Stat(Kind.Function("f"), [Func([], maker)]),
                                Stat(Kind.Plain, [])])
    ensures WellFormed(chunk) && NoShadow(chunk, map[], [0])
  {
    hide NoShadow;
    MakerWellFormed(inner, maker, chunk);
    assert NoFor(inner);
    assert maker.stats[0].nodes[0].block == inner && NoFor(maker);
    assert chunk.stats[1].nodes[0].block == maker;
    assert NoFor(chunk);
    NoForNoShadow(chunk, map[], [0]);
  }

  lemma MakerWellFormed(inner: Block, maker: Block, chunk: Block)
    requires inner == Block(2, [Stat(Kind.Return, [])]) && maker == Block(1, [Stat(Kind.Return, [Func([], inner)])])
    requires chunk == Block(0, [Stat(Kind.Local(["x"]), []), Stat(Kind.Function("f"), [Func([], maker)]),
                                Stat(Kind.Plain, [])])
    ensures WellFormed(chunk)
  {
    assert WellFormedStat(inner.stats[0]) && WellFormed(inner);
    assert maker.stats[0].nodes[0].block == inner;
    assert WellFormedStat(maker.stats[0]) && WellFormed(maker);
    assert chunk.stats[1].nodes[0].block == maker;
    assert WellFormedStat(chunk.stats[0]) && WellFormedStat(chunk.stats[1]) && WellFormedStat(chunk.stats[2]);
  }

  /** A `local function` is closed before its own name is bound, so it does not find itself, unless an
      enclosing block already has a local of that name. */
  lemma LocalFunctionMissesItself(fn: Closure, own: seq<BlockId>, f: Frame, n: Name,
                                  act: seq<BlockId>, g: Frame, later: seq<Closure>, globals: Store)
    requires fn.closure == Captured(own, f)
    requires later != [] && Top(later) == fn && forall k | 0 <= k < |act| :: !Holds(g, act[k], n)
    ensures Resolved(act, g, later, globals, n).ClosureCell? <==> exists k :: 0 <= k < |own| && Holds(f, own[k], n)
  {
    ClosureResolves(fn, own, f, [], map[], n, act, g, later, globals);
    LastHolderProperty(own, f, n);
  }

  /** Blocks of outer functions hold nothing in the frame, so only the own blocks matter. */
  lemma {:induction false} CapturedFromOwn(outer: seq<BlockId>, own: seq<BlockId>, f: Frame)
    requires forall id | id in outer :: StoreAt(f, id) == map[]
    ensures Captured(outer + own, f) == Captured(own, f)
  {
    if own != [] {
      assert Pop(outer + own) == outer + Pop(own);
      CapturedFromOwn(outer, Pop(own), f);
    } else {
      assert outer + own == outer;
      if outer != [] {
        assert Pop(outer) + [] == Pop(outer);
        CapturedFromOwn(Pop(outer), [], f);
      }
    }
  }

  lemma NoDoubleFromOwn(outer: seq<BlockId>, own: seq<BlockId>, f: Frame)
    requires forall id | id in outer :: StoreAt(f, id) == map[]
    ensures NoDouble(outer + own, f) <==> NoDouble(own, f)
  {
    var all := outer + own;
    assert forall i | 0 <= i < |own| :: own[i] == all[|outer| + i];
    if NoDouble(own, f) {
      forall i, k, n: Name | 0 <= i < k < |all| && Holds(f, all[i], n)
        ensures !Holds(f, all[k], n)
      {
        assert forall m | 0 <= m < |outer| :: all[m] in outer;
        assert all[i] == own[i - |outer|] && all[k] == own[k - |outer|];
      }
    }
    if NoDouble(all, f) {
      forall i, k, n: Name | 0 <= i < k < |own| && Holds(f, own[i], n)
        ensures !Holds(f, own[k], n)
      {
        assert own[i] == all[|outer| + i] && own[k] == all[|outer| + k];
      }
    }
  }

  /** One more block is closed without an error when its names are not captured yet. */
  lemma NoDoubleStep(ids: seq<BlockId>, id: BlockId, f: Frame)
    requires NoDouble(ids, f)
    ensures NoDouble(ids + [id], f) <==> Captured(ids, f).Keys !! StoreAt(f, id).Keys
  {
    var all := ids + [id];
    if n :| n in Captured(ids, f) && n in StoreAt(f, id) {
      CapturedIsLastHolder(ids, f, n);
      LastHolderProperty(ids, f, n);
      var k :| IsLast(ids, f, n, k);
      assert Holds(f, all[k], n) && Holds(f, all[|ids|], n);
    } else {
      forall i, k, n: Name | 0 <= i < k < |all| && Holds(f, all[i], n)
        ensures !Holds(f, all[k], n)
      {
        assert all[i] == ids[i];
        CapturedIsLastHolder(ids, f, n);
        LastHolderProperty(ids, f, n);
        if k < |ids| {
          assert all[k] == ids[k];
        }
      }
    }
  }

  lemma NoDoublePrefix(ids: seq<BlockId>, i: nat, f: Frame)
    requires i <= |ids|
    ensures NoDouble(ids, f) ==> NoDouble(ids[..i], f)
  {
  }

  /** Open blocks of outer functions hold nothing in the current frame. */
  lemma OuterIsEmpty(c: Ctx, extra: set<BlockId>, f: Frame, t: Tables)
    requires StaticOk(c, t) && Covered(f, c.own, extra, c.env) && forall id | id in extra :: id !in c.chain
    ensures forall id | id in c.chain[..|c.chain| - |c.own|] :: StoreAt(f, id) == map[]
  {
    var outer := c.chain[..|c.chain| - |c.own|];
    forall id | id in outer
      ensures StoreAt(f, id) == map[]
    {
      var i :| 0 <= i < |outer| && outer[i] == id;
      assert c.chain[i] == id;
      assert forall k | 0 <= k < |c.own| :: c.own[k] == c.chain[|outer| + k];
      if StoreAt(f, id) != map[] {
        var n :| n in StoreAt(f, id);
        assert Holds(f, id, n);
      }
    }
  }

  lemma CapturedByChain(c: Ctx, extra: set<BlockId>, f: Frame, t: Tables)
    requires StaticOk(c, t) && Covered(f, c.own, extra, c.env) && forall id | id in extra :: id !in c.chain
    ensures NoDouble(c.chain, f) <==> NoDouble(c.own, f)
    ensures Captured(c.chain, f) == Captured(c.own, f)
  {
    var outer := c.chain[..|c.chain| - |c.own|];
    assert c.chain == outer + c.own;
    OuterIsEmpty(c, extra, f, t);
    NoDoubleFromOwn(outer, c.own, f);
    CapturedFromOwn(outer, c.own, f);
  }

  // ----- what a run does to the stacks -----

  datatype View = View(blocks: seq<BlockId>, frames: seq<Frame>, functions: seq<Closure>, bases: seq<nat>)

  ghost predicate SameStores(f: Frame, f': Frame, except: set<BlockId>) {
    forall id | id !in except :: StoreAt(f', id) == StoreAt(f, id)
  }

  /** The frames below the current one, the functions and the activations are as before. */
  ghost predicate SameOuter(pre: View, post: View) {
    && pre.frames != [] && |post.frames| == |pre.frames|
    && Pop(post.frames) == Pop(pre.frames)
    && post.functions == pre.functions && post.bases == pre.bases
  }

  /** The stack is `base` followed by some of the blocks `own`; only the stores of `own` and `touched`
      change, and the blocks `own` that are not on the stack hold nothing. */
  ghost predicate Span(pre: View, post: View, base: seq<BlockId>, own: set<BlockId>, touched: set<BlockId>) {
    && SameOuter(pre, post)
    && base <= post.blocks && (forall id | id in post.blocks[|base|..] :: id in own)
    && SameStores(Top(pre.frames), Top(post.frames), own + touched)
    && (forall id | id in own && StoreAt(Top(post.frames), id) != map[] :: id in post.blocks[|base|..])
  }

  /** Effect of a statement of block `id`. */
  ghost predicate StatPost(o: Outcome, pre: View, post: View, s: Stat, id: BlockId) {
    && !o.Unbalanced?
    && (!Fatal(o) ==>
          && Span(pre, post, pre.blocks, StatOwn(s), {id})
          && StoreAt(Top(post.frames), id).Keys
               <= StoreAt(Top(pre.frames), id).Keys + (set n | n in DeclNames(s.kind)))
    && (o.Normal? ==> post.blocks == pre.blocks)
    && (o.Goto? ==> o.target in StatGotos(s))
    && (o.Break? ==> FreeBreakStat(s))
  }

  /** The names that are not declared keep their cells. */
  ghost predicate Kept(before: Store, after: Store, declared: seq<Name>) {
    forall n | n !in declared :: (n in after <==> n in before) && (n in before ==> after[n] == before[n])
  }

  /** The statement itself raises the exit. */
  predicate Raises(k: Kind, o: Outcome) {
    match o
    case Break => k.Break?
    case Goto(_) => k.Goto?
    case Return => k.Return?
    case _ => false
  }

  /** What a statement of block `id` does to the locals of the block.  They are kept, except when the
      statement is a loop that ended by a caught break: these are all `for in` loops that end normally,
      and the other loops when `broke`.  Then all locals of the block are lost.
      An exit that the statement itself raises leaves the stack as it is, and one from a nested block
      does not. */
  ghost predicate Fate(o: Outcome, pre: View, post: View, s: Stat, id: BlockId, broke: bool) {
    !Fatal(o) ==>
      && pre.frames != [] && post.frames != []
      && (if o.Normal? && (broke || s.kind.ForIn?) then StoreAt(Top(post.frames), id) == map[]
          else Kept(StoreAt(Top(pre.frames), id), StoreAt(Top(post.frames), id), DeclNames(s.kind)))
      && (broke ==> IsLoop(s.kind) && o.Normal?)
      && (!o.Normal? ==> (post.blocks == pre.blocks <==> Raises(s.kind, o)))
  }

  /** `local x = 0; for _ in f do end; print(x)`: the end of the loop, caught with the body on the stack,
      erases `x`. */
  lemma ForInErasesLocals(loop: Stat, chunk: Block, pre: View, mid: View)
    requires loop == Stat(Kind.ForIn(["_"]), [Sub(Block(1, []))])
    requires chunk == Block(0, [Stat(Kind.Local(["x"]), []), loop, Stat(Kind.Plain, [])])
    requires pre == View([0], [map[0 := map["x" := 0]]], [], [0]) && mid == pre.(blocks := [0, 1])
    ensures WellFormed(chunk) && NoShadow(chunk, map[], [0])
    ensures Stabilized(mid, 0).blocks == [0] && Fate(Normal, pre, Stabilized(mid, 0), loop, 0, false)
    ensures Resolved([0], Top(pre.frames), [], map[], "x") == LocalCell(0)
    ensures Resolved([0], Top(Stabilized(mid, 0).frames), [], map[], "x") == NotFound
  {
    hide LastIndex, NoShadow, WellFormed, Stabilized;
    ForInTree(loop, chunk);
    assert mid.blocks == [0] + [1] && 0 !in [1] && Pop([0]) == [];
    var f := StabilizedFrame(mid, 0, [0], [1]);
    assert 0 in [0] + [1] && f == Erase(Top(mid.frames), [0] + [1]) && StoreAt(f, 0) == map[];
    assert Top(Pop(mid.frames) + [f]) == f;
  }

  lemma ForInTree(loop: Stat, chunk: Block)
    requires loop == Stat(Kind.ForIn(["_"]), [Sub(Block(1, []))])
    requires chunk == Block(0, [Stat(Kind.Local(["x"]), []), loop, Stat(Kind.Plain, [])])
    ensures WellFormed(chunk) && NoShadow(chunk, map[], [0])
  {
    hide InsertAll, EnvAt;
    assert WellFormed(Block(1, [])) && WellFormedStat(loop);
    EnvAtZero(chunk, map[]);
    LoopEnv(chunk);
    forall i | 0 <= i < |chunk.stats| ensures NoShadowStat(chunk.stats[i], EnvAt(chunk, map[], i + 1), [0]) {
      if i == 1 {
        assert Entries(EnvAt(chunk, map[], 2), "_") == [];
        assert NoShadow(loop.nodes[0].block, NodeEnv(loop.kind, loop.nodes[0], EnvAt(chunk, map[], 2)), [0] + [1]);
      }
    }
  }

  lemma LoopEnv(chunk: Block)
    requires |chunk.stats| == 3 && chunk.stats[0].kind == Kind.Local(["x"]) && chunk.stats[1].kind == Kind.ForIn(["_"])
    ensures Entries(EnvAt(chunk, map[], 2), "_") == []
  {
    InsertAllEntries(map[], ["x"], chunk.id, "_");
    assert EnvAt(chunk, map[], 1) == InsertAll(map[], ["x"], chunk.id);
    assert EnvAt(chunk, map[], 2) == InsertAll(EnvAt(chunk, map[], 1), [], chunk.id);
  }

  /** The locals of a block survive a loop that ends normally exactly when it was not ended by a caught
      break, or there were none. */
  lemma LocalsSurvive(pre: View, post: View, s: Stat, id: BlockId, broke: bool)
    requires Fate(Normal, pre, post, s, id, broke) && IsLoop(s.kind)
    ensures (forall n | n in StoreAt(Top(pre.frames), id) :: n in StoreAt(Top(post.frames), id)
                && StoreAt(Top(post.frames), id)[n] == StoreAt(Top(pre.frames), id)[n])
      <==> !(broke || s.kind.ForIn?) || StoreAt(Top(pre.frames), id) == map[]
  {
    var before := StoreAt(Top(pre.frames), id);
    if before != map[] {
      var n :| n in before;
    }
  }

  /** Effect of a block that is run on top of `base`; the body of a `for` stays on the stack. */
  ghost predicate BlockPost(o: Outcome, pre: View, post: View, b: Block, base: seq<BlockId>, stays: bool) {
    && !o.Unbalanced?
    && (!Fatal(o) ==> Span(pre, post, base, Own(b), {}))
    && (o.Normal? ==> post.blocks == if stays then base + [b.id] else base)
    && (!Fatal(o) && !o.Normal? ==> base + [b.id] <= post.blocks)
    && (o.Goto? ==> o.target in Escaping(b))
    && (o.Break? ==> FreeBreak(b))
  }

  /** A goto that is under way has left no block above `base` that holds its label. */
  ghost predicate RaisedOk(o: Outcome, raised: seq<BlockId>, base: seq<BlockId>, t: Tables) {
    o.Goto? ==> base <= raised && forall m | |base| <= m < |raised| :: !HoldsLabel(t, o.target, raised[m])
  }

  lemma CoveredTail(f: Frame, act: seq<BlockId>, env: Index, env': Index, id: BlockId)
    requires Covered(f, act, {}, env) && Tail(env, env', id)
    ensures Covered(f, act, {}, env')
  {
    forall b, n: Name | Holds(f, b, n) ensures b in act && b in Entries(env', n) {
      var k :| 0 <= k < |Entries(env, n)| && Entries(env, n)[k] == b;
      assert Entries(env', n)[k] == b;
    }
  }

  /** The blocks of a statement hold nothing before it runs. */
  lemma NothingHeld(f: Frame, c: Ctx, s: Stat, env: Index, t: Tables, id: BlockId)
    requires StaticOk(c, t) && Covered(f, c.own, {}, c.env)
    requires ReadyStat(s, env, c.chain, c.own, t) && id in StatOwn(s)
    ensures StoreAt(f, id) == map[]
  {
    OwnInChain(c, t);
    StatOwnIsNew(s, env, c.chain, c.own, t, id);
    if StoreAt(f, id) != map[] {
      var n :| n in StoreAt(f, id);
      assert Holds(f, id, n);
    }
  }

  lemma CoveredSub(f: Frame, c: Ctx, k: Kind, n: Node)
    requires Covered(f, c.own, {}, c.env)
    ensures Covered(f, SubCtx(c, k, n).own, {}, SubCtx(c, k, n).env)
  {
    var c' := SubCtx(c, k, n);
    forall b, x: Name | Holds(f, b, x) ensures b in c'.own && b in Entries(c'.env, x) {
      AppendEntries(InsertAll(map[], EntryNames(k, n), n.block.id), c.env, x);
    }
  }

  /** Names put in the store of the innermost block are covered when the index has them. */
  lemma CoveredAdd(f: Frame, f': Frame, act: seq<BlockId>, env: Index, id: BlockId)
    requires Covered(f, act, {}, env) && SameStores(f, f', {id}) && id in act
    requires forall n | Holds(f', id, n) :: id in Entries(env, n)
    ensures Covered(f', act, {}, env)
  {
    forall b, n: Name | Holds(f', b, n) ensures b in act && b in Entries(env, n) {
      if b != id {
        assert StoreAt(f', b) == StoreAt(f, b);
        assert Holds(f, b, n);
      }
    }
  }

  /** After a statement that leaves nothing on the stack, the frame is covered by the next index. */
  lemma CoveredAfter(pre: View, post: View, c: Ctx, s: Stat, env: Index, t: Tables)
    requires StaticOk(c, t) && pre.frames != [] && Covered(Top(pre.frames), c.own, {}, c.env)
    requires env == InsertAll(c.env, DeclNames(s.kind), Top(c.own))
    requires Span(pre, post, post.blocks, StatOwn(s), {Top(c.own)})
    requires StoreAt(Top(post.frames), Top(c.own)).Keys
               <= StoreAt(Top(pre.frames), Top(c.own)).Keys + (set n | n in DeclNames(s.kind))
    ensures Covered(Top(post.frames), c.own, {}, env)
  {
    var f, f', id := Top(pre.frames), Top(post.frames), Top(c.own);
    InsertAllTail(c.env, DeclNames(s.kind), id);
    CoveredTail(f, c.own, c.env, env, id);
    forall b, n: Name | Holds(f', b, n) ensures b in c.own && b in Entries(env, n) {
      assert b !in StatOwn(s);
      if b == id {
        InsertAllEntries(c.env, DeclNames(s.kind), id, n);
        assert n in DeclNames(s.kind) || Holds(f, id, n);
      } else {
        assert StoreAt(f', b) == StoreAt(f, b);
        assert Holds(f, b, n);
      }
    }
  }

  /** The stacks after they are cut at the topmost occurrence of a block.  When something stood
      above it, the locals of the block itself are erased as well. */
  function Stabilized(v: View, context: BlockId): View
    requires v.frames != [] && context in v.blocks
  {
    var n := LastIndex(v.blocks, context);
    v.(blocks := v.blocks[..n + 1],
       frames := if Top(v.blocks) == context then v.frames
                 else Pop(v.frames) + [Erase(Top(v.frames), v.blocks[n..])])
  }

  lemma StabilizedSize(v: View, context: BlockId)
    requires v.frames != [] && context in v.blocks
    ensures var w := Stabilized(v, context);
            |w.frames| == |v.frames| && w.functions == v.functions && w.bases == v.bases
  {
  }

  /** A catcher restores the stack when the blocks above its own are all new. */
  lemma CatchRestores(pre: View, mid: View, context: BlockId, base: seq<BlockId>, own: set<BlockId>,
      touched: set<BlockId>)
    requires base != [] && Top(base) == context && context !in own
    requires Span(pre, mid, base, own, touched)
    ensures context in mid.blocks
    ensures var post := Stabilized(mid, context);
            && post.blocks == base && Span(pre, post, base, own, touched + {context})
            && (mid.blocks == base ==> post == mid)
            && (mid.blocks != base ==> StoreAt(Top(post.frames), context) == map[])
  {
    var suf := mid.blocks[|base|..];
    assert mid.blocks == base + suf;
    var f' := StabilizedFrame(mid, context, base, suf);
    if suf == [] {
      assert mid.blocks == base;
    } else {
      EraseSpan(pre, mid, context, suf, own, touched);
    }
    SpanEmpty(pre, Stabilized(mid, context), base, own, touched + {context});
  }

  lemma StabilizedFrame(mid: View, context: BlockId, base: seq<BlockId>, suf: seq<BlockId>) returns (f: Frame)
    requires base != [] && Top(base) == context && context !in suf && mid.blocks == base + suf && mid.frames != []
    ensures context in mid.blocks
    ensures f == if suf == [] then Top(mid.frames) else Erase(Top(mid.frames), [context] + suf)
    ensures Stabilized(mid, context) == mid.(blocks := base, frames := Pop(mid.frames) + [f])
  {
    CutAt(base, suf, context);
    f := if suf == [] then Top(mid.frames) else Erase(Top(mid.frames), [context] + suf);
    if suf == [] {
      assert mid.blocks == base;
      assert Pop(mid.frames) + [f] == mid.frames;
    } else {
      assert Top(mid.blocks) == Top(suf) && Top(suf) in suf;
    }
  }

  lemma CutAt(base: seq<BlockId>, suf: seq<BlockId>, x: BlockId)
    requires base != [] && Top(base) == x && x !in suf
    ensures x in base + suf && LastIndex(base + suf, x) == |base| - 1
    ensures (base + suf)[..|base|] == base && (base + suf)[|base| - 1..] == [x] + suf
  {
    var s := base + suf;
    assert s[|base| - 1] == x;
    LastIndexIsLast(s, x, |base| - 1);
    assert forall m | |base| <= m < |s| :: s[m] == suf[m - |base|];
  }

  lemma SpanEmpty(pre: View, post: View, base: seq<BlockId>, own: set<BlockId>, touched: set<BlockId>)
    requires SameOuter(pre, post) && post.blocks == base
    requires SameStores(Top(pre.frames), Top(post.frames), own + touched)
    requires forall id | id in own :: StoreAt(Top(post.frames), id) == map[]
    ensures Span(pre, post, base, own, touched)
  {
    assert post.blocks[|base|..] == [];
  }

  lemma EraseSpan(pre: View, mid: View, context: BlockId, suf: seq<BlockId>, own: set<BlockId>, touched: set<BlockId>)
    requires SameOuter(pre, mid) && SameStores(Top(pre.frames), Top(mid.frames), own + touched)
    requires forall id | id in own && StoreAt(Top(mid.frames), id) != map[] :: id in suf
    requires forall id | id in suf :: id in own
    ensures var f := Erase(Top(mid.frames), [context] + suf);
            && StoreAt(f, context) == map[]
            && (forall id | id in own :: StoreAt(f, id) == map[])
            && SameStores(Top(pre.frames), f, own + (touched + {context}))
  {
    var cut := [context] + suf;
    var f := Erase(Top(mid.frames), cut);
    assert forall id :: id in cut <==> id == context || id in suf;
    assert forall id | id !in cut :: StoreAt(f, id) == StoreAt(Top(mid.frames), id);
    assert forall id | id in cut :: StoreAt(f, id) == map[];
  }

  // ----- composing runs -----

  lemma SpanStart(pre: View, s: Stat, c: Ctx, env: Index, t: Tables, base: seq<BlockId>)
    requires StaticOk(c, t) && pre.frames != [] && Covered(Top(pre.frames), c.own, {}, c.env)
    requires ReadyStat(s, env, c.chain, c.own, t) && base == pre.blocks
    ensures Span(pre, pre, base, StatOwn(s), {})
    ensures Top(c.own) !in StatOwn(s)
  {
    forall id | id in StatOwn(s)
      ensures StoreAt(Top(pre.frames), id) == map[] && id !in c.chain
    {
      NothingHeld(Top(pre.frames), c, s, env, t, id);
      StatOwnIsNew(s, env, c.chain, c.own, t, id);
    }
    OwnInChain(c, t);
    SpanEmpty(pre, pre, base, StatOwn(s), {});
  }

  /** A run of a nested block, seen from the statement around it. */
  lemma SpanWiden(pre: View, mid: View, post: View, base: seq<BlockId>, own: set<BlockId>, inner: set<BlockId>,
      touched: set<BlockId>)
    requires Span(pre, mid, base, own, touched) && Span(mid, post, base, inner, {})
    requires inner <= own && forall id | id in mid.blocks[|base|..] :: id in inner
    ensures Span(pre, post, base, own, touched)
  {
    var f, g, h := Top(pre.frames), Top(mid.frames), Top(post.frames);
    forall id | id !in own + touched ensures StoreAt(h, id) == StoreAt(f, id) {
      assert StoreAt(h, id) == StoreAt(g, id);
    }
    assert forall id | id !in inner :: StoreAt(h, id) == StoreAt(g, id);
  }

  /** A run of a statement, seen from the block around it. */
  lemma SpanCompose(pre: View, mid: View, post: View, base: seq<BlockId>, b: Block, i: nat)
    requires i < |b.stats| && Span(pre, mid, base, Own(b), {}) && mid.blocks == base + [b.id]
    requires Span(mid, post, mid.blocks, StatOwn(b.stats[i]), {b.id})
    ensures Span(pre, post, base, Own(b), {}) && base + [b.id] <= post.blocks
  {
    var f, g, h := Top(pre.frames), Top(mid.frames), Top(post.frames);
    var inner := StatOwn(b.stats[i]);
    assert forall id | id in inner :: id in Own(b);
    assert post.blocks[|base|..] == [b.id] + post.blocks[|mid.blocks|..];
    assert mid.blocks[|base|..] == [b.id];
    forall id | id in post.blocks[|base|..] ensures id in Own(b) {
      assert id == b.id || id in post.blocks[|mid.blocks|..];
    }
    assert forall id | id !in inner && id != b.id :: StoreAt(h, id) == StoreAt(g, id);
    forall id | id in Own(b) && StoreAt(h, id) != map[] ensures id in post.blocks[|base|..] {
      if id in inner {
        assert id in post.blocks[|mid.blocks|..];
      }
    }
  }

  /** Between two runs of nested blocks the frame is covered as before. */
  lemma CoveredSpan(pre: View, v: View, c: Ctx, own: set<BlockId>, touched: set<BlockId>)
    requires pre.frames != [] && Covered(Top(pre.frames), c.own, {}, c.env)
    requires Span(pre, v, v.blocks, own, touched)
    requires forall id | id in touched :: StoreAt(Top(v.frames), id) == map[]
    ensures Covered(Top(v.frames), c.own, {}, c.env)
  {
    var f, f' := Top(pre.frames), Top(v.frames);
    forall b, n: Name | Holds(f', b, n) ensures b in c.own && b in Entries(c.env, n) {
      assert b !in own;
      assert StoreAt(f', b) == StoreAt(f, b);
      assert Holds(f, b, n);
    }
  }

  lemma SubInStat(s: Stat, j: nat)
    requires j < |s.nodes| && s.nodes[j].Sub?
    ensures Own(s.nodes[j].block) <= StatOwn(s) && s.nodes[j].block.id in StatOwn(s)
  {
    assert forall id | id in Own(s.nodes[j].block) :: id in StatOwn(s);
    assert s.nodes[j].block.id in Own(s.nodes[j].block);
  }

  function CtxAt(b: Block, c: Ctx, i: nat): Ctx
    requires i <= |b.stats|
  {
    c.(env := EnvAt(b, c.env, i))
  }

  lemma StaticAt(b: Block, c: Ctx, t: Tables, i: nat)
    requires StaticOk(c, t) && Top(c.own) == b.id && t.index[b.id] == EnvAt(b, c.env, |b.stats|) && i <= |b.stats|
    ensures StaticOk(CtxAt(b, c, i), t)
  {
    hide Layers, Ordered, Within, Tail, EnvAt;
    OwnInChain(c, t);
    EnvAtZero(b, c.env);
    EnvAtTail(b, c.env, 0, i);
    EnvAtTail(b, c.env, i, |b.stats|);
    AppendKeepsLayers(c.env, EnvAt(b, c.env, i), c.own);
    TailKeepsOrder(c.env, EnvAt(b, c.env, i), c.own, c.chain);
  }

  lemma CoveredLater(b: Block, c: Ctx, f: Frame, i: nat, k: nat)
    requires i <= k <= |b.stats| && Covered(f, c.own, {}, EnvAt(b, c.env, i))
    ensures Covered(f, c.own, {}, EnvAt(b, c.env, k))
  {
    EnvAtTail(b, c.env, i, k);
    CoveredTail(f, c.own, EnvAt(b, c.env, i), EnvAt(b, c.env, k), b.id);
  }

  lemma ParamsCovered(f: Frame, fn: Closure, c: Ctx, t: Tables)
    requires FunctionAt(fn, c, t) && SameStores(map[], f, {fn.body.id})
    requires StoreAt(f, fn.body.id).Keys == set p | p in fn.params
    ensures Covered(f, c.own, {}, c.env)
  {
    var none: Frame := map[];
    assert Covered(none, c.own, {}, c.env);
    CoveredAdd(none, f, c.own, c.env, fn.body.id);
  }

  // ----- the state between two steps -----

  /** What every step of every run keeps. */
  ghost predicate Good(v: View, created: seq<Closure>, jumps: seq<Jump>, t: Tables) {
    && Sized(v)
    && (forall f | f in created :: GoodFunction(f, t))
    && (forall j | j in jumps :: JumpOk(j, t))
  }

  /** One frame and one activation for the chunk and for every function that is running. */
  ghost predicate Sized(v: View) {
    && v.frames != [] && |v.frames| == |v.functions| + 1 && |v.bases| == |v.frames|
    && Top(v.bases) <= |v.blocks|
  }

  /** A statement or an expression at static position `c` is about to run.  The stores of the frame
      belong to the active blocks of the activation, and to the blocks `extra` being prepared. */
  ghost predicate At(v: View, c: Ctx, extra: set<BlockId>, t: Tables) {
    && Sized(v) && StaticOk(c, t)
    && v.blocks[Top(v.bases)..] == c.own
    && Covered(Top(v.frames), c.own, extra, c.env)
    && (forall id | id in extra :: id !in c.chain)
  }

  /** Block `b` is about to run on top of `base`. */
  ghost predicate StartsAt(v: View, base: seq<BlockId>, b: Block, c: Ctx, t: Tables) {
    && Sized(v) && StaticOk(c, t) && Ready(b, c.env, c.chain, c.own, t)
    && Top(v.bases) <= |base| && (base + [b.id])[Top(v.bases)..] == c.own
    && Covered(Top(v.frames), c.own, {}, c.env)
  }

  /** A function that has just been entered can start. */
  lemma CallStarts(pre: View, v: View, f: Closure, c: Ctx, t: Tables)
    requires Sized(pre) && FunctionAt(f, c, t)
    requires v.blocks == pre.blocks + [f.body.id] && v.bases == pre.bases + [|pre.blocks|]
    requires v.functions == pre.functions + [f] && |v.frames| == |pre.frames| + 1
    requires SameStores(map[], Top(v.frames), {f.body.id})
    requires StoreAt(Top(v.frames), f.body.id).Keys == set p | p in f.params
    ensures StartsAt(v, pre.blocks, f.body, c, t)
  {
    ParamsCovered(Top(v.frames), f, c, t);
    assert (pre.blocks + [f.body.id])[|pre.blocks|..] == [f.body.id];
  }

  /** The activation of a call is removed. */
  function Popped(v: View): View
    requires v.frames != [] && v.functions != [] && v.bases != []
  {
    v.(frames := Pop(v.frames), functions := Pop(v.functions), bases := Pop(v.bases))
  }

  /** How a call ends, once its body has been run. */
  function Ended(v: View, o: Outcome, caller: BlockId): View
    requires v.frames != [] && v.functions != [] && v.bases != [] && caller in v.blocks
  {
    Popped(if o.Return? then Stabilized(v, caller) else v)
  }

  /** When a function is left by a return, cutting the stack at the block that called it restores
      the stacks exactly when that block is not one of the open blocks of the callee. */
  lemma CallReturns(pre: View, entry: View, v: View, f: Closure, o: Outcome, c: Ctx, t: Tables)
    requires Sized(pre) && pre.blocks != []
    requires entry.functions == pre.functions + [f] && entry.bases == pre.bases + [|pre.blocks|]
    requires |entry.frames| == |pre.frames| + 1 && Pop(entry.frames) == pre.frames
    requires BlockPost(o, entry, v, f.body, pre.blocks, false) && FunctionAt(f, c, t) && !Fatal(o)
    ensures o.Normal? || o.Return?
    ensures v.frames != [] && v.functions != [] && v.bases != [] && Top(pre.blocks) in v.blocks
    ensures var post := Ended(v, o, Top(pre.blocks));
            && Sized(post) && pre.blocks <= post.blocks && post == pre.(blocks := post.blocks)
            && (|post.blocks| == |pre.blocks| ==> post == pre)
            && (post == pre <==> o.Normal? || Top(pre.blocks) !in v.blocks[|pre.blocks|..])
            && (post != pre ==> Top(pre.blocks) in Own(f.body))
  {
    hide StaticOk, Ready, Own, Erase, LastIndex, Contained, SameStores, FunctionAt, StoreAt;
    var suf := v.blocks[|pre.blocks|..];
    assert v.blocks == pre.blocks + suf;
    assert Top(pre.blocks) == v.blocks[|pre.blocks| - 1];
    CutRestores(pre.blocks, suf, Top(pre.blocks));
    LastIndexIsLast(v.blocks, Top(pre.blocks), |pre.blocks| - 1);
    CallContained(o, entry, v, f, pre.blocks, c, t);
    var w := Stabilized(v, Top(pre.blocks));
    assert Pop(w.frames) == Pop(v.frames);
    assert Pop(entry.functions) == pre.functions && Pop(entry.bases) == pre.bases;
  }

  /** `function f(n) if n then return end; f(true) end` (block 1, with block 2 for the `if`), called by the
      program: the inner call returns from block 2, and the stack is cut at its block 1 instead of the one of
      the outer call.  When the outer call then ends normally, its caller, in block 0, finds block 1 on top. */
  lemma SelfCallLeavesABlock(body: Block, f: Closure, pre: View, entry: View, v: View)
    requires body == Block(1, [Stat(Kind.If(false), [Sub(Block(2, [Stat(Kind.Return, [])]))]), Stat(Kind.Plain, [])])
    requires f == Closure(["n"], body, map[]) && pre == View([0, 1], [map[], map[]], [f], [0, 1])
    requires entry == View([0, 1, 1], [map[], map[], map[]], [f, f], [0, 1, 2])
    requires v == entry.(blocks := [0, 1, 1, 2])
    ensures WellFormed(body) && BlockPost(Outcome.Return, entry, v, body, [0, 1], false)
    ensures 1 in v.blocks && Ended(v, Outcome.Return, 1) == pre.(blocks := [0, 1, 1])
    ensures var left := Ended(v, Outcome.Return, 1); var ended := Popped(left.(blocks := Pop(left.blocks)));
            ended.blocks == [0, 1] && Top(ended.blocks) != 0
  {
    hide LastIndex, WellFormed, Own, BlockPost, Erase;
    SelfCallBlocks(body, entry, v);
    assert v.blocks == [0, 1, 1] + [2] && 1 !in [2];
    var g := StabilizedFrame(v, 1, [0, 1, 1], [2]);
    assert 1 in [0, 1, 1] + [2];
    assert Pop(Pop(v.frames) + [g]) == pre.frames && Pop(v.functions) == pre.functions && Pop(v.bases) == pre.bases;
    assert Pop([0, 1, 1]) == [0, 1];
  }

  lemma SelfCallBlocks(body: Block, entry: View, v: View)
    requires body == Block(1, [Stat(Kind.If(false), [Sub(Block(2, [Stat(Kind.Return, [])]))]), Stat(Kind.Plain, [])])
    requires entry.blocks == [0, 1, 1] && entry.frames == [map[], map[], map[]]
    requires v == entry.(blocks := [0, 1, 1, 2])
    ensures WellFormed(body) && BlockPost(Outcome.Return, entry, v, body, [0, 1], false)
  {
    hide WellFormed, Own;
    SelfCallTree(body);
    assert v.blocks[2..] == [1, 2] && [0, 1] + [1] <= v.blocks;
    assert Span(entry, v, [0, 1], Own(body), {});
  }

  lemma SelfCallTree(body: Block)
    requires body == Block(1, [Stat(Kind.If(false), [Sub(Block(2, [Stat(Kind.Return, [])]))]), Stat(Kind.Plain, [])])
    ensures WellFormed(body) && 1 in Own(body) && 2 in Own(body)
  {
    var inner := Block(2, [Stat(Kind.Return, [])]);
    assert body.stats[0].nodes[0].block == inner && WellFormedStat(inner.stats[0]) && WellFormed(inner);
    assert WellFormedStat(body.stats[0]) && WellFormedStat(body.stats[1]);
    assert 2 in Own(inner);
    assert 2 in StatOwn(body.stats[0]);
  }

  /** No break and no goto leaves the body of a function. */
  lemma CallContained(o: Outcome, entry: View, v: View, f: Closure, base: seq<BlockId>, c: Ctx, t: Tables)
    requires BlockPost(o, entry, v, f.body, base, false) && FunctionAt(f, c, t) && !Fatal(o)
    ensures o.Normal? || o.Return?
  {
    hide StaticOk, Ready, Own, Span;
  }

  // ----- cells -----

  ghost predicate StoreBelow(store: Store, next: Cell) {
    forall n | n in store :: store[n] < next
  }

  ghost predicate FrameBelow(f: Frame, next: Cell) {
    forall id | id in f :: StoreBelow(f[id], next)
  }

  /** Every cell in use was allocated before `next`. */
  ghost predicate CellsBelow(frames: seq<Frame>, functions: seq<Closure>, globals: Store, created: seq<Closure>,
      next: Cell) {
    && (forall f | f in frames :: FrameBelow(f, next))
    && (forall f | f in functions :: StoreBelow(f.closure, next))
    && (forall f | f in created :: StoreBelow(f.closure, next))
    && StoreBelow(globals, next)
  }

  /** Some name stands for the cell: a local of a running function, a name of a closure, or a global. */
  ghost predicate InUse(frames: seq<Frame>, functions: seq<Closure>, globals: Store, created: seq<Closure>,
      cell: Cell) {
    || (exists f, id, n: Name :: f in frames && n in StoreAt(f, id) && StoreAt(f, id)[n] == cell)
    || (exists f: Closure, n: Name :: (f in functions || f in created) && n in f.closure && f.closure[n] == cell)
    || exists n: Name :: n in globals && globals[n] == cell
  }

  lemma NewCellsAreUnused(frames: seq<Frame>, functions: seq<Closure>, globals: Store, created: seq<Closure>,
      next: Cell, cell: Cell)
    requires CellsBelow(frames, functions, globals, created, next) && next <= cell
    ensures !InUse(frames, functions, globals, created, cell)
  {
    forall f, id, n: Name | f in frames && n in StoreAt(f, id) ensures StoreAt(f, id)[n] < next {
      assert FrameBelow(f, next) && StoreBelow(f[id], next);
    }
    forall f: Closure, n: Name | (f in functions || f in created) && n in f.closure ensures f.closure[n] < next {
      assert StoreBelow(f.closure, next);
    }
  }

  lemma CellsStart(globals: Store, next: Cell)
    requires StoreBelow(globals, next)
    ensures CellsBelow([map[]], [], globals, [], next)
  {
  }

  lemma CellsLater(frames: seq<Frame>, functions: seq<Closure>, globals: Store, created: seq<Closure>,
      next: Cell, later: Cell)
    requires CellsBelow(frames, functions, globals, created, next) && next <= later
    ensures CellsBelow(frames, functions, globals, created, later)
  {
    forall f | f in frames ensures FrameBelow(f, later) {
      forall id | id in f ensures StoreBelow(f[id], later) {
        assert StoreBelow(f[id], next);
      }
    }
  }

  /** The store of one block of the current frame is replaced. */
  lemma CellsStored(frames: seq<Frame>, functions: seq<Closure>, globals: Store, created: seq<Closure>,
      next: Cell, id: BlockId, store: Store)
    requires CellsBelow(frames, functions, globals, created, next) && frames != [] && StoreBelow(store, next)
    ensures CellsBelow(Pop(frames) + [Top(frames)[id := store]], functions, globals, created, next)
  {
    var f := Top(frames)[id := store];
    assert Top(frames) in frames;
    forall x | x in f ensures StoreBelow(f[x], next) {
      assert x != id ==> StoreBelow(Top(frames)[x], next);
    }
    assert forall g | g in Pop(frames) + [f] :: g in frames || g == f;
  }

  /** Some stores of the current frame are erased. */
  lemma CellsErased(frames: seq<Frame>, functions: seq<Closure>, globals: Store, created: seq<Closure>,
      next: Cell, ids: seq<BlockId>)
    requires CellsBelow(frames, functions, globals, created, next) && frames != []
    ensures CellsBelow(Pop(frames) + [Erase(Top(frames), ids)], functions, globals, created, next)
  {
    var f := Erase(Top(frames), ids);
    assert Top(frames) in frames && FrameBelow(Top(frames), next);
    assert FrameBelow(f, next);
    assert forall g | g in Pop(frames) + [f] :: g in frames || g == f;
  }

  lemma CellsEntered(frames: seq<Frame>, functions: seq<Closure>, globals: Store, created: seq<Closure>,
      next: Cell, f: Closure)
    requires CellsBelow(frames, functions, globals, created, next) && f in created
    ensures CellsBelow(frames + [map[]], functions + [f], globals, created, next)
  {
  }

  lemma CellsPopped(frames: seq<Frame>, functions: seq<Closure>, globals: Store, created: seq<Closure>,
      next: Cell)
    requires CellsBelow(frames, functions, globals, created, next) && frames != [] && functions != []
    ensures CellsBelow(Pop(frames), Pop(functions), globals, created, next)
  {
  }

  lemma CellsCreated(frames: seq<Frame>, functions: seq<Closure>, globals: Store, created: seq<Closure>,
      next: Cell, f: Closure)
    requires CellsBelow(frames, functions, globals, created, next) && StoreBelow(f.closure, next)
    ensures CellsBelow(frames, functions, globals, created + [f], next)
  {
  }

  /** A new cell for a global name. */
  lemma CellsGlobal(frames: seq<Frame>, functions: seq<Closure>, globals: Store, created: seq<Closure>,
      next: Cell, n: Name, cell: Cell)
    requires CellsBelow(frames, functions, globals, created, next) && cell < next
    ensures CellsBelow(frames, functions, globals[n := cell], created, next)
  {
  }

  lemma StoreAtBelow(frames: seq<Frame>, functions: seq<Closure>, globals: Store, created: seq<Closure>,
      next: Cell, id: BlockId)
    requires CellsBelow(frames, functions, globals, created, next) && frames != []
    ensures StoreBelow(StoreAt(Top(frames), id), next)
  {
    assert Top(frames) in frames;
  }

  lemma {:induction false} CapturedBelow(frames: seq<Frame>, functions: seq<Closure>, globals: Store,
      created: seq<Closure>, next: Cell, ids: seq<BlockId>)
    requires CellsBelow(frames, functions, globals, created, next) && frames != []
    ensures StoreBelow(Captured(ids, Top(frames)), next)
  {
    hide CellsBelow;
    if ids != [] {
      CapturedBelow(frames, functions, globals, created, next, Pop(ids));
      StoreAtBelow(frames, functions, globals, created, next, Top(ids));
    }
  }

  // ----- what every run keeps, also where a return was caught in the wrong place -----

  /** The frames below the current one, the functions and the activations are as before, and so is the stack
      `base`, whatever is on top of it. */
  ghost predicate Loose(o: Outcome, pre: View, post: View, base: seq<BlockId>) {
    !Fatal(o) ==> SameOuter(pre, post) && base <= post.blocks
  }

  /** All blocks on the stack are known to the analyser. */
  ghost predicate Known(v: View, t: Tables) {
    forall b | b in v.blocks :: b in t.index
  }

  lemma LooseStart(v: View, o: Outcome)
    requires v.frames != []
    ensures Loose(o, v, v, v.blocks)
  {
  }

  lemma LooseChain(pre: View, mid: View, post: View, o: Outcome, base: seq<BlockId>, upper: seq<BlockId>)
    requires Loose(Normal, pre, mid, base) && Loose(o, mid, post, upper) && base <= upper
    ensures Loose(o, pre, post, base)
  {
  }

  lemma LooseSized(pre: View, post: View, base: seq<BlockId>)
    requires Loose(Normal, pre, post, base) && Sized(pre) && |pre.blocks| <= |base|
    ensures Sized(post) && Top(post.bases) <= |base|
  {
  }

  lemma LooseBase(o: Outcome, pre: View, post: View, upper: seq<BlockId>, base: seq<BlockId>)
    requires Loose(o, pre, post, upper) && base <= upper
    ensures Loose(o, pre, post, base)
  {
  }

  lemma LooseFrames(pre: View, post: View, base: seq<BlockId>)
    requires Loose(Normal, pre, post, base)
    ensures post.frames != [] && |post.frames| == |pre.frames| && base <= post.blocks
  {
  }

  /** Only the current frame changes. */
  lemma LooseStores(pre: View, mid: View, post: View, base: seq<BlockId>)
    requires Loose(Normal, pre, mid, base) && Sized(pre) && |pre.blocks| <= |base|
    requires mid.frames != [] && |post.frames| == |mid.frames| && Pop(post.frames) == Pop(mid.frames)
    requires post == mid.(frames := post.frames)
    ensures Loose(Normal, pre, post, base) && Sized(post)
  {
  }

  lemma LooseStoresOnly(pre: View, mid: View, post: View)
    requires Loose(Normal, pre, mid, pre.blocks) && Sized(pre)
    requires mid.frames != [] && |post.frames| == |mid.frames| && Pop(post.frames) == Pop(mid.frames)
    requires post == mid.(frames := post.frames)
    ensures Loose(Normal, pre, post, pre.blocks) && Sized(post)
  {
  }

  lemma LoosePush(pre: View, mid: View, post: View, id: BlockId)
    requires Loose(Normal, pre, mid, pre.blocks) && Sized(pre) && post == mid.(blocks := mid.blocks + [id])
    ensures Loose(Normal, pre, post, mid.blocks + [id]) && pre.blocks <= mid.blocks && Sized(post)
  {
  }

  lemma LoosePop(pre: View, mid: View, post: View, base: seq<BlockId>, id: BlockId)
    requires Loose(Normal, pre, mid, base + [id]) && Sized(pre) && pre.blocks <= base && mid.blocks != []
        && mid.frames != []
    requires post == mid.(blocks := Pop(mid.blocks), frames := Pop(mid.frames) + [Erase(Top(mid.frames), [id])])
    ensures Loose(Normal, pre, post, pre.blocks) && Sized(post) && post.blocks <= mid.blocks
  {
  }

  lemma LooseCut(pre: View, mid: View, post: View, base: seq<BlockId>)
    requires Loose(Normal, pre, mid, base) && Sized(pre) && |pre.blocks| <= |base| && base <= post.blocks
    requires mid.frames != [] && |post.frames| == |mid.frames| && Pop(post.frames) == Pop(mid.frames)
    requires post.functions == mid.functions && post.bases == mid.bases
    ensures Loose(Normal, pre, post, base) && Sized(post)
  {
  }

  lemma KnownTop(v: View, t: Tables)
    requires Known(v, t) && v.blocks != []
    ensures Top(v.blocks) in t.index
  {
    var b := Top(v.blocks);
    assert b in v.blocks;
  }

  lemma KnownMore(v: View, w: View, id: BlockId, t: Tables)
    requires Known(v, t) && id in t.index && w.blocks == v.blocks + [id]
    ensures Known(w, t)
  {
  }

  lemma ForBase(pre: View, mid: View, base: seq<BlockId>, id: BlockId)
    requires Sized(pre) && pre.blocks <= base && Loose(Normal, pre, mid, base + [id])
    ensures Sized(mid) && mid.bases != [] && Top(mid.bases) <= |base| && base + [id] <= mid.blocks
  {
  }

  lemma LooseSame(o: Outcome, pre: View, post: View, base: seq<BlockId>)
    requires Loose(o, pre, post, base) && !Fatal(o)
    ensures post.bases == pre.bases && post.functions == pre.functions && base <= post.blocks
  {
  }

  lemma FunctionKnown(f: Closure, c: Ctx, t: Tables)
    requires FunctionAt(f, c, t)
    ensures StaticOk(c, t) && Ready(f.body, c.env, c.chain, c.own, t) && f.body.id in t.index
  {
  }

  lemma CallSized(pre: View, v: View, f: Closure)
    requires Sized(pre) && v.blocks == pre.blocks + [f.body.id] && v.bases == pre.bases + [|pre.blocks|]
    requires v.functions == pre.functions + [f] && |v.frames| == |pre.frames| + 1
    ensures Sized(v) && Top(v.bases) <= |pre.blocks|
  {
  }

  lemma SizedTop(v: View)
    requires Sized(v)
    ensures v.bases != [] && Top(v.bases) <= |v.blocks| && v.frames != []
  {
  }

  /** A block has been pushed, or was there already. */
  lemma BlockPushed(pre: View, v: View, base: seq<BlockId>, id: BlockId, t: Tables)
    requires Sized(pre) && Known(pre, t) && id in t.index && base + [id] <= v.blocks && Top(pre.bases) <= |base|
    requires v == pre.(blocks := v.blocks) && (v.blocks == pre.blocks || v.blocks == pre.blocks + [id])
    ensures Sized(v) && Known(v, t) && Loose(Normal, pre, v, base + [id])
  {
  }

  lemma BlockErased(pre: View, v: View, base: seq<BlockId>)
    requires Sized(pre) && v == pre.(frames := v.frames) && |v.frames| == |pre.frames|
        && Pop(v.frames) == Pop(pre.frames)
    requires base <= pre.blocks
    ensures Sized(v) && Loose(Normal, pre, v, base)
  {
  }

  lemma BlockPopped(pre: View, v: View, base: seq<BlockId>, id: BlockId)
    requires Sized(pre) && base + [id] <= pre.blocks && Top(pre.bases) <= |base|
    requires v.blocks == Pop(pre.blocks) && v.functions == pre.functions && v.bases == pre.bases
    requires |v.frames| == |pre.frames| && Pop(v.frames) == Pop(pre.frames)
    ensures Sized(v) && Loose(Normal, pre, v, base) && v.blocks <= pre.blocks
  {
  }

  lemma LooseCall(pre: View, post: View)
    requires Sized(pre) && post == pre.(blocks := post.blocks) && pre.blocks <= post.blocks
    ensures Loose(Normal, pre, post, pre.blocks)
  {
  }

  lemma KnownLess(v: View, w: View, t: Tables)
    requires Known(v, t) && w.blocks <= v.blocks
    ensures Known(w, t)
  {
    forall b | b in w.blocks ensures b in v.blocks {
      var i :| 0 <= i < |w.blocks| && w.blocks[i] == b;
      assert v.blocks[i] == b;
    }
  }

  lemma GoodSized(v: View, created: seq<Closure>, jumps: seq<Jump>, t: Tables)
    requires Good(v, created, jumps, t)
    ensures Sized(v)
  {
  }

  /** Cutting the stack at a block on it leaves everything up to this block. */
  lemma StabilizedLoose(v: View, base: seq<BlockId>, context: BlockId)
    requires v.frames != [] && base != [] && Top(base) == context && base <= v.blocks
    ensures context in v.blocks
    ensures var w := Stabilized(v, context);
            && base <= w.blocks <= v.blocks && |w.frames| == |v.frames| && Pop(w.frames) == Pop(v.frames)
            && w.functions == v.functions && w.bases == v.bases
  {
    hide Erase, LastIndex;
    assert v.blocks[|base| - 1] == context;
    LastIndexIsLast(v.blocks, context, |base| - 1);
  }

  /** The end of a call, wherever the return is caught: the activation is gone, and the stack of the caller is
      still there. */
  lemma CallLoose(pre: View, entry: View, v: View, o: Outcome)
    requires Sized(pre) && pre.blocks != [] && (o.Normal? || o.Return?) && SameOuter(entry, v) && pre.blocks <= v.blocks
    requires entry.functions != [] && Pop(entry.functions) == pre.functions
    requires entry.bases != [] && Pop(entry.bases) == pre.bases && Pop(entry.frames) == pre.frames
    ensures v.frames != [] && v.functions != [] && v.bases != [] && Top(pre.blocks) in v.blocks
    ensures var post := Ended(v, o, Top(pre.blocks));
            && Sized(post) && pre.blocks <= post.blocks <= v.blocks && post == pre.(blocks := post.blocks)
            && (|post.blocks| == |pre.blocks| ==> post == pre)
  {
    hide Stabilized;
    StabilizedLoose(v, pre.blocks, Top(pre.blocks));
  }

  lemma GoodResized(v: View, w: View, created: seq<Closure>, jumps: seq<Jump>, t: Tables)
    requires Good(v, created, jumps, t) && Sized(w)
    ensures Good(w, created, jumps, t)
  {
  }

  lemma GoodCreated(v: View, created: seq<Closure>, f: Closure, jumps: seq<Jump>, t: Tables)
    requires Good(v, created, jumps, t) && GoodFunction(f, t)
    ensures Good(v, created + [f], jumps, t)
  {
  }

  lemma NodeOfStat(s: Stat, j: nat, c: Ctx, env: Index, t: Tables)
    requires ReadyStat(s, env, c.chain, c.own, t) && j < |s.nodes|
    ensures ReadyNode(s.kind, s.nodes[j], env, c.chain, c.own, t)
    ensures s.nodes[j].Func? ==> s.nodes[j].block.id in t.parents && t.parents[s.nodes[j].block.id] == c.chain
  {
  }

  lemma NotRaised(o: Outcome, raised: seq<BlockId>, base: seq<BlockId>, t: Tables)
    requires !o.Goto?
    ensures RaisedOk(o, raised, base, t)
  {
  }

  lemma FunctionPosition(f: Closure, created: seq<Closure>, v: View, jumps: seq<Jump>, t: Tables) returns (c: Ctx)
    requires Good(v, created, jumps, t) && f in created
    ensures FunctionAt(f, c, t)
  {
    assert GoodFunction(f, t);
    c :| FunctionAt(f, c, t);
  }
}
