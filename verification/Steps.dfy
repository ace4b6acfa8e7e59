/** The steps of the control-flow machine, each as a fact about the stacks before and after it. */
module Steps {
  import opened Syntax
  import opened Scoping
  import opened Control

  function NextEnv(s: Stat, c: Ctx): Index
    requires c.own != []
  {
    InsertAll(c.env, DeclNames(s.kind), Top(c.own))
  }

  lemma NextWithin(s: Stat, c: Ctx, t: Tables)
    requires StaticOk(c, t)
    ensures Within(NextEnv(s, c), c.chain) && Within(c.env, c.chain)
  {
    OwnInChain(c, t);
    InsertAllTail(c.env, DeclNames(s.kind), Top(c.own));
    TailKeepsOrder(c.env, NextEnv(s, c), c.own, c.chain);
  }

  // ----- statements inside a block -----

  lemma ReadyAt(b: Block, c: Ctx, t: Tables, i: nat)
    requires StaticOk(c, t) && Ready(b, c.env, c.chain, c.own, t) && i < |b.stats|
    ensures Top(c.own) == b.id && t.index[b.id] == EnvAt(b, c.env, |b.stats|)
    ensures ReadyStat(b.stats[i], NextEnv(b.stats[i], CtxAt(b, c, i)), c.chain, c.own, t)
    ensures i < StatCount(b) ==> !b.stats[i].kind.Return?
  {
    OwnInChain(c, t);
    assert ReadyStat(b.stats[i], EnvAt(b, c.env, i + 1), c.chain, c.own, t);
  }

  lemma ReadyBlock(b: Block, c: Ctx, t: Tables)
    requires StaticOk(c, t) && Ready(b, c.env, c.chain, c.own, t)
    ensures b.id in t.index && c.own != [] && Top(c.own) == b.id && t.index[b.id] == EnvAt(b, c.env, |b.stats|)
    ensures forall l: Name :: HoldsLabel(t, l, b.id) <==> l in LabelNames(b)
  {
    OwnInChain(c, t);
  }

  lemma BlockEntered(pre: View, v: View, base: seq<BlockId>, b: Block, c: Ctx, t: Tables)
    requires StartsAt(pre, base, b, c, t) && v == pre.(blocks := base + [b.id])
    ensures At(v, CtxAt(b, c, 0), {}, t) && Span(pre, v, base, Own(b), {})
  {
    OwnInChain(c, t);
    assert v.blocks[|base|..] == [b.id];
    forall id | id in Own(b) && StoreAt(Top(v.frames), id) != map[]
      ensures id in v.blocks[|base|..]
    {
      OwnIsNew(b, c.env, c.chain, c.own, t, id);
      var n :| n in StoreAt(Top(v.frames), id);
      assert Holds(Top(v.frames), id, n);
    }
  }

  /** The stack stands at block `b`, before its statement `i`. */
  ghost predicate AtStat(pre: View, v: View, base: seq<BlockId>, b: Block, c: Ctx, i: nat, t: Tables) {
    && i <= |b.stats| && At(v, CtxAt(b, c, i), {}, t)
    && v.blocks == base + [b.id] && Span(pre, v, base, Own(b), {})
  }

  lemma AtStatLater(pre: View, v: View, base: seq<BlockId>, b: Block, c: Ctx, i: nat, k: nat, t: Tables)
    requires AtStat(pre, v, base, b, c, i, t) && i <= k <= |b.stats|
    requires StaticOk(c, t) && Top(c.own) == b.id && t.index[b.id] == EnvAt(b, c.env, |b.stats|)
    ensures AtStat(pre, v, base, b, c, k, t)
  {
    hide StaticOk, Covered, Span, EnvAt;
    StaticAt(b, c, t, k);
    CoveredLater(b, c, Top(v.frames), i, k);
  }

  /** A statement that left nothing above block `b`: the next one can start. */
  lemma StatDone(pre: View, mid: View, post: View, base: seq<BlockId>, b: Block, c: Ctx, i: nat, t: Tables)
    requires AtStat(pre, mid, base, b, c, i, t) && i < |b.stats| && post.blocks == mid.blocks
    requires StaticOk(c, t) && Top(c.own) == b.id && t.index[b.id] == EnvAt(b, c.env, |b.stats|)
    requires Span(mid, post, mid.blocks, StatOwn(b.stats[i]), {b.id})
    requires StoreAt(Top(post.frames), b.id).Keys
               <= StoreAt(Top(mid.frames), b.id).Keys + (set n | n in DeclNames(b.stats[i].kind))
    ensures AtStat(pre, post, base, b, c, i + 1, t)
  {
    hide StaticOk, Covered;
    SpanCompose(pre, mid, post, base, b, i);
    StaticAt(b, c, t, i + 1);
    CoveredAfter(mid, post, CtxAt(b, c, i), b.stats[i], EnvAt(b, c.env, i + 1), t);
  }

  lemma AtStatFacts(pre: View, v: View, base: seq<BlockId>, b: Block, c: Ctx, i: nat, t: Tables)
    requires AtStat(pre, v, base, b, c, i, t)
    ensures i <= |b.stats| && At(v, CtxAt(b, c, i), {}, t) && v.blocks == base + [b.id]
  {
  }

  lemma StatFinished(pre: View, mid: View, post: View, base: seq<BlockId>, b: Block, c: Ctx, i: nat, t: Tables)
    requires AtStat(pre, mid, base, b, c, i, t) && i < |b.stats| && StatPost(Normal, mid, post, b.stats[i], b.id)
    requires StaticOk(c, t) && Top(c.own) == b.id && t.index[b.id] == EnvAt(b, c.env, |b.stats|)
    ensures AtStat(pre, post, base, b, c, i + 1, t)
  {
    hide AtStat, StaticOk, Span, EnvAt, StatOwn;
    AtStatFacts(pre, mid, base, b, c, i, t);
    StatDone(pre, mid, post, base, b, c, i, t);
  }

  /** A goto that block `b` has cut the stack for but does not hold leaves the block. */
  lemma GotoLeft(o: Outcome, pre: View, v: View, base: seq<BlockId>, b: Block, c: Ctx, i: nat, t: Tables)
    requires o.Goto? && o.target in Escaping(b) && AtStat(pre, v, base, b, c, i, t)
    ensures BlockPost(o, pre, v, b, base, false)
  {
  }

  /** A goto out of statement `i` of block `b`: cutting the stack at `b` lets the next statement start. */
  lemma GotoCaught(pre: View, mid: View, post: View, base: seq<BlockId>, b: Block, c: Ctx, i: nat, t: Tables,
      env: Index)
    requires AtStat(pre, mid, base, b, c, i, t) && i < |b.stats|
    requires StaticOk(c, t) && Top(c.own) == b.id && t.index[b.id] == EnvAt(b, c.env, |b.stats|)
    requires ReadyStat(b.stats[i], env, c.chain, c.own, t)
    requires Span(mid, post, mid.blocks, StatOwn(b.stats[i]), {b.id})
    requires StoreAt(Top(post.frames), b.id).Keys
               <= StoreAt(Top(mid.frames), b.id).Keys + (set n | n in DeclNames(b.stats[i].kind))
    ensures b.id in post.blocks && post.frames != []
    ensures AtStat(pre, Stabilized(post, b.id), base, b, c, i + 1, t)
    ensures StoreAt(Top(Stabilized(post, b.id).frames), b.id)
      == if post.blocks == mid.blocks then StoreAt(Top(post.frames), b.id) else map[]
  {
    hide Ready, LastIndex;
    SpanStart(mid, b.stats[i], CtxAt(b, c, i), env, t, mid.blocks);
    CatchRestores(mid, post, b.id, mid.blocks, StatOwn(b.stats[i]), {b.id});
    assert {b.id} + {b.id} == {b.id};
    StatDone(pre, mid, Stabilized(post, b.id), base, b, c, i, t);
  }

  /** The end of a block: it is erased and popped. */
  lemma BlockLeft(pre: View, v: View, w: View, base: seq<BlockId>, b: Block, c: Ctx, i: nat, t: Tables)
    requires AtStat(pre, v, base, b, c, i, t)
    requires w == v.(blocks := base, frames := Pop(v.frames) + [Erase(Top(v.frames), [b.id])])
    ensures Span(pre, w, base, Own(b), {})
  {
    hide At;
    assert v.blocks[|base|..] == [b.id];
    var f, g := Top(v.frames), Erase(Top(v.frames), [b.id]);
    assert forall id | id != b.id :: StoreAt(g, id) == StoreAt(f, id);
    assert b.id in [b.id] && StoreAt(g, b.id) == map[];
    SpanEmpty(pre, w, base, Own(b), {});
  }

  /** The end of a block; the body of a `for` stays as it is. */
  lemma BlockDone(pre: View, v: View, w: View, base: seq<BlockId>, b: Block, c: Ctx, i: nat, t: Tables, stays: bool)
    requires AtStat(pre, v, base, b, c, i, t) && v.frames != []
    requires w == if stays then v else v.(blocks := base, frames := Pop(v.frames) + [Erase(Top(v.frames), [b.id])])
    ensures BlockPost(Normal, pre, w, b, base, stays) && Sized(v) && v.bases == pre.bases
  {
    hide Own, StaticOk, Covered, Erase;
    if !stays {
      BlockLeft(pre, v, w, base, b, c, i, t);
    }
  }

  /** A block that is left abruptly leaves its blocks on the stack, whether it is the body of a `for` or not. */
  lemma LeftAnyway(o: Outcome, pre: View, v: View, b: Block, base: seq<BlockId>, stays: bool)
    requires !o.Normal? && BlockPost(o, pre, v, b, base, false)
    ensures BlockPost(o, pre, v, b, base, stays)
  {
  }

  lemma RaisedThrough(o: Outcome, raised: seq<BlockId>, base: seq<BlockId>, id: BlockId, t: Tables)
    requires o.Goto? && RaisedOk(o, raised, base + [id], t)
    ensures !HoldsLabel(t, o.target, id) ==> RaisedOk(o, raised, base, t)
    ensures HoldsLabel(t, o.target, id) ==> forall a: nat | a <= |base| :: JumpOk(Jump(o.target, raised, a, |base|), t)
  {
    assert raised[|base|] == (base + [id])[|base|];
    assert base <= raised;
  }

  // ----- blocks inside a statement -----

  /** The static position of a nested block. */
  lemma SubStatic(s: Stat, j: nat, c: Ctx, t: Tables)
    requires StaticOk(c, t) && ReadyStat(s, c.env, c.chain, c.own, t) && j < |s.nodes| && s.nodes[j].Sub?
    ensures var c' := SubCtx(c, s.kind, s.nodes[j]);
            StaticOk(c', t) && Ready(s.nodes[j].block, c'.env, c'.chain, c'.own, t)
    ensures s.nodes[j].block.id in t.index
  {
    assert ReadyNode(s.kind, s.nodes[j], c.env, c.chain, c.own, t);
    EnterSub(c, s.kind, s.nodes[j], t);
  }

  lemma SubStarts(v: View, s: Stat, j: nat, c: Ctx, t: Tables)
    requires At(v, c, {}, t) && ReadyStat(s, c.env, c.chain, c.own, t) && j < |s.nodes| && s.nodes[j].Sub?
    ensures StartsAt(v, v.blocks, s.nodes[j].block, SubCtx(c, s.kind, s.nodes[j]), t)
  {
    var n := s.nodes[j];
    assert ReadyNode(s.kind, n, c.env, c.chain, c.own, t);
    SubReady(v, s.kind, n, c, t);
  }

  lemma SubReady(v: View, k: Kind, n: Node, c: Ctx, t: Tables)
    requires At(v, c, {}, t) && n.Sub? && ReadyNode(k, n, c.env, c.chain, c.own, t)
    ensures StartsAt(v, v.blocks, n.block, SubCtx(c, k, n), t)
  {
    EnterSub(c, k, n, t);
    CoveredSub(Top(v.frames), c, k, n);
    assert (v.blocks + [n.block.id])[Top(v.bases)..] == v.blocks[Top(v.bases)..] + [n.block.id];
  }

  /** The stacks are those of `pre`, possibly with the body `body` of a loop on top. */
  ghost predicate Around(pre: View, v: View, s: Stat, body: Block) {
    && Span(pre, v, pre.blocks, StatOwn(s), {})
    && forall id | id in v.blocks[|pre.blocks|..] :: id in Own(body)
  }

  lemma AroundStart(v: View, s: Stat, c: Ctx, t: Tables, body: Block)
    requires At(v, c, {}, t) && ReadyStat(s, NextEnv(s, c), c.chain, c.own, t)
    ensures Around(v, v, s, body) && Top(c.own) !in StatOwn(s) && v.blocks != [] && Top(v.blocks) == Top(c.own)
  {
    SpanStart(v, s, c, NextEnv(s, c), t, v.blocks);
    assert v.blocks[|v.blocks|..] == [];
  }

  /** After a nested block that ended normally, the statement can go on. */
  lemma SubDone(pre: View, mid: View, post: View, s: Stat, j: nat, c: Ctx, t: Tables)
    requires At(pre, c, {}, t) && j < |s.nodes| && s.nodes[j].Sub? && Around(pre, mid, s, s.nodes[j].block)
    requires BlockPost(Normal, mid, post, s.nodes[j].block, pre.blocks, false)
    ensures At(post, c, {}, t) && Around(pre, post, s, s.nodes[j].block) && post.blocks == pre.blocks
  {
    var body := s.nodes[j].block;
    SubInStat(s, j);
    SpanWiden(pre, mid, post, pre.blocks, StatOwn(s), Own(body), {});
    assert post.blocks[|pre.blocks|..] == [];
    CoveredSpan(pre, post, c, StatOwn(s), {});
  }

  /** A nested block that ended abruptly ends the statement around it, too. */
  lemma SubLeft(o: Outcome, pre: View, mid: View, post: View, s: Stat, j: nat, id: BlockId, stays: bool)
    requires j < |s.nodes| && s.nodes[j].Sub? && Around(pre, mid, s, s.nodes[j].block) && id !in StatOwn(s)
    requires BlockPost(o, mid, post, s.nodes[j].block, pre.blocks, stays)
    requires s.kind.Do? || s.kind.If? || (IsLoop(s.kind) && !o.Normal?)
    requires o.Normal? ==> !stays
    requires o.Break? ==> !IsLoop(s.kind)
    ensures StatPost(o, pre, post, s, id) && Fate(o, pre, post, s, id, false)
  {
    if !Fatal(o) {
      SubInStat(s, j);
      SpanWiden(pre, mid, post, pre.blocks, StatOwn(s), Own(s.nodes[j].block), {});
      SpanTouch(pre, post, pre.blocks, StatOwn(s), id);
    }
  }

  lemma SpanTouch(pre: View, post: View, base: seq<BlockId>, own: set<BlockId>, id: BlockId)
    requires Span(pre, post, base, own, {}) && id !in own
    ensures Span(pre, post, base, own, {id}) && StoreAt(Top(post.frames), id) == StoreAt(Top(pre.frames), id)
  {
  }

  /** Nothing happened, as far as the stacks go. */
  lemma StatQuiet(pre: View, post: View, s: Stat, id: BlockId)
    requires Span(pre, post, pre.blocks, StatOwn(s), {}) && post.blocks == pre.blocks && id !in StatOwn(s)
    ensures StatPost(Normal, pre, post, s, id)
    ensures !s.kind.ForIn? ==> Fate(Normal, pre, post, s, id, false)
  {
    SpanTouch(pre, post, pre.blocks, StatOwn(s), id);
  }

  /** A break caught by a loop that stands in block `id`. */
  lemma CaughtHere(pre: View, v: View, s: Stat, id: BlockId, broke: bool)
    requires pre.blocks != [] && Top(pre.blocks) == id && id !in StatOwn(s)
    requires Span(pre, v, pre.blocks, StatOwn(s), {}) && v.blocks != pre.blocks && IsLoop(s.kind)
    requires broke || s.kind.ForIn?
    ensures id in v.blocks && v.frames != []
    ensures StatPost(Normal, pre, Stabilized(v, id), s, id) && Fate(Normal, pre, Stabilized(v, id), s, id, broke)
  {
    hide LastIndex;
    CatchRestores(pre, v, id, pre.blocks, StatOwn(s), {});
    assert {} + {id} == {id};
    assert StoreAt(Top(v.frames), id) == StoreAt(Top(pre.frames), id);
  }

  lemma BreakCaught(pre: View, mid: View, post: View, s: Stat, j: nat, id: BlockId, stays: bool)
    requires j < |s.nodes| && s.nodes[j].Sub? && Around(pre, mid, s, s.nodes[j].block)
    requires BlockPost(Outcome.Break, mid, post, s.nodes[j].block, pre.blocks, stays)
    requires pre.blocks != [] && Top(pre.blocks) == id && id !in StatOwn(s) && IsLoop(s.kind)
    ensures id in post.blocks && post.frames != []
    ensures StatPost(Normal, pre, Stabilized(post, id), s, id) && Fate(Normal, pre, Stabilized(post, id), s, id, true)
  {
    SubInStat(s, j);
    SpanWiden(pre, mid, post, pre.blocks, StatOwn(s), Own(s.nodes[j].block), {});
    CaughtHere(pre, post, s, id, true);
  }

  // ----- `for` loops -----

  /** Before a loop its body holds nothing. */
  lemma BodyIsEmpty(pre: View, s: Stat, c: Ctx, t: Tables)
    requires At(pre, c, {}, t) && ReadyStat(s, NextEnv(s, c), c.chain, c.own, t) && IsLoop(s.kind) && Shaped(s)
    ensures StoreAt(Top(pre.frames), s.nodes[BodyIndex(s)].block.id) == map[]
  {
    SubInStat(s, BodyIndex(s));
    NothingHeld(Top(pre.frames), c, s, NextEnv(s, c), t, s.nodes[BodyIndex(s)].block.id);
  }

  /** Inside a `for`: its body is on the stack, and its store holds at most the loop's own names. */
  ghost predicate InFor(pre: View, v: View, s: Stat, body: BlockId) {
    && SameOuter(pre, v) && v.blocks == pre.blocks + [body]
    && SameStores(Top(pre.frames), Top(v.frames), {body})
    && StoreAt(Top(v.frames), body).Keys <= set n | n in HeadNames(s.kind)
  }

  lemma ForStarts(pre: View, v: View, s: Stat, j: nat, c: Ctx, t: Tables)
    requires At(pre, c, {}, t) && ReadyStat(s, c.env, c.chain, c.own, t) && j < |s.nodes| && s.nodes[j].Sub?
    requires DeclNames(s.kind) == []
    requires InFor(pre, v, s, s.nodes[j].block.id)
    ensures StartsAt(v, pre.blocks, s.nodes[j].block, SubCtx(c, s.kind, s.nodes[j]), t)
    ensures At(v, SubCtx(c, s.kind, s.nodes[j]), {}, t)
    ensures Around(pre, v, s, s.nodes[j].block) && v.blocks != pre.blocks
  {
    var n := s.nodes[j];
    SubStarts(pre, s, j, c, t);
    ForCovered(pre, v, s, j, c, t);
    assert v.blocks[Top(v.bases)..] == SubCtx(c, s.kind, n).own;
    ForAround(pre, v, s, j, c, t);
  }

  lemma ForBlocks(pre: View, v: View, s: Stat, body: BlockId)
    requires InFor(pre, v, s, body)
    ensures v.blocks == pre.blocks + [body]
  {
  }

  lemma ForCovered(pre: View, v: View, s: Stat, j: nat, c: Ctx, t: Tables)
    requires j < |s.nodes| && s.nodes[j].Sub?
    requires pre.frames != [] && Covered(Top(pre.frames), SubCtx(c, s.kind, s.nodes[j]).own, {},
        SubCtx(c, s.kind, s.nodes[j]).env)
    requires InFor(pre, v, s, s.nodes[j].block.id)
    ensures Covered(Top(v.frames), SubCtx(c, s.kind, s.nodes[j]).own, {}, SubCtx(c, s.kind, s.nodes[j]).env)
  {
    var n := s.nodes[j];
    var c', id := SubCtx(c, s.kind, n), n.block.id;
    forall x | Holds(Top(v.frames), id, x) ensures id in Entries(c'.env, x) {
      InsertAllEntries(map[], HeadNames(s.kind), id, x);
      AppendEntries(InsertAll(map[], HeadNames(s.kind), id), c.env, x);
    }
    CoveredAdd(Top(pre.frames), Top(v.frames), c'.own, c'.env, id);
  }

  lemma ForAround(pre: View, v: View, s: Stat, j: nat, c: Ctx, t: Tables)
    requires At(pre, c, {}, t) && ReadyStat(s, c.env, c.chain, c.own, t) && j < |s.nodes| && s.nodes[j].Sub?
    requires InFor(pre, v, s, s.nodes[j].block.id)
    ensures Around(pre, v, s, s.nodes[j].block)
  {
    var id := s.nodes[j].block.id;
    SubInStat(s, j);
    assert v.blocks[|pre.blocks|..] == [id];
    forall x | x in StatOwn(s) && x != id ensures StoreAt(Top(v.frames), x) == map[] {
      NothingHeld(Top(pre.frames), c, s, c.env, t, x);
    }
  }

  /** Between two iterations only the loop's own names stay in the store of the body. */
  lemma ForAgain(pre: View, mid: View, post: View, w: View, s: Stat, j: nat, c: Ctx, t: Tables)
    requires At(pre, c, {}, t) && ReadyStat(s, c.env, c.chain, c.own, t) && j < |s.nodes| && s.nodes[j].Sub?
    requires InFor(pre, mid, s, s.nodes[j].block.id)
    requires BlockPost(Normal, mid, post, s.nodes[j].block, pre.blocks, true)
    requires SameOuter(post, w) && w.blocks == post.blocks
        && SameStores(Top(post.frames), Top(w.frames), {s.nodes[j].block.id})
    requires StoreAt(Top(w.frames), s.nodes[j].block.id).Keys <= set n | n in HeadNames(s.kind)
    ensures InFor(pre, w, s, s.nodes[j].block.id)
  {
    var b := s.nodes[j].block;
    SubInStat(s, j);
    assert post.blocks[|pre.blocks|..] == [b.id];
    forall x | x != b.id ensures StoreAt(Top(w.frames), x) == StoreAt(Top(pre.frames), x) {
      if x in Own(b) {
        NothingHeld(Top(pre.frames), c, s, c.env, t, x);
        assert StoreAt(Top(post.frames), x) == map[];
      }
      assert StoreAt(Top(w.frames), x) == StoreAt(Top(post.frames), x);
    }
  }

  /** The normal end of a numeric `for`. */
  lemma ForLeft(pre: View, v: View, w: View, s: Stat, j: nat, c: Ctx, t: Tables)
    requires At(pre, c, {}, t) && ReadyStat(s, c.env, c.chain, c.own, t) && j < |s.nodes| && s.nodes[j].Sub?
    requires InFor(pre, v, s, s.nodes[j].block.id)
    requires w == v.(blocks := pre.blocks, frames := Pop(v.frames) + [Erase(Top(v.frames), [s.nodes[j].block.id])])
    ensures Span(pre, w, pre.blocks, StatOwn(s), {})
  {
    var id := s.nodes[j].block.id;
    SubInStat(s, j);
    var f, g := Top(v.frames), Top(w.frames);
    assert id in [id];
    assert forall x | x != id :: StoreAt(g, x) == StoreAt(f, x);
    forall x | x in StatOwn(s) ensures StoreAt(g, x) == map[] {
      NothingHeld(Top(pre.frames), c, s, c.env, t, x);
    }
    SpanEmpty(pre, w, pre.blocks, StatOwn(s), {});
  }

  /** While the step of a numeric `for` is evaluated its variable is already in the store of the body. */
  lemma ForPrepared(pre: View, v: View, s: Stat, j: nat, c: Ctx, t: Tables)
    requires At(pre, c, {}, t) && ReadyStat(s, c.env, c.chain, c.own, t) && j < |s.nodes| && s.nodes[j].Sub?
    requires SameOuter(pre, v) && v.blocks == pre.blocks
        && SameStores(Top(pre.frames), Top(v.frames), {s.nodes[j].block.id})
    ensures At(v, c, {s.nodes[j].block.id}, t)
  {
    var id := s.nodes[j].block.id;
    assert ReadyNode(s.kind, s.nodes[j], c.env, c.chain, c.own, t);
    forall x, n: Name | Holds(Top(v.frames), x, n) ensures x in {id} || (x in c.own && x in Entries(c.env, n)) {
      if x != id {
        assert StoreAt(Top(v.frames), x) == StoreAt(Top(pre.frames), x);
        assert Holds(Top(pre.frames), x, n);
      }
    }
  }

  // ----- declarations -----

  lemma Declared(pre: View, v: View, s: Stat, id: BlockId)
    requires SameOuter(pre, v) && v.blocks == pre.blocks
    requires Span(pre, pre, pre.blocks, StatOwn(s), {}) && id !in StatOwn(s)
    requires SameStores(Top(pre.frames), Top(v.frames), {id})
    requires Kept(StoreAt(Top(pre.frames), id), StoreAt(Top(v.frames), id), DeclNames(s.kind)) && !s.kind.ForIn?
    requires StoreAt(Top(v.frames), id).Keys == StoreAt(Top(pre.frames), id).Keys + (set n | n in DeclNames(s.kind))
    ensures StatPost(Normal, pre, v, s, id) && Fate(Normal, pre, v, s, id, false)
  {
    assert v.blocks[|pre.blocks|..] == [];
    assert forall x | x in StatOwn(s) :: StoreAt(Top(v.frames), x) == StoreAt(Top(pre.frames), x);
  }

  /** The same, where the statement stands in the block on top of the stack. */
  lemma DeclaredHere(pre: View, v: View, s: Stat, c: Ctx, t: Tables)
    requires At(pre, c, {}, t) && ReadyStat(s, NextEnv(s, c), c.chain, c.own, t) && !s.kind.ForIn?
    requires v == pre.(frames := v.frames) && |v.frames| == |pre.frames| && Pop(v.frames) == Pop(pre.frames)
    requires pre.blocks != [] && SameStores(Top(pre.frames), Top(v.frames), {Top(pre.blocks)})
    requires Kept(StoreAt(Top(pre.frames), Top(pre.blocks)), StoreAt(Top(v.frames), Top(pre.blocks)), DeclNames(s.kind))
    requires StoreAt(Top(v.frames), Top(pre.blocks)).Keys
          == StoreAt(Top(pre.frames), Top(pre.blocks)).Keys + (set n | n in DeclNames(s.kind))
    ensures StatPost(Normal, pre, v, s, Top(c.own)) && Fate(Normal, pre, v, s, Top(c.own), false)
  {
    hide Kept, StatOwn, ReadyStat, Layers, Ordered, Within, Covered, SameStores;
    AroundStart(pre, s, c, t, Block(0, []));
    AroundSpan(pre, pre, s, Block(0, []));
    Declared(pre, v, s, Top(c.own));
  }

  /** A statement that leaves the stacks as they were. */
  lemma QuietHere(pre: View, s: Stat, c: Ctx, t: Tables)
    requires At(pre, c, {}, t) && ReadyStat(s, NextEnv(s, c), c.chain, c.own, t) && !s.kind.ForIn?
    ensures StatPost(Normal, pre, pre, s, Top(c.own)) && Fate(Normal, pre, pre, s, Top(c.own), false)
  {
    hide StatOwn, ReadyStat, Layers, Ordered, Within, Covered, StatPost, Fate, Around, Span;
    AroundStart(pre, s, c, t, Block(0, []));
    AroundSpan(pre, pre, s, Block(0, []));
    StatQuiet(pre, pre, s, Top(c.own));
  }

  /** A statement that raises an exit itself. */
  lemma RaisedHere(o: Outcome, pre: View, s: Stat, c: Ctx, t: Tables)
    requires At(pre, c, {}, t) && ReadyStat(s, NextEnv(s, c), c.chain, c.own, t)
    requires (s.kind.Break? && o.Break?) || (s.kind.Goto? && o == Outcome.Goto(s.kind.target))
        || (s.kind.Return? && o.Return?)
    ensures StatPost(o, pre, pre, s, Top(c.own)) && Fate(o, pre, pre, s, Top(c.own), false)
  {
    hide StatOwn, ReadyStat, Layers, Ordered, Within, Covered, StatPost, Fate, Around, Span;
    AroundStart(pre, s, c, t, Block(0, []));
    StatRaised(o, pre, s, Top(c.own));
  }

  // ----- static facts -----

  lemma StartsFacts(v: View, base: seq<BlockId>, b: Block, c: Ctx, t: Tables)
    requires StartsAt(v, base, b, c, t)
    ensures StaticOk(c, t) && Ready(b, c.env, c.chain, c.own, t) && Sized(v) && Top(v.bases) <= |base|
  {
  }

  lemma EscapesBlock(b: Block, i: nat, l: Name)
    requires i < |b.stats| && l in StatGotos(b.stats[i]) && l !in LabelNames(b)
    ensures l in Escaping(b)
  {
  }

  /** A break, a return or an error out of a statement leaves the block around it. */
  lemma StatLeft(o: Outcome, pre: View, mid: View, post: View, base: seq<BlockId>, b: Block, c: Ctx, i: nat, t: Tables)
    requires i < |b.stats| && AtStat(pre, mid, base, b, c, i, t)
    requires StatPost(o, mid, post, b.stats[i], b.id) && !o.Normal? && !o.Goto?
    ensures BlockPost(o, pre, post, b, base, false)
  {
    if !Fatal(o) {
      SpanCompose(pre, mid, post, base, b, i);
    }
  }

  lemma StabilizedKeeps(mid: View, v: View, id: BlockId, own: set<BlockId>)
    requires Sized(v) && id in v.blocks && Span(mid, v, mid.blocks, own, {id})
    ensures Stabilized(v, id).functions == v.functions && Stabilized(v, id).bases == v.bases == mid.bases
    ensures |Stabilized(v, id).frames| == |v.frames|
  {
  }

  lemma AtStatBases(pre: View, v: View, base: seq<BlockId>, b: Block, c: Ctx, i: nat, t: Tables)
    requires AtStat(pre, v, base, b, c, i, t)
    ensures v.bases == pre.bases
  {
  }

  lemma ShapeFacts(s: Stat, env: Index, c: Ctx, t: Tables)
    requires ReadyStat(s, env, c.chain, c.own, t)
    ensures Shaped(s)
  {
  }

  lemma ShapedFunction(s: Stat)
    requires Shaped(s) && (s.kind.Function? || s.kind.LocalFunction?)
    ensures |s.nodes| == 1 && s.nodes[0].Func?
  {
  }

  lemma AroundSpan(pre: View, v: View, s: Stat, body: Block)
    requires Around(pre, v, s, body)
    ensures Span(pre, v, pre.blocks, StatOwn(s), {})
  {
  }

  /** A break, a goto or a return that is raised by the statement itself. */
  lemma StatRaised(o: Outcome, pre: View, s: Stat, id: BlockId)
    requires Around(pre, pre, s, Block(0, [])) && id !in StatOwn(s)
    requires (s.kind.Break? && o.Break?) || (s.kind.Goto? && o == Outcome.Goto(s.kind.target))
        || (s.kind.Return? && o.Return?)
    ensures StatPost(o, pre, pre, s, id) && Fate(o, pre, pre, s, id, false)
  {
    SpanTouch(pre, pre, pre.blocks, StatOwn(s), id);
  }

  lemma StatFatal(o: Outcome, pre: View, post: View, s: Stat, id: BlockId)
    requires Fatal(o) && !o.Unbalanced?
    ensures StatPost(o, pre, post, s, id) && forall broke: bool :: Fate(o, pre, post, s, id, broke)
  {
  }

  lemma NotBroke(o: Outcome, pre: View, post: View, s: Stat, id: BlockId, broke: bool)
    requires Fate(o, pre, post, s, id, broke) && !o.Normal? && !Fatal(o)
    ensures !broke
  {
  }

  lemma GotoFate(o: Outcome, pre: View, post: View, s: Stat, id: BlockId)
    requires Fate(o, pre, post, s, id, false) && o.Goto?
    ensures post.blocks == pre.blocks <==> s.kind.Goto?
    ensures s.kind.Goto? ==> pre.frames != [] && post.frames != []
                             && StoreAt(Top(post.frames), id) == StoreAt(Top(pre.frames), id)
  {
    if s.kind.Goto? {
      assert StoreAt(Top(post.frames), id).Keys == StoreAt(Top(pre.frames), id).Keys;
    }
  }

  lemma ForPushed(pre: View, mid: View, v: View, s: Stat, j: nat, c: Ctx, t: Tables)
    requires At(pre, c, {}, t) && ReadyStat(s, NextEnv(s, c), c.chain, c.own, t) && j < |s.nodes| && s.nodes[j].Sub?
    requires SameOuter(pre, mid) && mid.blocks == pre.blocks
        && SameStores(Top(pre.frames), Top(mid.frames), {s.nodes[j].block.id})
    requires StoreAt(Top(mid.frames), s.nodes[j].block.id).Keys
               == StoreAt(Top(pre.frames), s.nodes[j].block.id).Keys + set n | n in HeadNames(s.kind)
    requires v == mid.(blocks := mid.blocks + [s.nodes[j].block.id])
    ensures InFor(pre, v, s, s.nodes[j].block.id)
  {
    SubInStat(s, j);
    NothingHeld(Top(pre.frames), c, s, NextEnv(s, c), t, s.nodes[j].block.id);
  }

  lemma ForInPushed(pre: View, v: View, s: Stat, j: nat, c: Ctx, t: Tables)
    requires At(pre, c, {}, t) && ReadyStat(s, NextEnv(s, c), c.chain, c.own, t) && j < |s.nodes| && s.nodes[j].Sub?
    requires v == pre.(blocks := pre.blocks + [s.nodes[j].block.id])
    ensures InFor(pre, v, s, s.nodes[j].block.id)
  {
    SubInStat(s, j);
    NothingHeld(Top(pre.frames), c, s, NextEnv(s, c), t, s.nodes[j].block.id);
  }

  lemma ForBound(pre: View, mid: View, v: View, s: Stat, body: BlockId)
    requires InFor(pre, mid, s, body) && SameOuter(mid, v) && v.blocks == mid.blocks
    requires SameStores(Top(mid.frames), Top(v.frames), {body})
    requires StoreAt(Top(v.frames), body).Keys == StoreAt(Top(mid.frames), body).Keys + set n | n in HeadNames(s.kind)
    ensures InFor(pre, v, s, body)
  {
    assert forall x | x != body :: StoreAt(Top(v.frames), x) == StoreAt(Top(mid.frames), x);
  }

  lemma BlockFrames(pre: View, post: View, b: Block, base: seq<BlockId>, stays: bool)
    requires BlockPost(Normal, pre, post, b, base, stays)
    ensures |post.frames| == |pre.frames| && post.frames != []
  {
  }

  lemma ChunkStarts(v: View, chunk: Block, c: Ctx, t: Tables)
    requires v == View([], [map[]], [], [0]) && c == Ctx(map[], [chunk.id], [chunk.id])
    requires Ready(chunk, map[], [chunk.id], [chunk.id], t)
    ensures StartsAt(v, [], chunk, c, t)
  {
    hide Layers, EnvAt, Tail, ReadyStat, LabelNames;
    EnvAtZero(chunk, map[]);
    EmptyLayers(chunk.id);
    EnvAtTail(chunk, map[], 0, |chunk.stats|);
    assert c.chain[|c.chain| - |c.own|..] == c.own;
    assert ([] + [chunk.id])[0..] == [chunk.id];
  }
}
