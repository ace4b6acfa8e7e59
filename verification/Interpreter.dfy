/** The interpreter as an object: its stacks, and the visitor methods that change them. */
module Interpretation {
  import opened Helpers
  import opened Syntax
  import opened Scoping
  import opened Control
  import opened Steps
  import opened Flow
  import opened Traces

  class Interpreter {
    const t: Tables

    var blocks: seq<BlockId>
    var frames: seq<Frame>
    var functions: seq<Closure>
    var globals: Store
    var comingFromFor: bool
    var comingFromFuncall: bool

    var nextCell: Cell            // allocation of cells
    var created: seq<Closure>     // every function value made so far

    ghost var bases: seq<nat>         // where each activation starts on `blocks`
    ghost var raised: seq<BlockId>    // the stack when the last goto was raised
    ghost var jumps: seq<Jump>        // every goto caught so far
    ghost var selfCalled: bool        // some function was called from one of its own blocks
    ghost var failed: bool            // an expression raised an error, or a name was closed over twice
    ghost var exhausted: bool         // a call was made at the bound on the depth of calls
    ghost var misplaced: bool         // the current activation has leftovers of a call on the stack

    constructor (t: Tables)
      ensures this.t == t && blocks == [] && frames == [] && functions == [] && created == [] && jumps == []
      ensures bases == [] && !comingFromFor && !comingFromFuncall && !misplaced
      ensures globals == map[] && nextCell == 0 && !failed && !exhausted
    {
      this.t := t;
      blocks, frames, functions, globals := [], [], [], map[];
      comingFromFor, comingFromFuncall := false, false;
      nextCell, created := 0, [];
      bases, raised, jumps, selfCalled, misplaced := [], [], [], false, false;
      failed, exhausted := false, false;
    }

    ghost function V(): View
      reads this
    {
      View(blocks, frames, functions, bases)
    }

    /** What a statement can change, apart from the stacks. */
    ghost function S(): Memory
      reads this
    {
      Memory(if frames == [] then map[] else Top(frames), created, globals, nextCell)
    }

    /** Every cell in use is one that was allocated. */
    ghost predicate Below()
      reads this
    {
      CellsBelow(frames, functions, globals, created, nextCell)
    }

    /** A statement that ended with `o` and began with memory `before`. */
    ghost function Did(o: Outcome, before: Memory, visits: seq<Visit>): Step
      reads this
    {
      Step(0, if blocks == [] then 0 else Top(blocks), o, before, S(), visits)
    }

    ghost predicate Inv()
      reads this
    {
      Good(V(), created, jumps, t) && Known(V(), t) && Below() && (misplaced ==> selfCalled)
    }

    /** Every end of a run has its reason. */
    ghost predicate Explained(o: Outcome)
      reads this
    {
      && (o.Error? ==> failed) && (o.Overflow? ==> exhausted)
      && (o.Unbalanced? ==> misplaced)
    }

    /** What is never taken back. */
    twostate predicate Adds()
      reads this
    {
      && old(created) <= created && old(jumps) <= jumps
      && old(globals).Keys <= globals.Keys && old(nextCell) <= nextCell
      && (old(selfCalled) ==> selfCalled)
    }

    /** What is never taken back while an activation lasts. */
    twostate predicate Grows()
      reads this
    {
      Adds() && (old(misplaced) ==> misplaced)
    }

    /** A statement or an expression at static position `c` is about to run; the stacks are as they should be
        unless a return has been caught in the wrong place in this activation. */
    ghost predicate Here(c: Ctx, extra: set<BlockId>)
      reads this
    {
      && Inv() && !comingFromFor && !comingFromFuncall && StaticOk(c, t) && blocks != []
      && (!misplaced ==> At(V(), c, extra, t))
    }

    // ----- stores -----

    method NewCell() returns (cell: Cell)
      modifies this`nextCell
      ensures cell == old(nextCell) && nextCell == old(nextCell) + 1
      ensures old(Below()) ==> Below()
    {
      hide CellsBelow;
      cell := nextCell;
      if Below() { CellsLater(frames, functions, globals, created, nextCell, nextCell + 1); }
      nextCell := nextCell + 1;
    }

    /** Puts a new cell in the global values. */
    method SetGlobal(n: Name)
      modifies this`globals, this`nextCell
      ensures globals == old(globals)[n := old(nextCell)] && nextCell == old(nextCell) + 1
      ensures old(Below()) ==> Below()
    {
      hide CellsBelow;
      var cell := NewCell();
      if old(Below()) { CellsGlobal(frames, functions, globals, created, nextCell, n, cell); }
      globals := globals[n := cell];
    }

    method SetStore(id: BlockId, store: Store)
      requires frames != []
      modifies this`frames
      ensures frames == Pop(old(frames)) + [Top(old(frames))[id := store]]
      ensures old(Below()) && StoreBelow(store, nextCell) ==> Below()
    {
      hide CellsBelow;
      if Below() && StoreBelow(store, nextCell) {
        CellsStored(frames, functions, globals, created, nextCell, id, store);
      }
      frames := frames[|frames| - 1 := frames[|frames| - 1][id := store]];
      assert Pop(frames) == Pop(old(frames));
    }

    method EraseBlock(id: BlockId)
      requires frames != []
      modifies this`frames
      ensures frames == Pop(old(frames)) + [Erase(Top(old(frames)), [id])]
      ensures old(Below()) ==> Below()
    {
      hide CellsBelow;
      if Below() { CellsErased(frames, functions, globals, created, nextCell, [id]); }
      frames := frames[|frames| - 1 := frames[|frames| - 1] - {id}];
      assert (set x | x in [id]) == {id};
      assert Pop(frames) == Pop(old(frames));
    }

    /** Puts one fresh cell per name in the store of a block: different names get different cells. */
    method BindNames(id: BlockId, names: seq<Name>)
      requires frames != []
      modifies this`frames, this`nextCell
      ensures |frames| == |old(frames)| && Pop(frames) == Pop(old(frames))
      ensures SameStores(Top(old(frames)), Top(frames), {id})
      ensures names != [] ==> Top(frames) == Top(old(frames))[id := StoreAt(Top(frames), id)]
      ensures (StoreAt(Top(frames), id), nextCell)
        == Declaration(StoreAt(Top(old(frames)), id), names, 0, old(nextCell))
      ensures StoreAt(Top(frames), id).Keys == StoreAt(Top(old(frames)), id).Keys + set n | n in names
      ensures forall n | n in names :: old(nextCell) <= StoreAt(Top(frames), id)[n] < nextCell
      ensures forall n, m | n in names && m in names && n != m ::
                StoreAt(Top(frames), id)[n] != StoreAt(Top(frames), id)[m]
      ensures Kept(StoreAt(Top(old(frames)), id), StoreAt(Top(frames), id), names)
      ensures (old(Below()) ==> Below()) && old(nextCell) <= nextCell
    {
      hide CellsBelow;
      for i := 0 to |names|
        invariant |frames| == |old(frames)| && Pop(frames) == Pop(old(frames))
        invariant SameStores(Top(old(frames)), Top(frames), {id})
        invariant i == 0 ==> frames == old(frames)
        invariant i > 0 ==> Top(frames) == Top(old(frames))[id := StoreAt(Top(frames), id)]
        invariant (StoreAt(Top(frames), id), nextCell)
          == Declaration(StoreAt(Top(old(frames)), id), names[..i], 0, old(nextCell))
        invariant old(nextCell) <= nextCell && (old(Below()) ==> Below())
      {
        DeclarationStep(StoreAt(Top(old(frames)), id), names, i, 0, old(nextCell));
        if old(Below()) { StoreAtBelow(frames, functions, globals, created, nextCell, id); }
        var cell := NewCell();
        SetStore(id, StoreAt(Top(frames), id)[names[i] := cell]);
      }
      assert names[..|names|] == names;
      BoundStore(StoreAt(Top(old(frames)), id), names, old(nextCell));
    }

    // ----- repairing the stack -----

    method EraseFrom(n: nat)
      requires frames != [] && n <= |blocks|
      modifies this`frames
      ensures frames == Pop(old(frames)) + [Erase(Top(old(frames)), blocks[n..])]
      ensures old(Below()) ==> Below()
    {
      hide CellsBelow;
      EraseOneMore(Top(frames), [], 0);
      var j := n;
      assert blocks[n..j] == [] && frames == Pop(frames) + [Top(frames)];
      while j < |blocks|
        invariant n <= j <= |blocks|
        invariant frames == Pop(old(frames)) + [Erase(Top(old(frames)), blocks[n..j])]
        invariant old(Below()) ==> Below()
      {
        EraseOneMore(Top(old(frames)), blocks[n..j], blocks[j]);
        EraseBlock(blocks[j]);
        assert blocks[n..j + 1] == blocks[n..j] + [blocks[j]];
        j := j + 1;
      }
      assert blocks[n..|blocks|] == blocks[n..];
    }

    /** The topmost position of a block on the stack. */
    method FindBlock(context: BlockId) returns (n: nat)
      requires context in blocks
      ensures n == LastIndex(blocks, context)
    {
      hide LastIndex;
      n := |blocks| - 1;
      while blocks[n] != context
        invariant LastIndex(blocks, context) <= n < |blocks|
        decreases n
      {
        n := n - 1;
      }
      LastIndexIsLast(blocks, context, n);
    }

    method StabilizeBlocks(context: BlockId)
      requires frames != [] && context in blocks
      modifies this`blocks, this`frames
      ensures V() == Stabilized(old(V()), context)
      ensures (old(Below()) ==> Below()) && Cleared(old(S()), S())
    {
      hide LastIndex, Erase, CellsBelow;
      StabilizedClears(V(), context);
      if blocks[|blocks| - 1] != context {
        var n := FindBlock(context);
        EraseFrom(n);
        blocks := blocks[..n + 1];
      } else {
        LastIndexIsLast(blocks, context, |blocks| - 1);
        assert blocks[..|blocks|] == blocks;
      }
    }

    // ----- names and closures -----

    /** Scans some blocks to the end, so the last hit wins. */
    method ScanStores(es: seq<BlockId>, n: Name) returns (r: Option<Cell>)
      requires frames != []
      ensures r == match LastHolder(es, Top(frames), n)
                   case Some(id) => Some(StoreAt(Top(frames), id)[n])
                   case None => None
    {
      r := None;
      for i := 0 to |es|
        invariant r == match LastHolder(es[..i], Top(frames), n)
                       case Some(id) => Some(StoreAt(Top(frames), id)[n])
                       case None => None
      {
        assert es[..i + 1][..i] == es[..i];
        if n in StoreAt(frames[|frames| - 1], es[i]) {
          r := Some(StoreAt(frames[|frames| - 1], es[i])[n]);
        }
      }
      assert es[..|es|] == es;
    }

    /** Scans the index of the current block, then the closure of the current function and the
        global values.  It finds a local if the activation has one.  That is the one of
        the innermost active block that holds the name, in plain programs and otherwise exactly when
        `FindsInnermost` holds for the name at this position. */
    method LookupName(n: Name, ghost c: Ctx, ghost extra: set<BlockId>) returns (r: Found)
      requires Here(c, extra)
      ensures Top(blocks) in t.index
      ensures r == Resolved(Entries(t.index[Top(blocks)], n), Top(frames), functions, globals, n)
      ensures !misplaced ==>
                (LastHolder(Entries(t.index[Top(blocks)], n), Top(frames), n) == LastHolder(c.own, Top(frames), n)
                 <==> FindsInnermost(Entries(t.index[Top(blocks)], n), c.own, Top(frames), n))
      ensures !misplaced ==> (r.LocalCell? <==> LastHolder(c.own, Top(frames), n).Some?)
      ensures !misplaced && (t.plain || FindsInnermost(Entries(t.index[Top(blocks)], n), c.own, Top(frames), n)) ==>
                r == Resolved(c.own, Top(frames), functions, globals, n)
    {
      hide Layers, FindsInnermost, Ordered, Within, Tail, Covered, GoodFunction, JumpOk, LastHolder, Entries;
      OwnInChain(c, t);
      if !misplaced {
        assert Top(blocks) == Top(c.own);
        IndexFindsInnermost(Top(frames), c.own, extra, c.env, t.index[Top(c.own)], c.chain, n);
      }
      if !misplaced && t.plain {
        IndexAgreesWithScopeChain(Top(frames), c.own, extra, c.env, t.index[Top(c.own)], c.chain, n);
      }
      KnownTop(V(), t);
      var found := ScanStores(Entries(t.index[blocks[|blocks| - 1]], n), n);
      if found.Some? {
        r := LocalCell(found.value);
      } else if functions != [] && n in functions[|functions| - 1].closure {
        r := ClosureCell(functions[|functions| - 1].closure[n]);
      } else if n in globals {
        r := GlobalCell(globals[n]);
      } else {
        r := NotFound;
      }
    }

    /** The cell that a name stands for.  A name that stands for nothing becomes a global when it is the target
        of an assignment, and nothing changes when it is read. */
    method VisitVar(n: Name, target: bool, ghost c: Ctx, ghost extra: set<BlockId>) returns (r: Option<Cell>)
      requires Here(c, extra)
      modifies this`globals, this`nextCell
      ensures Here(c, extra) && V() == old(V()) && Top(blocks) in t.index
      ensures var found := Resolved(Entries(t.index[Top(blocks)], n), Top(frames), functions, old(globals), n);
              if found.NotFound? && target then
                r == Some(old(nextCell)) && globals == old(globals)[n := old(nextCell)] && nextCell == old(nextCell) + 1
              else
                && r == (if found.NotFound? then None else Some(found.cell))
                && globals == old(globals) && nextCell == old(nextCell)
    {
      hide CellsBelow, At, GoodFunction, JumpOk, StaticOk, Resolved, LastHolder, Good, Known, FindsInnermost;
      var found := LookupName(n, c, extra);
      if !found.NotFound? {
        r := Some(found.cell);
      } else if target {
        r := Some(nextCell);
        SetGlobal(n);
      } else {
        r := None;
      }
    }

    /** Adds a store to a closure, one name at a time; a name that is already there is an error. */
    method CloseOver(closure: Store, store: Store) returns (r: Option<Store>)
      ensures r.Some? <==> closure.Keys !! store.Keys
      ensures r.Some? ==> r.value == closure + store
    {
      var result, names := closure, store.Keys;
      while names != {}
        invariant names <= store.Keys
        invariant closure.Keys !! (store.Keys - names)
        invariant result == closure + map n | n in store.Keys - names :: store[n]
      {
        var n :| n in names;
        if n in result {
          return None;
        }
        result := result[n := store[n]];
        names := names - {n};
      }
      r := Some(result);
    }

    /** Closes over the stores of some blocks, in order. */
    method CloseOverAll(ids: seq<BlockId>) returns (r: Option<Store>)
      requires frames != []
      ensures r.Some? <==> NoDouble(ids, Top(frames))
      ensures r.Some? ==> r.value == Captured(ids, Top(frames))
    {
      var closure: Store := map[];
      for i := 0 to |ids|
        invariant closure == Captured(ids[..i], Top(frames)) && NoDouble(ids[..i], Top(frames))
      {
        assert Pop(ids[..i + 1]) == ids[..i] && Top(ids[..i + 1]) == ids[i];
        assert ids[..i] + [ids[i]] == ids[..i + 1];
        NoDoubleStep(ids[..i], ids[i], Top(frames));
        var next := CloseOver(closure, StoreAt(frames[|frames| - 1], ids[i]));
        if next.None? {
          NoDoublePrefix(ids, i + 1, Top(frames));
          return None;
        }
        closure := next.value;
      }
      assert ids[..|ids|] == ids;
      r := Some(closure);
    }

    /** Closes a function under the stores of the blocks that the analyser lists for its body.
        It succeeds exactly when no name is held by two active blocks, and then it captures, for
        every name a lookup finds in the activation, the very cell that lookup finds. */
    method CloseFunction(params: seq<Name>, body: Block, ghost c: Ctx, ghost extra: set<BlockId>)
        returns (r: Option<Closure>)
      requires Here(c, extra) && body.id in t.parents && t.parents[body.id] == c.chain
      ensures r.Some? <==> NoDouble(c.chain, Top(frames))
      ensures r.Some? ==> r.value == Closure(params, body, Captured(c.chain, Top(frames)))
      ensures !misplaced ==> (NoDouble(c.chain, Top(frames)) <==> NoDouble(c.own, Top(frames)))
                             && Captured(c.chain, Top(frames)) == Captured(c.own, Top(frames))
      ensures !misplaced && r.Some? ==> forall n: Name ::
                && (n in r.value.closure <==> LastHolder(c.own, Top(frames), n).Some?)
                && (n in r.value.closure ==>
                      r.value.closure[n] == StoreAt(Top(frames), LastHolder(c.own, Top(frames), n).value)[n])
    {
      if !misplaced {
        CapturedByChain(c, extra, Top(frames), t);
      }
      var closure := CloseOverAll(t.parents[body.id]);
      if closure.None? {
        return None;
      }
      r := Some(Closure(params, body, closure.value));
      forall n: Name | !misplaced
        ensures n in closure.value <==> LastHolder(c.own, Top(frames), n).Some?
        ensures n in closure.value
            ==> closure.value[n] == StoreAt(Top(frames), LastHolder(c.own, Top(frames), n).value)[n]
      {
        CapturedIsLastHolder(c.own, Top(frames), n);
      }
    }

    // ----- running -----

    /** Block `b` is about to be visited on top of the stack `base`; calls and `for` loops have already
        pushed it. */
    ghost predicate Starts(b: Block, c: Ctx, base: seq<BlockId>)
      reads this
    {
      && Inv() && StaticOk(c, t) && Ready(b, c.env, c.chain, c.own, t) && Top(bases) <= |base|
      && (if comingFromFor || comingFromFuncall then base + [b.id] <= blocks else blocks == base)
      && (!misplaced ==> StartsAt(V(), base, b, c, t))
      && (!misplaced && (comingFromFor || comingFromFuncall) ==> blocks == base + [b.id])
    }

    /** Evaluates the expressions of a statement: any number of lookups, function definitions and
        calls.  Whatever it calls, the stacks are as before, up to leftovers. */
    method EvalExp(s: Stat, ghost c: Ctx, ghost extra: set<BlockId>, ghost env: Index, depth: nat) returns (o: Outcome)
      requires Here(c, extra) && ReadyStat(s, env, c.chain, c.own, t) && Within(env, c.chain)
      modifies this
      ensures Inv() && !comingFromFor && !comingFromFuncall
      ensures (o.Normal? || Fatal(o)) && Loose(o, old(V()), V(), old(blocks))
      ensures !misplaced && o.Normal? ==> V() == old(V())
      ensures o.Normal? ==> V() == old(V()).(blocks := blocks) && Evaluated(old(S()), S())
      ensures Grows() && Explained(o)
      decreases depth, s, 1
    {
      hide CellsBelow, BlockRan, StatRan, PathFates, At, GoodFunction, JumpOk, Ready, ReadyStat, StaticOk, Within,
        Own, NoDouble, LastHolder, Entries, Sized;
      GoodSized(V(), created, jumps, t);
      LooseStart(V(), Normal);
      var steps: nat := *;
      while steps > 0
        invariant Here(c, extra) && Loose(Normal, old(V()), V(), old(blocks)) && (!misplaced ==> V() == old(V()))
        invariant Grows() && V() == old(V()).(blocks := blocks)
      {
        steps := steps - 1;
        var event: nat := *;
        if event == 0 {
          failed := true;
          return Error;
        } else if event == 1 {
          var n: Name, target: bool := *, *;
          var cell := VisitVar(n, target, c, extra);
        } else if event == 2 {
          var j: nat := *;
          if 0 <= j < |s.nodes| && s.nodes[j].Func? {
            var f := DefineFunction(s, j, c, extra, env);
            if f.None? {
              failed := true;
              return Error;
            }
          }
        } else {
          var k: nat := *;
          if 0 <= k < |created| {
            ghost var mid := V();
            ghost var call;
            o, call := CallFunction(created[k], c, extra, s, depth);
            if !o.Normal? {
              return;
            }
            LooseChain(old(V()), mid, V(), Normal, old(blocks), mid.blocks);
          }
        }
      }
      o := Normal;
    }

    /** Evaluates a function body that occurs in a statement. */
    method DefineFunction(s: Stat, j: nat, ghost c: Ctx, ghost extra: set<BlockId>, ghost env: Index)
        returns (f: Option<Closure>)
      requires Here(c, extra) && ReadyStat(s, env, c.chain, c.own, t) && Within(env, c.chain)
      requires j < |s.nodes| && s.nodes[j].Func?
      modifies this`created
      ensures Inv()
      ensures f.None? ==> created == old(created)
      ensures f.Some? <==> NoDouble(c.chain, Top(frames))
      ensures f.Some? ==> created == old(created) + [f.value]
      ensures f.Some? ==> f.value == Closure(s.nodes[j].params, s.nodes[j].block, Captured(c.chain, Top(frames)))
      ensures s.nodes[j].block.id in t.parents && t.parents[s.nodes[j].block.id] == c.chain
      ensures !misplaced ==> Captured(c.chain, Top(frames)) == Captured(c.own, Top(frames))
    {
      hide CellsBelow, At, StaticOk, ReadyNode, GoodFunction, JumpOk, Good, Known, NoDouble, Captured, LastHolder,
        Within;
      NodeOfStat(s, j, c, env, t);
      GoodSized(V(), created, jumps, t);
      SizedTop(V());
      f := CloseFunction(s.nodes[j].params, s.nodes[j].block, c, extra);
      if f.Some? {
        EnterFunc(c, s.kind, s.nodes[j], env, t, f.value.closure);
        CapturedBelow(frames, functions, globals, created, nextCell, c.chain);
        CellsCreated(frames, functions, globals, created, nextCell, f.value);
        GoodCreated(V(), created, f.value, jumps, t);
        created := created + [f.value];
      }
    }

    /** Runs a function.  Neither a break nor a goto leaves it, a return is caught, and the stack, the frames
        and the functions of the caller are still there.  They are all that is there unless a return was caught
        in the wrong place; from then on the caller's activation has leftovers. */
    method CallFunction(f: Closure, ghost c: Ctx, ghost extra: set<BlockId>, ghost s: Stat, depth: nat)
        returns (o: Outcome, ghost call: Visit)
      requires Here(c, extra) && f in created
      modifies this
      ensures Inv() && !comingFromFor && !comingFromFuncall
      ensures (o.Normal? || Fatal(o)) && Loose(o, old(V()), V(), old(blocks))
      ensures o.Normal? ==> V() == old(V()).(blocks := blocks)
      ensures !misplaced && o.Normal? ==> V() == old(V())
      ensures o.Normal? ==> Called(f, t, old(S()), call, S())
      ensures Grows() && Explained(o)
      decreases depth, s, 0
    {
      hide CellsBelow, BlockRan, StatRan, PathFates, Good, Sized, BlockCan, At, StaticOk, Ready, BlockPost,
        FunctionAt, RaisedOk, Own, Known, SameOuter,
        StartsAt, GoodFunction, Visited, Called, InUse, Declaration, StoreAt, SameStores;
      GoodSized(V(), created, jumps, t);
      ghost var cf := FunctionPosition(f, created, V(), jumps, t);
      call := Visit(Normal, S(), S(), []);
      if depth == 0 {
        o, exhausted := Overflow, true;
        return;
      }
      var current := blocks[|blocks| - 1];
      ghost var pre, left, memory := V(), misplaced, S();
      ghost var entry, started;
      o, call, entry, started := RunFunction(f, cf, current, left, depth - 1);
      if Fatal(o) {
        return;
      }
      EndCall(f, o, current, cf, pre, entry, memory, started, call, left);
      o := Normal;
    }

    /** Enters a function and visits its body; `entry` and `started` are the stacks and the memory in between. */
    method RunFunction(f: Closure, ghost cf: Ctx, ghost current: BlockId, ghost left: bool, depth: nat)
        returns (o: Outcome, ghost call: Visit, ghost entry: View, ghost started: Memory)
      requires Inv() && !comingFromFor && !comingFromFuncall && FunctionAt(f, cf, t) && f in created
      requires left ==> selfCalled
      modifies this
      ensures Inv() && !comingFromFor && !comingFromFuncall && Adds() && Explained(o)
      ensures (Fatal(o) && left ==> misplaced) && (current in Own(f.body) ==> selfCalled)
      ensures Loose(o, entry, V(), if o.Normal? then old(blocks) else old(blocks) + [f.body.id])
      ensures !misplaced ==> BlockPost(o, entry, V(), f.body, old(blocks), false)
      ensures Fatal(o) || (BlockCan(f.body, 0, o) && Visited(f.body, t, o, started, call, S(), false))
      ensures |entry.frames| == |old(frames)| + 1 && Pop(entry.frames) == old(frames)
      ensures entry.functions == old(functions) + [f] && entry.bases == old(bases) + [|old(blocks)|]
      ensures started.created == old(created) && started.globals == old(globals)
      ensures SameStores(map[], started.frame, {f.body.id})
      ensures (StoreAt(started.frame, f.body.id), started.next) == Declaration(map[], f.params, 0, old(nextCell))
      decreases depth
    {
      hide CellsBelow, BlockRan, StatRan, PathFates, Good, Sized, BlockCan, At, StaticOk, Ready, BlockPost, FunctionAt,
        RaisedOk, Own, Known, SameOuter, StartsAt, GoodFunction, Visited, InUse, Declaration;
      selfCalled := selfCalled || current in Own(f.body);
      EnterCall(f, cf);
      entry, started := V(), S();
      o, call := VisitBlock(f.body, cf, old(blocks), depth);
      if Fatal(o) { misplaced := misplaced || left; }
    }

    /** The end of a call, normal or by a return. */
    method EndCall(f: Closure, o: Outcome, current: BlockId, ghost cf: Ctx, ghost pre: View, ghost entry: View,
        ghost memory: Memory, ghost started: Memory, ghost call: Visit, ghost left: bool)
      requires Inv() && FunctionAt(f, cf, t) && BlockCan(f.body, 0, o) && !Fatal(o)
      requires Sized(pre) && pre.blocks != [] && Top(pre.blocks) == current
      requires |entry.frames| == |pre.frames| + 1 && Pop(entry.frames) == pre.frames
      requires entry.functions == pre.functions + [f] && entry.bases == pre.bases + [|pre.blocks|]
      requires Loose(o, entry, V(), if o.Normal? then pre.blocks else pre.blocks + [f.body.id])
      requires !misplaced ==> BlockPost(o, entry, V(), f.body, pre.blocks, false)
      requires pre.frames != [] && memory.frame == Top(pre.frames) && started.created == memory.created
      requires started.globals == memory.globals && SameStores(map[], started.frame, {f.body.id})
      requires (StoreAt(started.frame, f.body.id), started.next) == Declaration(map[], f.params, 0, memory.next)
      requires Visited(f.body, t, o, started, call, S(), false)
      requires (left || current in Own(f.body)) ==> selfCalled
      modifies this`blocks, this`frames, this`functions, this`bases, this`misplaced
      ensures Inv() && (misplaced <==> left || |blocks| != |pre.blocks|)
      ensures V() == pre.(blocks := blocks) && pre.blocks <= blocks && (|blocks| == |pre.blocks| ==> V() == pre)
      ensures Called(f, t, memory, call, S()) && Loose(Normal, pre, V(), pre.blocks)
      ensures !old(misplaced) && V() != pre ==> current in Own(f.body)
    {
      hide CellsBelow, BlockRan, StatRan, PathFates, Good, Sized, BlockCan, BlockPost, Ended, FunctionAt, Own, Known,
        Declaration, Visited, Called, SameStores, StoreAt;
      FunctionEnds(f, cf, t, o);
      ghost var v, done := V(), S();
      CallLoose(pre, entry, v, o);
      if !misplaced {
        CallReturns(pre, entry, v, f, o, cf, t);
      }
      LeaveCall(o, current);
      GoodResized(v, V(), created, jumps, t);
      KnownLess(v, V(), t);
      CallRan(f, t, o, memory, started, call, done, S());
      LooseCall(pre, V());
      misplaced := left || |blocks| != |pre.blocks|;
    }

    /** Cuts the stack at the calling block after a return, and removes the activation. */
    method LeaveCall(o: Outcome, caller: BlockId)
      requires frames != [] && functions != [] && bases != [] && caller in blocks
      modifies this`blocks, this`frames, this`functions, this`bases
      ensures V() == Ended(old(V()), o, caller) && (old(Below()) ==> Below())
    {
      hide CellsBelow, BlockRan, StatRan, PathFates, Stabilized, CellsBelow;
      if o.Return? {
        StabilizeBlocks(caller);
        StabilizedSize(old(V()), caller);
      }
      if Below() { CellsPopped(frames, functions, globals, created, nextCell); }
      functions := functions[..|functions| - 1];
      frames := frames[..|frames| - 1];
      bases := bases[..|bases| - 1];
    }

    /** Pushes the activation of a call and binds the parameters. */
    method EnterCall(f: Closure, ghost cf: Ctx)
      requires Inv() && FunctionAt(f, cf, t) && f in created && !comingFromFor
      modifies this`blocks, this`frames, this`functions, this`bases, this`nextCell, this`comingFromFuncall,
          this`misplaced
      ensures Starts(f.body, cf, old(blocks)) && comingFromFuncall && !misplaced
      ensures V() == View(old(blocks) + [f.body.id], frames, old(functions) + [f], old(bases) + [|old(blocks)|])
      ensures |frames| == |old(frames)| + 1 && Pop(frames) == old(frames)
      ensures SameStores(map[], Top(frames), {f.body.id}) && old(nextCell) <= nextCell
      ensures (StoreAt(Top(frames), f.body.id), nextCell) == Declaration(map[], f.params, 0, old(nextCell))
      ensures StoreAt(Top(frames), f.body.id).Keys == set p | p in f.params
      ensures forall p, q | p in f.params && q in f.params && p != q ::
                StoreAt(Top(frames), f.body.id)[p] != StoreAt(Top(frames), f.body.id)[q]
      ensures forall p | p in f.params ::
                !InUse(old(frames), old(functions), old(globals), created, StoreAt(Top(frames), f.body.id)[p])
    {
      hide CellsBelow, BlockRan, StatRan, PathFates, StaticOk, Ready, FunctionAt, Good, Sized, StartsAt, Known;
      ghost var pre := V();
      GoodSized(pre, created, jumps, t);
      FunctionKnown(f, cf, t);
      CellsEntered(frames, functions, globals, created, nextCell, f);
      blocks := blocks + [f.body.id];
      frames := frames + [map[]];
      functions := functions + [f];
      bases := bases + [|blocks| - 1];
      BindNames(f.body.id, f.params);
      comingFromFuncall, misplaced := true, false;
      CallSized(pre, V(), f);
      GoodResized(pre, V(), created, jumps, t);
      KnownMore(pre, V(), f.body.id, t);
      CallStarts(pre, V(), f, cf, t);
      forall p | p in f.params
        ensures !InUse(old(frames), old(functions), old(globals), created, StoreAt(Top(frames), f.body.id)[p])
      {
        NewCellsAreUnused(old(frames), old(functions), old(globals), created, old(nextCell),
                          StoreAt(Top(frames), f.body.id)[p]);
      }
    }

    /** Runs the statements of a block.  A goto is caught here exactly when the block holds its label. */
    method VisitBlock(b: Block, ghost c: Ctx, ghost base: seq<BlockId>, depth: nat)
        returns (o: Outcome, ghost v: Visit)
      requires Starts(b, c, base)
      modifies this
      ensures Inv() && !comingFromFor && !comingFromFuncall
      ensures Loose(o, old(V()), V(), if o.Normal? && !old(comingFromFor) then base else base + [b.id])
      ensures !misplaced ==> BlockPost(o, old(V()), V(), b, base, old(comingFromFor)) && RaisedOk(o, raised, base, t)
      ensures Grows() && Explained(o)
      ensures Fatal(o) || (BlockCan(b, 0, o) && Visited(b, t, o, old(S()), v, S(), old(comingFromFor)))
      ensures !misplaced && !Fatal(o) ==> PathFates(b, v.path, v.end)
      decreases depth, b, 5
    {
      hide Visited, Emptied, Declaration, CellsBelow, BlockRan, StatRan, PathFates, At, StaticOk, Ready, StartsAt,
        GoodFunction, JumpOk, BlockCan, BlockPost, RaisedOk, Good, Known, AtStat, SameOuter, Sized;
      ghost var pre, start := V(), S();
      GoodSized(pre, created, jumps, t);
      var fromFor, fromCall := comingFromFor, comingFromFuncall;
      comingFromFor, comingFromFuncall := false, false;
      PushBlock(b, fromFor || fromCall, c, base);
      ghost var at := V();
      o, v := RunStats(b, c, pre, base, depth);
      LooseChain(pre, at, V(), o, base + [b.id], base + [b.id]);
      o := LeaveBlock(b, o, fromFor, c, pre, base, start, v);
    }

    /** The end of a block, whatever its statements ended with. */
    method LeaveBlock(b: Block, ended: Outcome, fromFor: bool, ghost c: Ctx, ghost pre: View, ghost base: seq<BlockId>,
        ghost start: Memory, ghost v: Visit)
        returns (o: Outcome)
      requires Inv() && Loose(ended, pre, V(), base + [b.id]) && pre.bases != [] && Top(pre.bases) <= |base|
      requires !misplaced && ended.Normal? ==> AtStat(pre, V(), base, b, c, StatCount(b), t)
      requires !misplaced && !ended.Normal? ==> BlockPost(ended, pre, V(), b, base, false)
      requires !misplaced ==> RaisedOk(ended, raised, base, t)
      requires Fatal(ended) || Visited(b, t, ended, start, v, S(), true)
      requires Explained(ended)
      modifies this`blocks, this`frames
      ensures Inv() && Loose(o, pre, V(), if o.Normal? && !fromFor then base else base + [b.id])
      ensures o == ended || (ended.Normal? && o.Unbalanced?)
      ensures !misplaced ==> BlockPost(o, pre, V(), b, base, fromFor) && RaisedOk(o, raised, base, t)
      ensures Explained(o)
      ensures Fatal(o) || (BlockCan(b, 0, o) && Visited(b, t, o, start, v, S(), fromFor))
    {
      hide Visited, Emptied, Declaration, CellsBelow, BlockRan, StatRan, PathFates, At, StaticOk, Ready, StartsAt,
        GoodFunction, JumpOk, BlockCan, BlockPost, RaisedOk, Good, Known, AtStat, SameOuter, Sized;
      o := ended;
      ghost var last, done := V(), S();
      if !Fatal(o) {
        VisitCan(b, t, o, start, v, done, true);
        if !o.Normal? { VisitEnds(b, t, o, start, v, done, done, fromFor); }
      }
      if !o.Normal? {
        if !misplaced {
          LeftAnyway(o, pre, V(), b, base, fromFor);
        }
        return;
      }
      LooseSame(o, pre, last, base + [b.id]);
      var balanced := PopBlock(b, fromFor, c, pre, base);
      if !balanced {
        return Unbalanced;
      }
      LooseChain(pre, last, V(), Normal, if fromFor then base + [b.id] else base, if fromFor then base + [b.id]
          else base);
      VisitEnds(b, t, o, start, v, done, S(), fromFor);
      NotRaised(o, raised, base, t);
    }

    /** Pushes a block that is visited, unless a call or a `for` has done so. */
    method PushBlock(b: Block, pushed: bool, ghost c: Ctx, ghost base: seq<BlockId>)
      requires Inv() && StaticOk(c, t) && Ready(b, c.env, c.chain, c.own, t) && Top(bases) <= |base|
      requires if pushed then base + [b.id] <= blocks else blocks == base
      requires !misplaced ==> StartsAt(V(), base, b, c, t) && (pushed ==> blocks == base + [b.id])
      modifies this`blocks
      ensures Inv() && base + [b.id] <= blocks && Loose(Normal, old(V()), V(), base + [b.id])
      ensures !misplaced ==>
                && AtStat(old(V()), V(), base, b, c, 0, t) && old(V()).bases != []
                && Top(old(V()).bases) <= |base|
      ensures c.own != [] && Top(c.own) == b.id
    {
      hide CellsBelow, BlockRan, StatRan, PathFates, At, StaticOk, Ready, Span, Covered, GoodFunction, JumpOk, Good,
        Known, StartsAt, Own;
      ghost var pre := V();
      GoodSized(pre, created, jumps, t);
      ReadyBlock(b, c, t);
      if !pushed {
        blocks := blocks + [b.id];
      }
      BlockPushed(pre, V(), base, b.id, t);
      GoodResized(pre, V(), created, jumps, t);
      if !misplaced {
        assert blocks == base + [b.id];
        StartsFacts(pre, base, b, c, t);
        BlockEntered(pre, V(), base, b, c, t);
      }
    }

    /** The normal end of a block: unless it is the body of a `for`, it is erased and popped.  That fails if
        another block is on top of the stack. */
    method PopBlock(b: Block, fromFor: bool, ghost c: Ctx, ghost pre: View, ghost base: seq<BlockId>)
        returns (balanced: bool)
      requires Inv() && base + [b.id] <= blocks && Top(bases) <= |base|
      requires !misplaced ==> AtStat(pre, V(), base, b, c, StatCount(b), t)
      modifies this`blocks, this`frames
      ensures Inv() && Loose(Normal, old(V()), V(), if balanced && !fromFor then base else base + [b.id])
      ensures balanced <==> Top(old(blocks)) == b.id
      ensures S() == if fromFor then old(S()) else Emptied(old(S()), b.id)
      ensures !misplaced ==> balanced && BlockPost(Normal, pre, V(), b, base, fromFor)
    {
      hide CellsBelow, BlockRan, StatRan, PathFates, At, StaticOk, Ready, Span, Covered, GoodFunction, JumpOk, Good,
        Known, Own, Erase, AtStat, BlockPost, Sized;
      ghost var last := V();
      GoodSized(last, created, jumps, t);
      SizedTop(last);
      if !misplaced {
        AtStatFacts(pre, last, base, b, c, StatCount(b), t);
      }
      if !fromFor {
        EraseBlock(b.id);
      }
      BlockErased(last, V(), base + [b.id]);
      GoodResized(last, V(), created, jumps, t);
      KnownLess(last, V(), t);
      balanced := blocks[|blocks| - 1] == b.id;
      if balanced {
        if !fromFor {
          blocks := blocks[..|blocks| - 1];
          BlockPopped(last, V(), base, b.id);
          GoodResized(last, V(), created, jumps, t);
          KnownLess(last, V(), t);
        }
        if !misplaced {
          BlockDone(pre, last, V(), base, b, c, StatCount(b), t, fromFor);
        }
      }
    }

    /** The loop over the statements of a block that is on the stack, and its return statement. */
    method RunStats(b: Block, ghost c: Ctx, ghost pre: View, ghost base: seq<BlockId>, depth: nat)
        returns (o: Outcome, ghost v: Visit)
      requires Inv() && !comingFromFor && !comingFromFuncall
      requires StaticOk(c, t) && Ready(b, c.env, c.chain, c.own, t) && c.own != [] && Top(c.own) == b.id
      requires base + [b.id] <= blocks && Top(bases) <= |base|
      requires !misplaced ==> AtStat(pre, V(), base, b, c, 0, t) && pre.bases != [] && Top(pre.bases) <= |base|
      modifies this
      ensures Inv() && !comingFromFor && !comingFromFuncall
      ensures Loose(o, old(V()), V(), base + [b.id])
      ensures !misplaced && o.Normal? ==> AtStat(pre, V(), base, b, c, StatCount(b), t)
      ensures !misplaced && !o.Normal? ==> BlockPost(o, pre, V(), b, base, false)
      ensures !misplaced ==> RaisedOk(o, raised, base, t)
      ensures Grows() && Explained(o)
      ensures Fatal(o) || Visited(b, t, o, old(S()), v, S(), true)
      ensures !misplaced && !Fatal(o) ==> PathFates(b, v.path, v.end)
      decreases depth, b, 4
    {
      hide CellsBelow, BlockRan, StatRan, PathFates, At, StaticOk, Ready, ReadyStat, Span, Covered, GoodFunction,
        JumpOk, BlockCan, StatCan, PathTo, Target,
        Fate, Own, StatOwn, EnvAt, Escaping, StatGotos, FreeBreak, FreeBreakStat, LabelNames, Good, BlockPost,
        StatPost, AtStat, RaisedOk, HoldsLabel, Known, SameOuter;
      ReadyBlock(b, c, t);
      GoodSized(V(), created, jumps, t);
      LooseStart(V(), Normal);
      var i, count := 0, StatCount(b);
      ghost var start, path: seq<Step> := S(), [];
      NoFates(b, start);
      NoPath(b, t, start);
      while i < count
        invariant 0 <= i && Loose(Normal, old(V()), V(), base + [b.id])
        invariant !misplaced ==> AtStat(pre, V(), base, b, c, if i < count then i else count, t)
        invariant Inv() && !comingFromFor && !comingFromFuncall
        invariant Grows() && PathTo(b, t, start, path, S(), if i < count then i else count)
        invariant !misplaced ==> PathFates(b, path, S())
      {
        ghost var at := V();
        LooseSame(Normal, old(V()), at, base + [b.id]);
        var next;
        o, next, path := RunNext(b, i, c, pre, base, start, path, depth);
        LooseChain(old(V()), at, V(), o, base + [b.id], base + [b.id]);
        if !o.Normal? {
          v := Visit(o, start, S(), path);
          return;
        }
        i := next;
      }
      o := Normal;
      if count < |b.stats| {
        ghost var mid := V();
        ghost var r;
        o, r := RunStat(b, count, c, pre, base, depth);
        LooseChain(old(V()), mid, V(), o, base + [b.id], base + [b.id]);
        if !Fatal(o) {
          if !misplaced { StepIs(b, r, S()); }
          PathAdds(b, t, start, path, r, S(), !misplaced);
        }
        path := path + [r];
      } else {
        NotRaised(o, raised, base, t);
        PathEnds(b, t, start, path, S());
      }
      v := Visit(o, start, S(), path);
    }

    /** Runs statement number `i` of a block, and says where the block goes on: behind it, or behind the target of
        a goto that the block keeps. */
    method RunNext(b: Block, i: nat, ghost c: Ctx, ghost pre: View, ghost base: seq<BlockId>, ghost start: Memory,
        ghost path: seq<Step>, depth: nat) returns (o: Outcome, next: nat, ghost path': seq<Step>)
      requires Inv() && !comingFromFor && !comingFromFuncall && i < StatCount(b)
      requires StaticOk(c, t) && Ready(b, c.env, c.chain, c.own, t) && c.own != [] && Top(c.own) == b.id
      requires base + [b.id] <= blocks && Top(bases) <= |base|
      requires !misplaced ==> AtStat(pre, V(), base, b, c, i, t) && pre.bases != [] && Top(pre.bases) <= |base|
      requires PathTo(b, t, start, path, S(), i) && (!misplaced ==> PathFates(b, path, S()))
      modifies this
      ensures Inv() && !comingFromFor && !comingFromFuncall && Loose(o, old(V()), V(), base + [b.id])
      ensures o.Normal? ==>
                && i < next
                && PathTo(b, t, start, path', S(), if next < StatCount(b) then next else StatCount(b))
      ensures !Fatal(o) && !o.Normal? ==> BlockRan(b, t, Visit(o, start, S(), path'))
      ensures !misplaced && !Fatal(o) ==> PathFates(b, path', S())
      ensures !misplaced && o.Normal? ==>
                AtStat(pre, V(), base, b, c, if next < StatCount(b) then next else StatCount(b), t)
      ensures !misplaced && !o.Normal? ==> BlockPost(o, pre, V(), b, base, false) && RaisedOk(o, raised, base, t)
      ensures Grows() && Explained(o)
      decreases depth, b, 3
    {
      hide CellsBelow, BlockRan, StatRan, PathFates, At, StaticOk, Ready, ReadyStat, Span, Covered, GoodFunction,
        JumpOk, BlockCan, StatCan, Leaves, StatFate, StepFate, PathTo, Target,
        Fate, Own, StatOwn, EnvAt, Escaping, StatGotos, FreeBreak, FreeBreakStat, LabelNames, Good, BlockPost,
        StatPost, AtStat, RaisedOk, HoldsLabel, Known, SameOuter;
      ReadyBlock(b, c, t);
      ghost var r;
      o, r := RunStat(b, i, c, pre, base, depth);
      next, path' := i + 1, path + [r];
      if o.Goto? {
        ghost var mid, left := V(), o;
        LooseSame(o, old(V()), mid, base + [b.id]);
        GoodSized(mid, created, jumps, t);
        SizedTop(mid);
        var caught := CatchGoto(b, i, o, c, pre, base, old(V()));
        LooseChain(old(V()), mid, V(), Normal, base + [b.id], base + [b.id]);
        GotoLeaves(b, r, S());
        GoodSized(V(), created, jumps, t);
        SizedTop(V());
        if !misplaced { StepIs(b, r, S()); }
        PathAdds(b, t, start, path, r, S(), !misplaced);
        var target := FindLabel(b, i + 1, o.target);
        if caught {
          if !misplaced {
            AtStatLater(pre, V(), base, b, c, i + 1, if target + 1 < StatCount(b) then target + 1 else StatCount(b), t);
          }
          AfterGoto(b, r, target);
          o, next := Normal, target + 1;
          NotRaised(o, raised, base, t);
        } else if !misplaced {
          GotoLeft(o, pre, V(), base, b, c, i + 1, t);
        }
      } else if !Fatal(o) {
        OthersLeave(b, r);
        if !misplaced { StepIs(b, r, S()); }
        PathAdds(b, t, start, path, r, S(), !misplaced);
      }
    }

    /** Runs statement number `i` of a block. */
    method RunStat(b: Block, i: nat, ghost c: Ctx, ghost pre: View, ghost base: seq<BlockId>, depth: nat)
        returns (o: Outcome, ghost r: Step)
      requires Inv() && !comingFromFor && !comingFromFuncall && i < |b.stats|
      requires StaticOk(c, t) && Ready(b, c.env, c.chain, c.own, t) && c.own != [] && Top(c.own) == b.id
      requires base + [b.id] <= blocks
      requires !misplaced ==> AtStat(pre, V(), base, b, c, i, t)
      modifies this
      ensures Inv() && !comingFromFor && !comingFromFuncall
      ensures Loose(o, old(V()), V(), base + [b.id])
      ensures !misplaced && o.Normal? ==> AtStat(pre, V(), base, b, c, i + 1, t)
      ensures !misplaced && !o.Normal? && !o.Goto? ==>
                && BlockPost(o, pre, V(), b, base, false)
                && RaisedOk(o, raised, base, t)
      ensures !misplaced && o.Goto? ==>
                && StatPost(o, old(V()), V(), b.stats[i], b.id) && Fate(o, old(V()), V(), b.stats[i], b.id, false)
                && RaisedOk(o, raised, base + [b.id], t) && AtStat(pre, old(V()), base, b, c, i, t)
      ensures Grows() && Explained(o)
      ensures Fatal(o) || (StatCan(b.stats[i], o) && StatRan(b.stats[i], t, r))
      ensures r.index == i && r.outcome == o && r.before == old(S()) && r.after == S()
      ensures !misplaced && !Fatal(o) ==> StatFate(b.stats[i], b.id, r)
      ensures b.stats[i].kind.Return? ==> o.Return? || Fatal(o)
      decreases depth, b, 2
    {
      hide CellsBelow, BlockRan, StatRan, PathFates, At, StaticOk, Ready, ReadyStat, Span, Covered, GoodFunction,
        JumpOk, StatCan, Fate, Own, StatOwn, EnvAt,
        Escaping, StatGotos, FreeBreak, FreeBreakStat, Good, BlockPost, StatPost, AtStat, RaisedOk, Known, SameOuter;
      ghost var mid := V();
      GoodSized(mid, created, jumps, t);
      ReadyAt(b, c, t, i);
      StaticAt(b, c, t, i);
      if !misplaced {
        AtStatFacts(pre, mid, base, b, c, i, t);
      }
      ghost var visits;
      o, visits := VisitStat(b.stats[i], CtxAt(b, c, i), depth);
      r := Did(o, old(S()), visits).(index := i);
      if !Fatal(o) { AtIndex(b.stats[i], t, Did(o, old(S()), visits), i); }
      if !misplaced {
        GoodSized(V(), created, jumps, t);
        SizedTop(mid);
        SizedTop(V());
        StepsFate(o, mid, V(), b.stats[i], b.id, r);
        if o.Normal? {
          StatFinished(pre, mid, V(), base, b, c, i, t);
        } else if o.Goto? {
          NotBroke(o, mid, V(), b.stats[i], b.id, Broke(b.stats[i], visits));
        } else {
          NotRaised(o, raised, base, t);
          StatLeft(o, pre, mid, V(), base, b, c, i, t);
        }
      }
    }

    /** A goto reaches block `b`: the stack is cut at the block, which keeps the goto when it holds the label. */
    method CatchGoto(b: Block, i: nat, o: Outcome, ghost c: Ctx, ghost pre: View, ghost base: seq<BlockId>,
        ghost mid: View)
        returns (caught: bool)
      requires Inv() && o.Goto? && i < |b.stats|
      requires StaticOk(c, t) && Ready(b, c.env, c.chain, c.own, t) && c.own != [] && Top(c.own) == b.id
      requires base + [b.id] <= blocks && Top(bases) <= |base|
      requires !misplaced ==>
                 && AtStat(pre, mid, base, b, c, i, t) && pre.bases != [] && Top(pre.bases) <= |base|
                 && StatPost(o, mid, V(), b.stats[i], b.id) && RaisedOk(o, raised, base + [b.id], t)
                 && Fate(o, mid, V(), b.stats[i], b.id, false)
      modifies this`blocks, this`frames, this`jumps
      ensures Inv() && Loose(Normal, old(V()), V(), base + [b.id]) && old(jumps) <= jumps
      ensures caught <==> HoldsLabel(t, o.target, b.id)
      ensures !misplaced ==> AtStat(pre, V(), base, b, c, i + 1, t)
      ensures !misplaced ==>
                (StoreAt(Top(frames), b.id) == if b.stats[i].kind.Goto? then StoreAt(Top(old(frames)), b.id) else map[])
      ensures !misplaced && caught ==>
                bases != [] && jumps == old(jumps) + [Jump(o.target, raised, Top(bases), |base|)]
      ensures !misplaced && !caught ==> o.target in Escaping(b) && RaisedOk(o, raised, base, t)
      ensures misplaced || !caught ==> jumps == old(jumps)
      ensures Cleared(old(S()), S())
    {
      hide CellsBelow, BlockRan, StatRan, PathFates, At, StaticOk, Ready, ReadyStat, Span, Covered, Stabilized,
        GoodFunction, JumpOk, Fate, Own, StatOwn, EnvAt,
        Escaping, StatGotos, LabelNames, RaisedOk, Known;
      ghost var v := V();
      ReadyBlock(b, c, t);
      ReadyAt(b, c, t, i);
      if !misplaced {
        GotoFate(o, mid, V(), b.stats[i], b.id);
        GotoCaught(pre, mid, V(), base, b, c, i, t, NextEnv(b.stats[i], CtxAt(b, c, i)));
        RaisedThrough(o, raised, base, b.id, t);
        AtStatBases(pre, mid, base, b, c, i, t);
        StabilizedKeeps(mid, V(), b.id, StatOwn(b.stats[i]));
      }
      StabilizedLoose(V(), base + [b.id], b.id);
      StabilizeBlocks(b.id);
      KnownLess(v, V(), t);
      caught := o.target in t.labels && b.id in t.labels[o.target];
      if !misplaced {
        if caught {
          jumps := jumps + [Jump(o.target, raised, Top(bases), |base|)];
        } else {
          EscapesBlock(b, i, o.target);
        }
      }
    }

    /** The search for the target of a goto, from a statement to the end of the block. */
    method FindLabel(b: Block, from: nat, l: Name) returns (i: nat)
      requires from <= StatCount(b)
      ensures i == Target(b, from, l)
    {
      i := from;
      while i < StatCount(b)
        invariant from <= i <= StatCount(b) && Target(b, from, l) == Target(b, i, l)
      {
        if IsTarget(b.stats[i], l) {
          return;
        }
        i := i + 1;
      }
    }

    ghost predicate StatReady(s: Stat, c: Ctx)
      reads this
    {
      Here(c, {}) && c.own != [] && ReadyStat(s, NextEnv(s, c), c.chain, c.own, t)
    }

    method VisitStat(s: Stat, ghost c: Ctx, depth: nat) returns (o: Outcome, ghost visits: seq<Visit>)
      requires StatReady(s, c)
      modifies this
      ensures Inv() && !comingFromFor && !comingFromFuncall
      ensures Loose(o, old(V()), V(), old(blocks))
      ensures !misplaced ==> StatPost(o, old(V()), V(), s, Top(c.own)) && RaisedOk(o, raised, old(blocks), t)
      ensures !misplaced ==> Fate(o, old(V()), V(), s, Top(c.own), Broke(s, visits))
      ensures Grows() && Explained(o)
      ensures Fatal(o) || (StatCan(s, o) && StatRan(s, t, Did(o, old(S()), visits)))
      ensures s.kind.Return? ==> o.Return? || Fatal(o)
      ensures (s.kind.Break? ==> o.Break?)
          && (s.kind.Goto? ==> o == Outcome.Goto(s.kind.target) && raised == old(blocks))
      decreases depth, s, 6
    {
      hide CellsBelow, BlockRan, StatRan, PathFates, At, StaticOk, Ready, ReadyStat, Span, Covered, StartsAt,
        Stabilized, GoodFunction, JumpOk, Own, StatOwn,
        Around, BlockCan, StatCan, Visited;
      ghost var pre, id, before := V(), Top(c.own), S();
      visits := [];
      ShapeFacts(s, NextEnv(s, c), c, t);
      GoodSized(pre, created, jumps, t);
      LooseStart(pre, Normal);
      match s.kind {
        case Break =>
          o := Outcome.Break;
          if !misplaced { RaisedHere(o, pre, s, c, t); }
          SimpleRan(s, t, Did(o, before, []));
        case Goto(l) =>
          raised := blocks;
          o := Outcome.Goto(l);
          if !misplaced { RaisedHere(o, pre, s, c, t); }
          SimpleRan(s, t, Did(o, before, []));
        case Do =>
          ghost var v;
          o, v := RunSub(s, 0, c, pre, depth);
          visits := [v];
          if !Fatal(o) { DoRan(s, t, Did(o, before, visits), v); }
        case While =>
          o, visits := ProcessWhile(s, c, depth);
        case Repeat =>
          o, visits := ProcessRepeat(s, c, depth);
        case If(_) =>
          o, visits := ProcessIf(s, c, depth);
        case NumFor(_) =>
          o, visits := ProcessForLoop(s, c, depth);
        case ForIn(_) =>
          o, visits := ProcessForIn(s, c, depth);
        case Function(n) =>
          o := ProcessFunction(s, n, c);
        case Label(_) =>
          o := Normal;
          SimpleRan(s, t, Did(o, before, []));
          if !misplaced {
            QuietHere(pre, s, c, t);
          }
        case LocalFunction(_) =>
          o := ProcessLocalFunction(s, c);
        case Local(_) =>
          o := ProcessLocalVariables(s, c, depth);
        case Return =>
          o := VisitRetstat(s, c, depth);
        case Plain =>
          o := VisitExpression(s, c, depth);
      }
      if !Fatal(o) { StatRanCan(s, t, Did(o, before, visits)); }
    }

    /** The return statement of a block. */
    method VisitRetstat(s: Stat, ghost c: Ctx, depth: nat) returns (o: Outcome)
      requires StatReady(s, c) && s.kind.Return?
      modifies this
      ensures Inv() && !comingFromFor && !comingFromFuncall
      ensures Loose(o, old(V()), V(), old(blocks))
      ensures !misplaced ==> StatPost(o, old(V()), V(), s, Top(c.own)) && RaisedOk(o, raised, old(blocks), t)
      ensures !misplaced ==> Fate(o, old(V()), V(), s, Top(c.own), false)
      ensures Grows() && Explained(o)
      ensures Fatal(o) || StatRan(s, t, Did(o, old(S()), []))
      ensures o.Return? || Fatal(o)
      decreases depth, s, 4
    {
      hide CellsBelow, BlockRan, StatRan, PathFates, At, StaticOk, Ready, ReadyStat, Span, Covered, StartsAt,
        Stabilized,
        GoodFunction, JumpOk, Own, StatOwn, Around, Known, SameOuter, Good, Sized, Fate, StatPost;
      ghost var pre, before := V(), S();
      o := Evaluate(s, c, {}, depth);
      if o.Normal? {
        o := Outcome.Return;
        if !misplaced { RaisedHere(o, pre, s, c, t); }
        SimpleRan(s, t, Did(o, before, []));
      } else if !misplaced {
        StatFatal(o, pre, V(), s, Top(c.own));
      }
    }

    /** A statement that only evaluates expressions: an assignment or a call. */
    method VisitExpression(s: Stat, ghost c: Ctx, depth: nat) returns (o: Outcome)
      requires StatReady(s, c) && s.kind.Plain?
      modifies this
      ensures Inv() && !comingFromFor && !comingFromFuncall
      ensures Loose(o, old(V()), V(), old(blocks))
      ensures !misplaced ==> StatPost(o, old(V()), V(), s, Top(c.own)) && RaisedOk(o, raised, old(blocks), t)
      ensures !misplaced ==> Fate(o, old(V()), V(), s, Top(c.own), false)
      ensures Grows() && Explained(o)
      ensures Fatal(o) || StatRan(s, t, Did(o, old(S()), []))
      decreases depth, s, 4
    {
      hide CellsBelow, BlockRan, StatRan, PathFates, At, StaticOk, Ready, ReadyStat, Span, Covered, StartsAt,
        Stabilized,
        GoodFunction, JumpOk, Own, StatOwn, Around, Known, SameOuter, Good, Sized, Fate, StatPost;
      ghost var pre, before := V(), S();
      o := Evaluate(s, c, {}, depth);
      if o.Normal? {
        SimpleRan(s, t, Did(o, before, []));
        if !misplaced {
          QuietHere(pre, s, c, t);
        }
      } else if !misplaced {
        StatFatal(o, pre, V(), s, Top(c.own));
      }
    }

    /** Evaluates the expressions of a statement in the block it stands in. */
    method Evaluate(s: Stat, ghost c: Ctx, ghost extra: set<BlockId>, depth: nat) returns (o: Outcome)
      requires Here(c, extra) && c.own != [] && ReadyStat(s, NextEnv(s, c), c.chain, c.own, t)
      modifies this
      ensures Inv() && !comingFromFor && !comingFromFuncall
      ensures (o.Normal? || Fatal(o)) && Loose(o, old(V()), V(), old(blocks))
      ensures !misplaced && o.Normal? ==> V() == old(V())
      ensures o.Normal? ==> V() == old(V()).(blocks := blocks) && Evaluated(old(S()), S())
      ensures Grows() && Explained(o)
      decreases depth, s, 2
    {
      hide CellsBelow, BlockRan, StatRan, PathFates, StaticOk, ReadyStat, Covered, GoodFunction, JumpOk;
      NextWithin(s, c, t);
      o := EvalExp(s, c, extra, NextEnv(s, c), depth);
    }

    /** Visits a nested block that is not the body of a loop. */
    method RunSub(s: Stat, j: nat, ghost c: Ctx, ghost pre: View, depth: nat) returns (o: Outcome, ghost v: Visit)
      requires StatReady(s, c) && pre == V() && j < |s.nodes| && s.nodes[j].Sub?
          && ((s.kind.Do? && j == 0) || s.kind.If?)
      modifies this
      ensures Inv() && !comingFromFor && !comingFromFuncall
      ensures Loose(o, old(V()), V(), old(blocks))
      ensures !misplaced ==> StatPost(o, old(V()), V(), s, Top(c.own)) && RaisedOk(o, raised, old(blocks), t)
      ensures !misplaced ==> Fate(o, old(V()), V(), s, Top(c.own), false)
      ensures Grows() && Explained(o)
      ensures Fatal(o) || Visited(s.nodes[j].block, t, o, old(S()), v, S(), false)
      decreases depth, s, 0
    {
      hide CellsBelow, BlockRan, StatRan, PathFates, SameOuter, At, StaticOk, Ready, ReadyStat, Span, Covered,
        StartsAt, Stabilized, GoodFunction, JumpOk, Own,
        StatOwn,
        Around, BlockCan, StatCan, Fate;
      SubStatic(s, j, c, t);
      GoodSized(V(), created, jumps, t);
      if !misplaced {
        SubStarts(pre, s, j, c, t);
        AroundStart(pre, s, c, t, s.nodes[j].block);
      }
      o, v := VisitBlock(s.nodes[j].block, SubCtx(c, s.kind, s.nodes[j]), blocks, depth);
      if !misplaced {
        SubLeft(o, pre, pre, V(), s, j, Top(c.own), false);
      }
    }

    method ProcessIf(s: Stat, ghost c: Ctx, depth: nat) returns (o: Outcome, ghost visits: seq<Visit>)
      requires StatReady(s, c) && s.kind.If?
      modifies this
      ensures Inv() && !comingFromFor && !comingFromFuncall
      ensures Loose(o, old(V()), V(), old(blocks))
      ensures !misplaced ==> StatPost(o, old(V()), V(), s, Top(c.own)) && RaisedOk(o, raised, old(blocks), t)
      ensures !misplaced ==> Fate(o, old(V()), V(), s, Top(c.own), false)
      ensures Grows() && Explained(o)
      ensures Fatal(o) || StatRan(s, t, Did(o, old(S()), visits))
      decreases depth, s, 3
    {
      hide CellsBelow, BlockRan, StatRan, PathFates, At, StaticOk, Ready, ReadyStat, Span, Covered, StartsAt,
        Stabilized, GoodFunction, JumpOk, Own, StatOwn,
        Around, BlockCan, StatCan;
      ghost var pre, before := V(), S();
      visits := [];
      o := Evaluate(s, c, {}, depth);
      if !o.Normal? {
        return;
      }
      ghost var mid, memory, v := V(), S(), Visit(o, before, before, []);
      ShapeFacts(s, NextEnv(s, c), c, t);
      var j: nat := *;
      if 0 <= j < |s.nodes| && s.nodes[j].Sub? {
        o, v := RunSub(s, j, c, mid, depth);
        LooseChain(pre, mid, V(), o, pre.blocks, mid.blocks);
        visits := [v];
        if !Fatal(o) { IfRan(s, j, t, Did(o, before, visits), v, memory); }
      } else if s.kind.otherwise {
        o, v := RunSub(s, |s.nodes| - 1, c, mid, depth);
        LooseChain(pre, mid, V(), o, pre.blocks, mid.blocks);
        visits := [v];
        if !Fatal(o) { IfRan(s, |s.nodes| - 1, t, Did(o, before, visits), v, memory); }
      } else {
        if !misplaced {
          QuietHere(pre, s, c, t);
        }
        SimpleRan(s, t, Did(o, before, visits));
      }
    }

    /** A break out of the body of a loop: the loop ends, and the stack is that of its block. */
    method CatchBreak(s: Stat, j: nat, current: BlockId, ghost pre: View, ghost mid: View, ghost stays: bool)
      requires Inv() && Sized(pre) && j < |s.nodes| && s.nodes[j].Sub? && IsLoop(s.kind)
      requires pre.blocks != [] && Top(pre.blocks) == current && Loose(Normal, pre, V(), pre.blocks)
      requires !misplaced ==>
                 && Around(pre, mid, s, s.nodes[j].block) && current !in StatOwn(s)
                 && BlockPost(Outcome.Break, mid, V(), s.nodes[j].block, pre.blocks, stays)
      modifies this`blocks, this`frames
      ensures Inv() && Loose(Normal, pre, V(), pre.blocks) && Cleared(old(S()), S())
      ensures !misplaced ==> StatPost(Normal, pre, V(), s, current) && Fate(Normal, pre, V(), s, current, true)
    {
      hide CellsBelow, BlockRan, StatRan, PathFates, Span, GoodFunction, JumpOk, Own, StatOwn, Around, Stabilized,
        Fate, Known, Good;
      ghost var v := V();
      StabilizedLoose(v, pre.blocks, current);
      if !misplaced {
        BreakCaught(pre, mid, V(), s, j, current, stays);
      }
      StabilizeBlocks(current);
      LooseSized(pre, V(), pre.blocks);
      GoodResized(v, V(), created, jumps, t);
      KnownLess(v, V(), t);
    }

    /** One iteration of a `while` or a `repeat`. */
    method RunLoopBody(s: Stat, current: BlockId, ghost c: Ctx, ghost pre: View, depth: nat)
        returns (o: Outcome, stop: bool, ghost v: Visit)
      requires Here(c, {}) && ReadyStat(s, NextEnv(s, c), c.chain, c.own, t) && Shaped(s)
          && (s.kind.While? || s.kind.Repeat?)
      requires Sized(pre) && pre.blocks != [] && Top(pre.blocks) == current && Loose(Normal, pre, V(), pre.blocks)
      requires !misplaced ==>
                 && At(pre, c, {}, t) && Around(pre, V(), s, s.nodes[BodyIndex(s)].block) && blocks == pre.blocks
                 && current == Top(c.own) && current !in StatOwn(s)
      modifies this
      ensures Inv() && !comingFromFor && !comingFromFuncall && Loose(o, pre, V(), pre.blocks)
      ensures !stop ==> o.Normal?
      ensures !misplaced && !stop ==>
                At(V(), c, {}, t) && Around(pre, V(), s, s.nodes[BodyIndex(s)].block) && blocks == pre.blocks
      ensures !misplaced && stop ==>
                && StatPost(o, pre, V(), s, current)
                && Fate(o, pre, V(), s, current, v.outcome.Break?)
      ensures !misplaced && stop ==> RaisedOk(o, raised, pre.blocks, t)
      ensures Fatal(o) || (BlockRan(s.nodes[BodyIndex(s)].block, t, v) && v.start == old(S()))
      ensures !stop ==> v.outcome.Normal? && S() == Emptied(v.end, s.nodes[BodyIndex(s)].block.id)
      ensures stop && !Fatal(o) ==> LoopStops(v, o, S())
      ensures Grows() && Explained(o)
      decreases depth, s, 0
    {
      hide CellsBelow, BlockRan, StatRan, PathFates, At, StaticOk, Ready, ReadyStat, Span, Covered, StartsAt,
        Stabilized, GoodFunction, JumpOk, Own, StatOwn,
        Around, BlockCan, StatCan, Fate, StatPost, BlockPost, Known, SameOuter, Good, Sized;
      var j := BodyIndex(s);
      SubStatic(s, j, c, t);
      ghost var mid := V();
      GoodSized(mid, created, jumps, t);
      SizedTop(mid);
      if !misplaced {
        SubStarts(mid, s, j, c, t);
      }
      o, v := VisitBlock(s.nodes[j].block, SubCtx(c, s.kind, s.nodes[j]), blocks, depth);
      LooseChain(pre, mid, V(), o, pre.blocks, mid.blocks);
      stop := !o.Normal?;
      if o.Break? {
        CatchBreak(s, j, current, pre, mid, false);
        o := Normal;
        NotRaised(o, raised, pre.blocks, t);
      } else if !misplaced {
        if stop {
          SubLeft(o, pre, mid, V(), s, j, current, false);
          FateBroke(o, pre, V(), s, current, v.outcome.Break?);
        } else {
          SubDone(pre, mid, V(), s, j, c, t);
        }
      }
    }

    method ProcessWhile(s: Stat, ghost c: Ctx, depth: nat) returns (o: Outcome, ghost visits: seq<Visit>)
      requires StatReady(s, c) && s.kind.While?
      modifies this
      ensures Inv() && !comingFromFor && !comingFromFuncall
      ensures Loose(o, old(V()), V(), old(blocks))
      ensures !misplaced ==> StatPost(o, old(V()), V(), s, Top(c.own)) && RaisedOk(o, raised, old(blocks), t)
      ensures !misplaced ==> Fate(o, old(V()), V(), s, Top(c.own), Broke(s, visits))
      ensures Grows() && Explained(o)
      ensures Fatal(o) || StatRan(s, t, Did(o, old(S()), visits))
      decreases depth, s, 3
    {
      hide CellsBelow, BlockRan, StatRan, PathFates, At, StaticOk, Ready, ReadyStat, Span, Covered, StartsAt,
        Stabilized, GoodFunction, JumpOk, Own, StatOwn,
        Around, BlockCan, StatCan, Fate, StatPost, BlockPost, Known, SameOuter, Good, Sized;
      visits := [];
      ghost var pre, id, before := V(), Top(c.own), S();
      ShapeFacts(s, NextEnv(s, c), c, t);
      LoopStarts(s, t, before);
      ghost var body := s.nodes[BodyIndex(s)].block.id;
      GoodSized(pre, created, jumps, t);
      LooseStart(pre, Normal);
      if !misplaced {
        AroundStart(pre, s, c, t, s.nodes[BodyIndex(s)].block);
      }
      var current := blocks[|blocks| - 1];
      var rounds: nat := *;
      while rounds > 0
        invariant Here(c, {}) && Loose(Normal, pre, V(), pre.blocks)
        invariant !misplaced ==> Around(pre, V(), s, s.nodes[BodyIndex(s)].block) && blocks == pre.blocks
        invariant Grows() && LoopTo(s, t, before, visits)
        invariant S() == if visits == [] then before else Emptied(Top(visits).end, body)
      {
        rounds := rounds - 1;
        ghost var at := V();
        o := Evaluate(s, c, {}, depth);
        LooseChain(pre, at, V(), o, pre.blocks, at.blocks);
        if !o.Normal? {
          if !misplaced {
            StatFatal(o, pre, V(), s, id);
          }
          return;
        }
        var stop;
        ghost var v;
        o, stop, v := RunLoopBody(s, current, c, pre, depth);
        if !Fatal(o) { LoopVisit(s, t, before, visits, v, Did(o, before, visits + [v])); }
        visits := visits + [v];
        if stop {
          return;
        }
      }
      ghost var at := V();
      o := Evaluate(s, c, {}, depth);
      LooseChain(pre, at, V(), o, pre.blocks, at.blocks);
      if !o.Normal? {
        if !misplaced {
          StatFatal(o, pre, V(), s, id);
        }
        return;
      }
      LoopFinishes(s, t, Did(o, before, visits));
      if !misplaced {
        AroundSpan(pre, V(), s, s.nodes[BodyIndex(s)].block);
        StatQuiet(pre, V(), s, id);
      }
    }

    method ProcessRepeat(s: Stat, ghost c: Ctx, depth: nat) returns (o: Outcome, ghost visits: seq<Visit>)
      requires StatReady(s, c) && s.kind.Repeat?
      modifies this
      ensures Inv() && !comingFromFor && !comingFromFuncall
      ensures Loose(o, old(V()), V(), old(blocks))
      ensures !misplaced ==> StatPost(o, old(V()), V(), s, Top(c.own)) && RaisedOk(o, raised, old(blocks), t)
      ensures !misplaced ==> Fate(o, old(V()), V(), s, Top(c.own), Broke(s, visits))
      ensures Grows() && Explained(o)
      ensures Fatal(o) || StatRan(s, t, Did(o, old(S()), visits))
      decreases depth, s, 3
    {
      hide CellsBelow, BlockRan, StatRan, PathFates, At, StaticOk, Ready, ReadyStat, Span, Covered, StartsAt,
        Stabilized, GoodFunction, JumpOk, Own, StatOwn,
        Around, BlockCan, StatCan, Fate, StatPost, BlockPost, Known, SameOuter, Good, Sized;
      visits := [];
      ghost var pre, id, before := V(), Top(c.own), S();
      ShapeFacts(s, NextEnv(s, c), c, t);
      LoopStarts(s, t, before);
      ghost var body := s.nodes[BodyIndex(s)].block.id;
      GoodSized(pre, created, jumps, t);
      LooseStart(pre, Normal);
      if !misplaced {
        AroundStart(pre, s, c, t, s.nodes[BodyIndex(s)].block);
      }
      var current := blocks[|blocks| - 1];
      var rounds: nat, done := *, false;
      while !done
        invariant Here(c, {}) && Loose(Normal, pre, V(), pre.blocks)
        invariant !misplaced ==> Around(pre, V(), s, s.nodes[BodyIndex(s)].block) && blocks == pre.blocks
        invariant Grows() && LoopTo(s, t, before, visits) && (done ==> visits != [])
        invariant Enters(s.kind, body, visits == [], Last(before, visits), S())
        decreases !done, rounds
      {
        var stop;
        ghost var v;
        o, stop, v := RunLoopBody(s, current, c, pre, depth);
        if !Fatal(o) { LoopVisit(s, t, before, visits, v, Did(o, before, visits + [v])); }
        visits := visits + [v];
        if stop {
          return;
        }
        ghost var at := V();
        o := Evaluate(s, c, {}, depth);
        LooseChain(pre, at, V(), o, pre.blocks, at.blocks);
        if !o.Normal? {
          if !misplaced {
            StatFatal(o, pre, V(), s, id);
          }
          return;
        }
        if rounds <= 0 {
          done := true;
        } else {
          rounds := rounds - 1;
        }
      }
      o := Normal;
      LoopFinishes(s, t, Did(o, before, visits));
      if !misplaced {
        AroundSpan(pre, V(), s, s.nodes[BodyIndex(s)].block);
        StatQuiet(pre, V(), s, id);
      }
    }

    /** One iteration of a `for`, whose body is on the stack; afterwards its store keeps the names `keep`. */
    method RunForBody(s: Stat, keep: set<Name>, current: BlockId, ghost c: Ctx, ghost pre: View,
                      ghost base: seq<BlockId>, depth: nat) returns (o: Outcome, stop: bool, ghost v: Visit)
      requires Inv() && !comingFromFor && !comingFromFuncall
      requires StaticOk(c, t) && ReadyStat(s, NextEnv(s, c), c.chain, c.own, t) && Shaped(s)
      requires (s.kind.NumFor? || s.kind.ForIn?) && keep == LoopKeeps(s.kind)
      requires Sized(pre) && pre.blocks != [] && Top(pre.blocks) == current && pre.blocks <= base
      requires Loose(Normal, pre, V(), base + [s.nodes[BodyIndex(s)].block.id])
      requires !misplaced ==>
                 && At(pre, c, {}, t) && base == pre.blocks && current == Top(c.own) && current !in StatOwn(s)
                 && InFor(pre, V(), s, s.nodes[BodyIndex(s)].block.id)
      modifies this
      ensures Inv() && !comingFromFor && !comingFromFuncall
      ensures !stop ==> o.Normal? && Loose(Normal, pre, V(), base + [s.nodes[BodyIndex(s)].block.id])
      ensures !misplaced && !stop ==> InFor(pre, V(), s, s.nodes[BodyIndex(s)].block.id)
      ensures Loose(o, pre, V(), pre.blocks)
      ensures !misplaced && stop ==>
                && StatPost(o, pre, V(), s, current)
                && Fate(o, pre, V(), s, current, v.outcome.Break?)
      ensures Fatal(o) || (BlockRan(s.nodes[BodyIndex(s)].block, t, v) && v.start == old(S()))
      ensures !misplaced && !Fatal(o) ==> PathFates(s.nodes[BodyIndex(s)].block, v.path, v.end)
      ensures !stop ==> v.outcome.Normal? && S() == Continued(v.end, s.nodes[BodyIndex(s)].block.id, keep)
      ensures stop && !Fatal(o) ==> LoopStops(v, o, S())
      ensures !misplaced ==> RaisedOk(o, raised, pre.blocks, t)
      ensures Grows() && Explained(o)
      decreases depth, s, 1
    {
      hide CellsBelow, BlockRan, StatRan, PathFates, At, StaticOk, Ready, ReadyStat, Span, Covered, StartsAt,
        Stabilized, GoodFunction, JumpOk, Own, StatOwn,
        Around, BlockCan, StatCan, Fate, StatPost, BlockPost, Kept, StoreAt, HeadNames, SameStores, Known, SameOuter,
        Good, Sized, InFor, RaisedOk;
      var j := BodyIndex(s);
      var body := s.nodes[j].block;
      ghost var mid := V();
      o, v := VisitForBody(s, c, pre, base, depth);
      LooseBase(o, pre, V(), base + [body.id], pre.blocks);
      stop := !o.Normal?;
      if o.Break? {
        CatchBreak(s, j, current, pre, mid, true);
        o := Normal;
        NotRaised(o, raised, pre.blocks, t);
      } else if stop {
        if !misplaced {
          SubLeft(o, pre, mid, V(), s, j, current, true);
          FateBroke(o, pre, V(), s, current, v.outcome.Break?);
        }
      } else {
        EndIteration(s, keep, c, pre, mid, base);
        NotRaised(o, raised, pre.blocks, t);
        LooseBase(o, pre, V(), base + [body.id], pre.blocks);
      }
    }

    /** Visits the body of a `for`, which stays on the stack. */
    method VisitForBody(s: Stat, ghost c: Ctx, ghost pre: View, ghost base: seq<BlockId>, depth: nat)
        returns (o: Outcome, ghost v: Visit)
      requires Inv() && !comingFromFor && !comingFromFuncall
      requires StaticOk(c, t) && ReadyStat(s, NextEnv(s, c), c.chain, c.own, t) && Shaped(s)
          && (s.kind.NumFor? || s.kind.ForIn?)
      requires Sized(pre) && pre.blocks != [] && pre.blocks <= base
      requires Loose(Normal, pre, V(), base + [s.nodes[BodyIndex(s)].block.id])
      requires !misplaced ==>
                && At(pre, c, {}, t) && base == pre.blocks
                && InFor(pre, V(), s, s.nodes[BodyIndex(s)].block.id)
      modifies this
      ensures Inv() && !comingFromFor && !comingFromFuncall
      ensures Loose(o, pre, V(), base + [s.nodes[BodyIndex(s)].block.id])
      ensures !misplaced ==> BlockPost(o, old(V()), V(), s.nodes[BodyIndex(s)].block, base, true)
      ensures !misplaced ==> RaisedOk(o, raised, base, t) && Around(pre, old(V()), s, s.nodes[BodyIndex(s)].block)
      ensures Grows() && Explained(o)
      ensures Fatal(o) || Visited(s.nodes[BodyIndex(s)].block, t, o, old(S()), v, S(), true)
      ensures !misplaced && !Fatal(o) ==> PathFates(s.nodes[BodyIndex(s)].block, v.path, v.end)
      decreases depth, s, 0
    {
      hide CellsBelow, BlockRan, StatRan, PathFates, At, StaticOk, Ready, ReadyStat, StartsAt, GoodFunction, JumpOk,
        Around, BlockCan, BlockPost, Known,
        SameOuter,
        Good, Sized, InFor, RaisedOk;
      var j := BodyIndex(s);
      var body := s.nodes[j].block;
      ghost var mid := V();
      SubStatic(s, j, c, t);
      ForBase(pre, mid, base, body.id);
      if !misplaced {
        ForStarts(pre, V(), s, j, c, t);
        ForBlocks(pre, V(), s, body.id);
      }
      comingFromFor := true;
      o, v := VisitBlock(body, SubCtx(c, s.kind, s.nodes[j]), base, depth);
      LooseChain(pre, mid, V(), o, base + [body.id], base + [body.id]);
    }

    /** After an iteration of a `for` the store of the body keeps only the names `keep`. */
    method EndIteration(s: Stat, keep: set<Name>, ghost c: Ctx, ghost pre: View, ghost mid: View,
        ghost base: seq<BlockId>)
      requires Inv() && Shaped(s) && (s.kind.NumFor? || s.kind.ForIn?) && keep == LoopKeeps(s.kind)
      requires StaticOk(c, t) && ReadyStat(s, NextEnv(s, c), c.chain, c.own, t)
      requires Sized(pre) && pre.blocks <= base && Loose(Normal, pre, V(), base + [s.nodes[BodyIndex(s)].block.id])
      requires !misplaced ==>
                 && At(pre, c, {}, t) && InFor(pre, mid, s, s.nodes[BodyIndex(s)].block.id)
                 && BlockPost(Normal, mid, V(), s.nodes[BodyIndex(s)].block, pre.blocks, true)
      modifies this`frames
      ensures Inv() && Loose(Normal, pre, V(), base + [s.nodes[BodyIndex(s)].block.id])
      ensures S() == Continued(old(S()), s.nodes[BodyIndex(s)].block.id, keep)
      ensures !misplaced ==> InFor(pre, V(), s, s.nodes[BodyIndex(s)].block.id)
    {
      hide CellsBelow, BlockRan, StatRan, PathFates, At, StaticOk, Ready, ReadyStat, Span, Covered, GoodFunction,
        JumpOk, BlockPost, InFor, HeadNames, Known,
        Good,
        Sized;
      var body := s.nodes[BodyIndex(s)].block;
      ghost var post := V();
      LooseFrames(pre, post, base + [body.id]);
      KeepNames(body.id, keep);
      LooseStores(pre, post, V(), base + [body.id]);
      GoodResized(post, V(), created, jumps, t);
      KnownLess(post, V(), t);
      if !misplaced {
        BlockFrames(mid, post, body, pre.blocks, true);
        KeepsHeadNames(s.kind);
        ForAgain(pre, mid, post, V(), s, BodyIndex(s), c, t);
      }
    }

    /** Stores the variable of a numeric `for` in its body, before the step is evaluated. */
    method BindCounter(s: Stat, ghost c: Ctx, ghost pre: View)
      requires Here(c, {}) && s.kind.NumFor? && Shaped(s) && ReadyStat(s, NextEnv(s, c), c.chain, c.own, t)
      requires Sized(pre) && Loose(Normal, pre, V(), pre.blocks) && (!misplaced ==> V() == pre)
      modifies this`frames, this`nextCell
      ensures Here(c, {s.nodes[BodyIndex(s)].block.id}) && Loose(Normal, pre, V(), pre.blocks)
      ensures Bound(old(S()), s.nodes[BodyIndex(s)].block.id, [s.kind.counter], S()) && old(nextCell) <= nextCell
      ensures |frames| == |old(frames)| && Pop(frames) == Pop(old(frames))
      ensures SameStores(Top(old(frames)), Top(frames), {s.nodes[BodyIndex(s)].block.id})
      ensures StoreAt(Top(frames), s.nodes[BodyIndex(s)].block.id).Keys
        == StoreAt(Top(old(frames)), s.nodes[BodyIndex(s)].block.id).Keys + set n | n in HeadNames(s.kind)
    {
      hide CellsBelow, BlockRan, StatRan, PathFates, At, StaticOk, Ready, ReadyStat, Covered, GoodFunction, JumpOk,
        SameStores, Good, Sized, Known;
      var body := s.nodes[BodyIndex(s)].block;
      ghost var mid := V();
      LooseFrames(pre, mid, pre.blocks);
      ghost var memory := S();
      BindNames(body.id, [s.kind.counter]);
      assert BoundFrom(memory, body.id, [s.kind.counter], S(), memory.next);
      LooseStoresOnly(pre, mid, V());
      GoodResized(mid, V(), created, jumps, t);
      KnownLess(mid, V(), t);
      if !misplaced {
        ForPrepared(pre, V(), s, BodyIndex(s), c, t);
      }
    }

    /** Evaluates the bounds of a numeric `for` and pushes its body, whose store holds the variable.
        The variable is stored before the step is evaluated. */
    method EnterForLoop(s: Stat, ghost c: Ctx, depth: nat) returns (o: Outcome, ghost base: seq<BlockId>)
      requires StatReady(s, c) && s.kind.NumFor? && Shaped(s)
      modifies this
      ensures Inv() && !comingFromFor && !comingFromFuncall
      ensures (o.Normal? || Fatal(o)) && old(blocks) <= base
      ensures Loose(o, old(V()), V(), base + [s.nodes[BodyIndex(s)].block.id])
      ensures !misplaced && o.Normal? ==> base == old(blocks) && InFor(old(V()), V(), s, s.nodes[BodyIndex(s)].block.id)
      ensures o.Normal? ==> Bound(old(S()), s.nodes[BodyIndex(s)].block.id, [s.kind.counter], S())
      ensures Grows() && Explained(o)
      decreases depth, s, 4
    {
      hide CellsBelow, BlockRan, StatRan, PathFates, At, StaticOk, Ready, ReadyStat, Span, Covered, StartsAt,
        Stabilized, GoodFunction, JumpOk, Own, StatOwn,
        Around, SameStores, Good, Sized, SameOuter, Known, InFor, StoreAt;
      base := blocks;
      ghost var pre, before := V(), S();
      GoodSized(pre, created, jumps, t);
      var body := s.nodes[BodyIndex(s)].block;
      SubStatic(s, BodyIndex(s), c, t);
      o := Evaluate(s, c, {}, depth);      // start and limit
      if !o.Normal? {
        return;
      }
      ghost var evaluated := S();
      o := BindAndStep(s, c, pre, depth);
      if !o.Normal? {
        return;
      }
      BoundBetween(before, evaluated, body.id, [s.kind.counter], S(), S());
      base := blocks;
      PushForBody(s, c, pre);
    }

    /** Stores the variable of a numeric `for`, and then evaluates the step. */
    method BindAndStep(s: Stat, ghost c: Ctx, ghost pre: View, depth: nat) returns (o: Outcome)
      requires Here(c, {}) && s.kind.NumFor? && Shaped(s) && ReadyStat(s, NextEnv(s, c), c.chain, c.own, t)
      requires c.own != [] && Sized(pre) && Loose(Normal, pre, V(), pre.blocks) && (!misplaced ==> V() == pre)
      modifies this
      ensures Inv() && !comingFromFor && !comingFromFuncall
      ensures (o.Normal? || Fatal(o)) && Loose(o, pre, V(), pre.blocks)
      ensures !misplaced && o.Normal? ==>
                && SameOuter(pre, V()) && blocks == pre.blocks
                && SameStores(Top(pre.frames), Top(V().frames), {s.nodes[BodyIndex(s)].block.id})
                && StoreAt(Top(V().frames), s.nodes[BodyIndex(s)].block.id).Keys
                   == StoreAt(Top(pre.frames), s.nodes[BodyIndex(s)].block.id).Keys + set n | n in HeadNames(s.kind)
      ensures o.Normal? ==> Bound(old(S()), s.nodes[BodyIndex(s)].block.id, [s.kind.counter], S())
      ensures Grows() && Explained(o)
      decreases depth, s, 3
    {
      hide CellsBelow, BlockRan, StatRan, PathFates, At, StaticOk, Ready, ReadyStat, Span, Covered, StartsAt,
        Stabilized,
        GoodFunction, JumpOk, Own, StatOwn, Around, SameStores, Good, Sized, Known, InFor, StoreAt, Bound;
      ghost var before, body := S(), s.nodes[BodyIndex(s)].block;
      BindCounter(s, c, pre);
      ghost var bound, memory := V(), S();
      o := Evaluate(s, c, {body.id}, depth);
      if !o.Normal? {
        return;
      }
      LooseChain(pre, bound, V(), Normal, pre.blocks, bound.blocks);
      BoundThen(before, body.id, [s.kind.counter], memory, S());
    }

    /** Pushes the body of a numeric `for`, whose store holds the variable. */
    method PushForBody(s: Stat, ghost c: Ctx, ghost pre: View)
      requires Inv() && !comingFromFor && !comingFromFuncall && s.kind.NumFor? && Shaped(s)
      requires StaticOk(c, t) && ReadyStat(s, NextEnv(s, c), c.chain, c.own, t)
      requires Sized(pre) && Loose(Normal, pre, V(), pre.blocks)
      requires !misplaced ==>
                 && At(pre, c, {}, t) && SameOuter(pre, V()) && blocks == pre.blocks
                 && SameStores(Top(pre.frames), Top(V().frames), {s.nodes[BodyIndex(s)].block.id})
                 && StoreAt(Top(V().frames), s.nodes[BodyIndex(s)].block.id).Keys
                    == StoreAt(Top(pre.frames), s.nodes[BodyIndex(s)].block.id).Keys + set n | n in HeadNames(s.kind)
      modifies this`blocks
      ensures Inv() && blocks == old(blocks) + [s.nodes[BodyIndex(s)].block.id] && pre.blocks <= old(blocks)
      ensures Loose(Normal, pre, V(), old(blocks) + [s.nodes[BodyIndex(s)].block.id])
      ensures !misplaced ==> InFor(pre, V(), s, s.nodes[BodyIndex(s)].block.id)
    {
      hide CellsBelow, BlockRan, StatRan, PathFates, At, StaticOk, Ready, ReadyStat, Span, Covered, StartsAt,
        Stabilized,
        GoodFunction, JumpOk, Own, StatOwn, Around, SameStores, Good, Sized, SameOuter, Known, InFor, StoreAt;
      ghost var prepared := V();
      var body := s.nodes[BodyIndex(s)].block;
      SubStatic(s, BodyIndex(s), c, t);
      blocks := blocks + [body.id];
      LoosePush(pre, prepared, V(), body.id);
      GoodResized(prepared, V(), created, jumps, t);
      KnownMore(prepared, V(), body.id, t);
      if !misplaced {
        ForPushed(pre, prepared, V(), s, BodyIndex(s), c, t);
      }
    }

    method ProcessForLoop(s: Stat, ghost c: Ctx, depth: nat) returns (o: Outcome, ghost visits: seq<Visit>)
      requires StatReady(s, c) && s.kind.NumFor?
      modifies this
      ensures Inv() && !comingFromFor && !comingFromFuncall
      ensures Loose(o, old(V()), V(), old(blocks))
      ensures !misplaced ==> StatPost(o, old(V()), V(), s, Top(c.own)) && RaisedOk(o, raised, old(blocks), t)
      ensures !misplaced ==> Fate(o, old(V()), V(), s, Top(c.own), Broke(s, visits))
      ensures Grows() && Explained(o)
      ensures !misplaced && !Fatal(o) ==> BodyFates(s, visits)
      ensures !misplaced ==> StoreAt(old(S()).frame, s.nodes[BodyIndex(s)].block.id) == map[]
      ensures !misplaced && !Fatal(o) && Steady(s.nodes[BodyIndex(s)].block, s.kind.counter) ==>
                exists cell: Cell :: old(nextCell) <= cell && AlwaysAlone(s, visits, cell)
      ensures Fatal(o) || StatRan(s, t, Did(o, old(S()), visits))
      decreases depth, s, 5
    {
      hide CellsBelow, BlockRan, StatRan, PathFates, At, StaticOk, Ready, ReadyStat, Span, Covered, StartsAt,
        Stabilized, GoodFunction, JumpOk, Own, StatOwn,
        Around, BlockCan, StatCan, Fate, StatPost, BlockPost, Known, SameOuter, Good, Sized;
      visits := [];
      ghost var pre, id, before := V(), Top(c.own), S();
      ShapeFacts(s, NextEnv(s, c), c, t);
      LoopStarts(s, t, before);
      var j := BodyIndex(s);
      SubStatic(s, j, c, t);
      GoodSized(pre, created, jumps, t);
      LooseStart(pre, Normal);
      if !misplaced {
        AroundStart(pre, s, c, t, s.nodes[j].block);
        BodyIsEmpty(pre, s, c, t);
      }
      var current := blocks[|blocks| - 1];
      var body := s.nodes[j].block;
      ghost var base;
      o, base := EnterForLoop(s, c, depth);
      LooseBase(o, pre, V(), base + [body.id], pre.blocks);
      if !o.Normal? {
        if !misplaced {
          StatFatal(o, pre, V(), s, id);
        }
        return;
      }
      o, visits := RunForLoop(s, current, c, pre, base, before, depth);
    }

    /** The iterations of a numeric `for`, with its body on the stack. */
    method RunForLoop(s: Stat, current: BlockId, ghost c: Ctx, ghost pre: View, ghost base: seq<BlockId>,
        ghost before: Memory, depth: nat) returns (o: Outcome, ghost visits: seq<Visit>)
      requires Inv() && !comingFromFor && !comingFromFuncall && s.kind.NumFor? && Shaped(s) && c.own != []
      requires StaticOk(c, t) && ReadyStat(s, NextEnv(s, c), c.chain, c.own, t)
      requires Sized(pre) && pre.blocks != [] && Top(pre.blocks) == current && pre.blocks <= base
      requires Loose(Normal, pre, V(), base + [s.nodes[BodyIndex(s)].block.id])
      requires !misplaced ==>
                 && At(pre, c, {}, t) && base == pre.blocks && current == Top(c.own) && current !in StatOwn(s)
                 && InFor(pre, V(), s, s.nodes[BodyIndex(s)].block.id)
                 && StoreAt(before.frame, s.nodes[BodyIndex(s)].block.id) == map[]
      requires Bound(before, s.nodes[BodyIndex(s)].block.id, [s.kind.counter], S())
      modifies this
      ensures Inv() && !comingFromFor && !comingFromFuncall && Loose(o, pre, V(), pre.blocks)
      ensures !misplaced ==> StatPost(o, pre, V(), s, current) && Fate(o, pre, V(), s, current, Broke(s, visits))
      ensures !misplaced ==> RaisedOk(o, raised, pre.blocks, t)
      ensures !misplaced && !Fatal(o) ==> BodyFates(s, visits)
      ensures !misplaced && !Fatal(o) && Steady(s.nodes[BodyIndex(s)].block, s.kind.counter) ==>
                exists cell: Cell :: before.next <= cell && AlwaysAlone(s, visits, cell)
      ensures Grows() && Explained(o)
      ensures Fatal(o) || StatRan(s, t, Did(o, before, visits))
      decreases depth, s, 3
    {
      hide CellsBelow, BlockRan, StatRan, PathFates, At, StaticOk, Ready, ReadyStat, Span, Covered, StartsAt,
        Stabilized,
        GoodFunction, JumpOk, Own, StatOwn, Around, BlockCan, StatCan, Fate, StatPost, BlockPost, Known, SameOuter,
            Good,
        Sized, InFor, RaisedOk, Bound, Grown, Finishes, LoopStops, Steady, AlwaysAlone, BodyFates;
      ghost var body := s.nodes[BodyIndex(s)].block.id;
      visits := [];
      LoopStarts(s, t, before);
      var rounds: nat := *;
      while rounds > 0
        invariant Inv() && !comingFromFor && !comingFromFuncall && Loose(Normal, pre, V(), base + [body])
        invariant !misplaced ==> base == pre.blocks && InFor(pre, V(), s, body)
        invariant Grows() && LoopTo(s, t, before, visits) && (!misplaced ==> BodyFates(s, visits))
        invariant Enters(s.kind, body, visits == [], Last(before, visits), S())
      {
        rounds := rounds - 1;
        var stop;
        ghost var v;
        o, stop, v := RunForBody(s, {s.kind.counter}, current, c, pre, base, depth);
        if !Fatal(o) {
          LoopVisit(s, t, before, visits, v, Did(o, before, visits + [v]));
          if !misplaced { FatesMore(s, visits, v); }
        }
        visits := visits + [v];
        if stop {
          if !misplaced && !Fatal(o) { LoopIsSteady(s, t, Did(o, before, visits)); }
          return;
        }
      }
      ForFinishes(s, before, visits, S());
      LeaveForLoop(s, c, pre, base);
      NotRaised(Normal, raised, pre.blocks, t);
      o := Normal;
      LoopFinishes(s, t, Did(o, before, visits));
      if !misplaced { LoopIsSteady(s, t, Did(o, before, visits)); }
    }

    /** The normal end of a numeric `for`: the body is popped and erased. */
    method LeaveForLoop(s: Stat, ghost c: Ctx, ghost pre: View, ghost base: seq<BlockId>)
      requires Inv() && s.kind.NumFor? && Shaped(s) && Sized(pre) && pre.blocks <= base && c.own != []
      requires StaticOk(c, t) && ReadyStat(s, NextEnv(s, c), c.chain, c.own, t)
      requires Loose(Normal, pre, V(), base + [s.nodes[BodyIndex(s)].block.id])
      requires !misplaced ==> At(pre, c, {}, t) && InFor(pre, V(), s, s.nodes[BodyIndex(s)].block.id)
                              && Top(c.own) !in StatOwn(s)
      modifies this`blocks, this`frames
      ensures Inv() && Loose(Normal, pre, V(), pre.blocks)
      ensures S() == Emptied(old(S()), s.nodes[BodyIndex(s)].block.id)
      ensures !misplaced ==> StatPost(Normal, pre, V(), s, Top(c.own)) && Fate(Normal, pre, V(), s, Top(c.own), false)
    {
      hide CellsBelow, BlockRan, StatRan, PathFates, At, StaticOk, Ready, ReadyStat, Span, Covered, GoodFunction,
        JumpOk, Own, StatOwn, Fate, StatPost, Known,
        SameOuter, Good, Sized, SameStores;
      ghost var last := V();
      var body := s.nodes[BodyIndex(s)].block;
      LooseFrames(pre, last, base + [body.id]);
      blocks := blocks[..|blocks| - 1];
      EraseBlock(body.id);
      LoosePop(pre, last, V(), base, body.id);
      GoodResized(last, V(), created, jumps, t);
      KnownLess(last, V(), t);
      if !misplaced {
        ForLeft(pre, last, V(), s, BodyIndex(s), c, t);
        StatQuiet(pre, V(), s, Top(c.own));
      }
    }

    /** Drops all names but the given ones from the store of a block. */
    method KeepNames(id: BlockId, names: set<Name>)
      requires frames != []
      modifies this`frames
      ensures |frames| == |old(frames)| && Pop(frames) == Pop(old(frames))
      ensures SameStores(Top(old(frames)), Top(frames), {id})
      ensures StoreAt(Top(frames), id).Keys == StoreAt(Top(old(frames)), id).Keys * names
      ensures frames
        == Pop(old(frames)) + [Top(old(frames))[id := Restricted(StoreAt(Top(old(frames)), id), names)]]
      ensures old(Below()) ==> Below()
    {
      hide CellsBelow;
      if Below() { StoreAtBelow(frames, functions, globals, created, nextCell, id); }
      var store := StoreAt(frames[|frames| - 1], id);
      SetStore(id, map n | n in store && n in names :: store[n]);
    }

    /** Calls the iterator of a `for in`, while the body is on the stack. */
    method CallIterator(s: Stat, ghost c: Ctx, ghost pre: View, ghost base: seq<BlockId>, depth: nat)
        returns (o: Outcome)
      requires Inv() && !comingFromFor && !comingFromFuncall && s.kind.ForIn? && Shaped(s)
      requires StaticOk(c, t) && ReadyStat(s, NextEnv(s, c), c.chain, c.own, t)
      requires Sized(pre) && pre.blocks <= base && Loose(Normal, pre, V(), base + [s.nodes[BodyIndex(s)].block.id])
      requires !misplaced ==> At(pre, c, {}, t) && InFor(pre, V(), s, s.nodes[BodyIndex(s)].block.id)
      modifies this
      ensures Inv() && !comingFromFor && !comingFromFuncall
      ensures (o.Normal? || Fatal(o)) && Loose(o, pre, V(), base + [s.nodes[BodyIndex(s)].block.id])
      ensures !misplaced && o.Normal? ==> InFor(pre, V(), s, s.nodes[BodyIndex(s)].block.id)
      ensures o.Normal? ==> Evaluated(old(S()), S())
      ensures Grows() && Explained(o)
      decreases depth, s, 1
    {
      hide CellsBelow, BlockRan, StatRan, PathFates, At, StaticOk, Ready, ReadyStat, Span, Covered, StartsAt,
        Stabilized, GoodFunction, JumpOk, Own, StatOwn,
        Around, InFor, SameStores, Good, Sized, SameOuter, Known;
      var j := BodyIndex(s);
      var body := s.nodes[j].block.id;
      SubStatic(s, j, c, t);
      if !misplaced {
        ForStarts(pre, V(), s, j, c, t);
      }
      o := Normal;
      var k: nat := *;
      if 0 <= k < |created| {
        ghost var mid := V();
        ghost var call;
        o, call := CallFunction(created[k], SubCtx(c, s.kind, s.nodes[j]), {}, s, depth);
        if !o.Normal? {
          return;
        }
        LooseChain(pre, mid, V(), Normal, base + [body], mid.blocks);
      }
    }

    /** Calls the iterator of a `for in` and binds the names. */
    method NextForIn(s: Stat, ghost c: Ctx, ghost pre: View, ghost base: seq<BlockId>, depth: nat) returns (o: Outcome)
      requires Inv() && !comingFromFor && !comingFromFuncall && s.kind.ForIn? && Shaped(s)
      requires StaticOk(c, t) && ReadyStat(s, NextEnv(s, c), c.chain, c.own, t)
      requires Sized(pre) && pre.blocks <= base && Loose(Normal, pre, V(), base + [s.nodes[BodyIndex(s)].block.id])
      requires !misplaced ==> At(pre, c, {}, t) && InFor(pre, V(), s, s.nodes[BodyIndex(s)].block.id)
      modifies this
      ensures Inv() && !comingFromFor && !comingFromFuncall
      ensures (o.Normal? || Fatal(o)) && Loose(o, pre, V(), base + [s.nodes[BodyIndex(s)].block.id])
      ensures !misplaced && o.Normal? ==> InFor(pre, V(), s, s.nodes[BodyIndex(s)].block.id)
      ensures o.Normal? ==> Bound(old(S()), s.nodes[BodyIndex(s)].block.id, s.kind.names, S())
      ensures Grows() && Explained(o)
      decreases depth, s, 2
    {
      hide CellsBelow, BlockRan, StatRan, PathFates, At, StaticOk, Ready, ReadyStat, Span, Covered, StartsAt,
        Stabilized, GoodFunction, JumpOk, Own, StatOwn,
        Around, InFor, SameStores, Good, Sized, SameOuter, Known;
      var body := s.nodes[BodyIndex(s)].block.id;
      ghost var before := S();
      o := CallIterator(s, c, pre, base, depth);
      if !o.Normal? {
        return;
      }
      ghost var called, memory := V(), S();
      LooseFrames(pre, called, base + [body]);
      BindNames(body, s.kind.names);
      assert BoundFrom(memory, body, s.kind.names, S(), memory.next);
      BoundBetween(before, memory, body, s.kind.names, S(), S());
      LooseStores(pre, called, V(), base + [body]);
      GoodResized(called, V(), created, jumps, t);
      KnownLess(called, V(), t);
      if !misplaced {
        ForBound(pre, called, V(), s, body);
      }
      o := Normal;
    }

    /** The end of the iteration is raised and caught as a break. */
    method ProcessForIn(s: Stat, ghost c: Ctx, depth: nat) returns (o: Outcome, ghost visits: seq<Visit>)
      requires StatReady(s, c) && s.kind.ForIn?
      modifies this
      ensures Inv() && !comingFromFor && !comingFromFuncall
      ensures Loose(o, old(V()), V(), old(blocks))
      ensures !misplaced ==> StatPost(o, old(V()), V(), s, Top(c.own)) && RaisedOk(o, raised, old(blocks), t)
      ensures !misplaced ==> Fate(o, old(V()), V(), s, Top(c.own), Broke(s, visits))
      ensures Grows() && Explained(o)
      ensures Fatal(o) || StatRan(s, t, Did(o, old(S()), visits))
      decreases depth, s, 4
    {
      hide CellsBelow, BlockRan, StatRan, PathFates, At, StaticOk, Ready, ReadyStat, Span, Covered, StartsAt,
        Stabilized, GoodFunction, JumpOk, Own, StatOwn,
        Around, BlockCan, StatCan, Fate, StatPost, BlockPost, Known, SameOuter, Good, Sized, InFor;
      visits := [];
      ghost var pre, id, before := V(), Top(c.own), S();
      ShapeFacts(s, NextEnv(s, c), c, t);
      LoopStarts(s, t, before);
      var j := BodyIndex(s);
      SubStatic(s, j, c, t);
      GoodSized(pre, created, jumps, t);
      LooseStart(pre, Normal);
      if !misplaced {
        AroundStart(pre, s, c, t, s.nodes[j].block);
      }
      var current := blocks[|blocks| - 1];
      var body := s.nodes[j].block;
      o := Evaluate(s, c, {}, depth);
      if !o.Normal? {
        if !misplaced {
          StatFatal(o, pre, V(), s, id);
        }
        return;
      }
      ghost var mid := V();
      ghost var base := blocks;
      blocks := blocks + [body.id];
      LoosePush(pre, mid, V(), body.id);
      GoodResized(mid, V(), created, jumps, t);
      KnownMore(mid, V(), body.id, t);
      if !misplaced {
        ForInPushed(pre, V(), s, j, c, t);
      }
      o, visits := RunForIn(s, current, c, pre, base, before, depth);
    }

    /** The iterations of a `for in`, with its body on the stack. */
    method RunForIn(s: Stat, current: BlockId, ghost c: Ctx, ghost pre: View, ghost base: seq<BlockId>,
        ghost before: Memory, depth: nat)
        returns (o: Outcome, ghost visits: seq<Visit>)
      requires Inv() && !comingFromFor && !comingFromFuncall && s.kind.ForIn? && Shaped(s)
      requires StaticOk(c, t) && ReadyStat(s, NextEnv(s, c), c.chain, c.own, t)
      requires Sized(pre) && pre.blocks != [] && Top(pre.blocks) == current && pre.blocks <= base
      requires Loose(Normal, pre, V(), base + [s.nodes[BodyIndex(s)].block.id])
      requires !misplaced ==>
                 && At(pre, c, {}, t) && base == pre.blocks && current == Top(c.own) && current !in StatOwn(s)
                 && InFor(pre, V(), s, s.nodes[BodyIndex(s)].block.id)
      requires Evaluated(before, S())
      modifies this
      ensures Inv() && !comingFromFor && !comingFromFuncall && Loose(o, pre, V(), pre.blocks)
      ensures !misplaced ==> StatPost(o, pre, V(), s, current) && Fate(o, pre, V(), s, current, Broke(s, visits))
      ensures !misplaced ==> RaisedOk(o, raised, pre.blocks, t)
      ensures Grows() && Explained(o)
      ensures Fatal(o) || StatRan(s, t, Did(o, before, visits))
      decreases depth, s, 3
    {
      hide Iterates, Continued, Enters, Finishes, Evaluated, Grown, Bound, CellsBelow, BlockRan, StatRan, PathFates,
        At, StaticOk, Ready, ReadyStat, Span, Covered, StartsAt,
        Stabilized, GoodFunction, JumpOk, Own, StatOwn,
        Around, BlockCan, StatCan, Fate, StatPost, BlockPost, Known, SameOuter, Good, Sized, InFor, RaisedOk;
      visits := [];
      LoopStarts(s, t, before);
      IteratesFirst(s, before, S());
      ghost var body := s.nodes[BodyIndex(s)].block.id;
      var rounds: nat := *;
      while rounds > 0
        invariant Inv() && !comingFromFor && !comingFromFuncall && Loose(Normal, pre, V(), base + [body])
        invariant !misplaced ==> InFor(pre, V(), s, body)
        invariant Grows() && LoopTo(s, t, before, visits) && Iterates(s, before, visits, S())
      {
        rounds := rounds - 1;
        ghost var memory := S();
        o := NextForIn(s, c, pre, base, depth);
        if !o.Normal? {
          LooseBase(o, pre, V(), base + [body], pre.blocks);
          NotRaised(o, raised, pre.blocks, t);
          if !misplaced {
            StatFatal(o, pre, V(), s, current);
          }
          return;
        }
        ForInEnters(s, before, visits, memory, S());
        var stop;
        ghost var v;
        o, stop, v := RunForBody(s, {}, current, c, pre, base, depth);
        if !Fatal(o) { LoopVisit(s, t, before, visits, v, Did(o, before, visits + [v])); }
        visits := visits + [v];
        if stop {
          return;
        }
        IteratesAgain(s, before, visits[..|visits| - 1], v);
      }
      o := FinishForIn(s, current, c, pre, base, before, visits, depth);
    }

    /** The last call of the iterator, which yields nil, and the end of the loop. */
    method FinishForIn(s: Stat, current: BlockId, ghost c: Ctx, ghost pre: View, ghost base: seq<BlockId>,
        ghost before: Memory, ghost visits: seq<Visit>, depth: nat)
        returns (o: Outcome)
      requires Inv() && !comingFromFor && !comingFromFuncall && s.kind.ForIn? && Shaped(s)
      requires StaticOk(c, t) && ReadyStat(s, NextEnv(s, c), c.chain, c.own, t)
      requires Sized(pre) && pre.blocks != [] && Top(pre.blocks) == current && pre.blocks <= base
      requires Loose(Normal, pre, V(), base + [s.nodes[BodyIndex(s)].block.id])
      requires !misplaced ==>
                 && At(pre, c, {}, t) && base == pre.blocks && current == Top(c.own) && current !in StatOwn(s)
                 && InFor(pre, V(), s, s.nodes[BodyIndex(s)].block.id)
      requires LoopTo(s, t, before, visits) && Iterates(s, before, visits, S())
      modifies this
      ensures Inv() && !comingFromFor && !comingFromFuncall && Loose(o, pre, V(), pre.blocks)
      ensures !misplaced ==> StatPost(o, pre, V(), s, current) && Fate(o, pre, V(), s, current, Broke(s, visits))
      ensures !misplaced ==> RaisedOk(o, raised, pre.blocks, t)
      ensures Grows() && Explained(o)
      ensures Fatal(o) || StatRan(s, t, Did(o, before, visits))
      decreases depth, s, 2
    {
      hide CellsBelow, BlockRan, StatRan, PathFates, At, StaticOk, Ready, ReadyStat, Span, Covered, StartsAt,
        Stabilized,
        GoodFunction, JumpOk, Own, StatOwn, Around, BlockCan, StatCan, Fate, StatPost, BlockPost, Known, SameOuter,
            Good,
        Sized, InFor, RaisedOk;
      ghost var body, from := s.nodes[BodyIndex(s)].block.id, S();
      o := CallIterator(s, c, pre, base, depth);      // the call that yields nil
      if !o.Normal? {
        LooseBase(o, pre, V(), base + [body], pre.blocks);
        NotRaised(o, raised, pre.blocks, t);
        if !misplaced {
          StatFatal(o, pre, V(), s, current);
        }
        return;
      }
      ghost var memory := S();
      IteratesLater(s, before, visits, from, memory);
      EndForIn(s, current, c, pre, base);
      o := Normal;
      ForInFinishes(s, before, visits, memory, S());
      LoopFinishes(s, t, Did(o, before, visits));
      NotRaised(o, raised, pre.blocks, t);
    }

    /** The end of a `for in` is caught like a break, with the body on the stack. */
    method EndForIn(s: Stat, current: BlockId, ghost c: Ctx, ghost pre: View, ghost base: seq<BlockId>)
      requires Inv() && s.kind.ForIn? && Shaped(s) && Sized(pre) && pre.blocks != [] && Top(pre.blocks) == current
      requires StaticOk(c, t) && ReadyStat(s, NextEnv(s, c), c.chain, c.own, t)
      requires pre.blocks <= base && Loose(Normal, pre, V(), base + [s.nodes[BodyIndex(s)].block.id])
      requires !misplaced ==> At(pre, c, {}, t) && current == Top(c.own) && current !in StatOwn(s)
                              && InFor(pre, V(), s, s.nodes[BodyIndex(s)].block.id)
      modifies this`blocks, this`frames
      ensures Inv() && Loose(Normal, pre, V(), pre.blocks) && Cleared(old(S()), S())
      ensures !misplaced ==> StatPost(Normal, pre, V(), s, current) && Fate(Normal, pre, V(), s, current, false)
    {
      hide CellsBelow, BlockRan, StatRan, PathFates, At, StaticOk, Ready, ReadyStat, Span, Covered, StartsAt,
        Stabilized, GoodFunction, JumpOk, Own, StatOwn,
        Around, Fate, StatPost, Known, SameOuter, Good, Sized, InFor;
      ghost var v := V();
      LooseFrames(pre, v, base + [s.nodes[BodyIndex(s)].block.id]);
      LooseBase(Normal, pre, v, base + [s.nodes[BodyIndex(s)].block.id], pre.blocks);
      StabilizedLoose(v, pre.blocks, current);
      if !misplaced {
        ForStarts(pre, V(), s, BodyIndex(s), c, t);
        AroundSpan(pre, V(), s, s.nodes[BodyIndex(s)].block);
        CaughtHere(pre, V(), s, current, false);
      }
      StabilizeBlocks(current);
      LooseCut(pre, v, V(), pre.blocks);
      GoodResized(v, V(), created, jumps, t);
      KnownLess(v, V(), t);
    }

    /** Closes the function body of a function statement in the block where it stands. */
    method DefineHere(s: Stat, ghost c: Ctx) returns (f: Option<Closure>)
      requires StatReady(s, c) && |s.nodes| == 1 && s.nodes[0].Func?
      modifies this`created
      ensures Inv()
      ensures f.None? ==> created == old(created)
      ensures f.Some? <==> NoDouble(c.chain, Top(frames))
      ensures f.Some? ==> created == old(created) + [f.value]
      ensures f.Some? ==> f.value == Closure(s.nodes[0].params, s.nodes[0].block, Captured(c.chain, Top(frames)))
      ensures s.nodes[0].block.id in t.parents && t.parents[s.nodes[0].block.id] == c.chain
      ensures !misplaced ==> Captured(c.chain, Top(frames)) == Captured(c.own, Top(frames))
    {
      hide CellsBelow, BlockRan, StatRan, PathFates, StaticOk, Ready, ReadyStat, Covered, GoodFunction, JumpOk,
        LastHolder, NoDouble, Captured, Within, Layers;
      NextWithin(s, c, t);
      f := DefineFunction(s, 0, c, {}, NextEnv(s, c));
    }

    /** A global function; how its name is split at dots is not modelled. */
    method ProcessFunction(s: Stat, n: Name, ghost c: Ctx) returns (o: Outcome)
      requires StatReady(s, c) && s.kind == Kind.Function(n)
      modifies this
      ensures Inv() && !comingFromFor && !comingFromFuncall
      ensures Loose(o, old(V()), V(), old(blocks))
      ensures !misplaced ==> StatPost(o, old(V()), V(), s, Top(c.own)) && RaisedOk(o, raised, old(blocks), t)
      ensures !misplaced ==> Fate(o, old(V()), V(), s, Top(c.own), false)
      ensures Grows() && Explained(o)
      ensures Fatal(o) || StatRan(s, t, Did(o, old(S()), []))
      ensures o.Normal? ==> V() == old(V())
      ensures (o.Normal? || o.Error?) && (o.Normal? <==> NoDouble(c.chain, Top(old(frames))))
      ensures o.Normal? ==>
                created == old(created) + [Closure(s.nodes[0].params, s.nodes[0].block, Captured(c.chain, Top(frames)))]
      ensures !misplaced ==> Captured(c.chain, Top(old(frames))) == Captured(c.own, Top(old(frames)))
    {
      hide LastHolder, NoDouble, Good, Sized, SameStores, Erase, ReadyNode, Shaped, CellsBelow, BlockRan, StatRan,
        PathFates, At, StaticOk, Ready, ReadyStat, Span, Covered, StartsAt,
        Stabilized, GoodFunction, JumpOk, Own, StatOwn,
        Around, Fate, StatPost, Captured, Known, SameOuter;
      ghost var pre, id, before := V(), Top(c.own), S();
      ShapeFacts(s, NextEnv(s, c), c, t);
      GoodSized(pre, created, jumps, t);
      SizedTop(pre);
      ShapedFunction(s);
      LooseStart(pre, Normal);
      var f := DefineHere(s, c);
      if f.None? {
        o, failed := Error, true;
        if !misplaced {
          StatFatal(o, pre, V(), s, id);
        }
        return;
      }
      SetGlobal(n);
      if !misplaced {
        QuietHere(pre, s, c, t);
      }
      o := Normal;
      FunctionRan(s, t, Did(o, before, []));
    }

    method ProcessLocalFunction(s: Stat, ghost c: Ctx) returns (o: Outcome)
      requires StatReady(s, c) && s.kind.LocalFunction?
      modifies this
      ensures Inv() && !comingFromFor && !comingFromFuncall
      ensures Loose(o, old(V()), V(), old(blocks))
      ensures !misplaced ==> StatPost(o, old(V()), V(), s, Top(c.own)) && RaisedOk(o, raised, old(blocks), t)
      ensures !misplaced ==> Fate(o, old(V()), V(), s, Top(c.own), false)
      ensures Grows() && Explained(o)
      ensures Fatal(o) || StatRan(s, t, Did(o, old(S()), []))
      ensures o.Normal? ==>
                created == old(created) + [Closure(s.nodes[0].params, s.nodes[0].block,
                    Captured(c.chain, Top(old(frames))))]
      ensures !misplaced ==> Captured(c.chain, Top(old(frames))) == Captured(c.own, Top(old(frames)))
      ensures (o.Normal? || o.Error?) && (o.Normal? <==> NoDouble(c.chain, Top(old(frames))))
      ensures o.Normal? ==> s.kind.lname in StoreAt(Top(frames), Top(blocks))
                            && StoreAt(Top(frames), Top(blocks))[s.kind.lname] >= old(nextCell)
    {
      hide Declaration, CellsBelow, BlockRan, StatRan, PathFates, At, StaticOk, Ready, ReadyStat, Span, Covered,
        StartsAt, Stabilized, GoodFunction, JumpOk, Own, StatOwn,
        Around, Fate, Kept, StatPost, LastHolder, NoDouble, SameStores, Shaped, Captured, ReadyNode, Erase, Known,
        SameOuter, Good, Sized, RaisedOk, StatCan;
      ghost var pre, id, before := V(), Top(c.own), S();
      ShapeFacts(s, NextEnv(s, c), c, t);
      GoodSized(pre, created, jumps, t);
      ShapedFunction(s);
      LooseStart(pre, Normal);
      var f := DefineHere(s, c);
      if f.None? {
        o, failed := Error, true;
        NotRaised(o, raised, pre.blocks, t);
        if !misplaced {
          StatFatal(o, pre, V(), s, id);
        }
        return;
      }
      BindLocal(s.kind.lname, pre);
      if !misplaced {
        DeclaredHere(pre, V(), s, c, t);
      }
      o := Normal;
      LocalFunctionRan(s, t, Did(o, before, []));
      NotRaised(o, raised, pre.blocks, t);
    }

    /** Puts a new local in the block on top of the stack. */
    method BindLocal(n: Name, ghost pre: View)
      requires Inv() && V() == pre && blocks != []
      modifies this`frames, this`nextCell
      ensures Inv() && Loose(Normal, pre, V(), pre.blocks) && V() == pre.(frames := frames) && Adds()
      ensures |frames| == |old(frames)| && frames != [] && Pop(frames) == Pop(old(frames))
      ensures SameStores(Top(old(frames)), Top(frames), {Top(blocks)})
      ensures Top(frames) == Top(old(frames))[Top(blocks) := StoreAt(Top(frames), Top(blocks))]
      ensures (StoreAt(Top(frames), Top(blocks)), nextCell)
        == Declaration(StoreAt(Top(old(frames)), Top(blocks)), [n], 0, old(nextCell))
      ensures StoreAt(Top(frames), Top(blocks)).Keys == StoreAt(Top(old(frames)), Top(blocks)).Keys + {n}
      ensures StoreAt(Top(frames), Top(blocks))[n] >= old(nextCell)
      ensures Kept(StoreAt(Top(old(frames)), Top(blocks)), StoreAt(Top(frames), Top(blocks)), [n])
    {
      hide CellsBelow, GoodFunction, JumpOk, Good, Sized, Known, SameStores, Kept, Declaration;
      GoodSized(pre, created, jumps, t);
      SizedTop(pre);
      LooseStart(pre, Normal);
      assert n in [n];
      BindNames(blocks[|blocks| - 1], [n]);
      LooseStoresOnly(pre, pre, V());
      GoodResized(pre, V(), created, jumps, t);
      KnownLess(pre, V(), t);
    }

    method ProcessLocalVariables(s: Stat, ghost c: Ctx, depth: nat) returns (o: Outcome)
      requires StatReady(s, c) && s.kind.Local?
      modifies this
      ensures Inv() && !comingFromFor && !comingFromFuncall
      ensures Loose(o, old(V()), V(), old(blocks))
      ensures !misplaced ==> StatPost(o, old(V()), V(), s, Top(c.own)) && RaisedOk(o, raised, old(blocks), t)
      ensures !misplaced ==> Fate(o, old(V()), V(), s, Top(c.own), false)
      ensures Grows() && Explained(o)
      ensures Fatal(o) || StatRan(s, t, Did(o, old(S()), []))
      decreases depth, s, 3
    {
      hide CellsBelow, BlockRan, StatRan, PathFates, At, StaticOk, Ready, ReadyStat, Span, Covered, StartsAt,
        Stabilized, GoodFunction, JumpOk, Own, StatOwn,
        Around, Fate, StatPost, Known, SameOuter, Good, Sized, SameStores;
      ghost var pre, id, before := V(), Top(c.own), S();
      GoodSized(pre, created, jumps, t);
      o := Evaluate(s, c, {}, depth);
      if !o.Normal? {
        if !misplaced {
          StatFatal(o, pre, V(), s, id);
        }
        return;
      }
      var given: nat := *;
      ghost var mid, memory := V(), S();
      LooseFrames(pre, mid, pre.blocks);
      DeclareNames(blocks[|blocks| - 1], s.kind.locals, given);
      LocalRan(s, t, Did(o, before, []), memory, given);
      LooseStoresOnly(pre, mid, V());
      GoodResized(mid, V(), created, jumps, t);
      KnownLess(mid, V(), t);
      if !misplaced {
        DeclaredHere(pre, V(), s, c, t);
      }
    }

    /** Declares names in a block: a name that gets one of the `given` values keeps the cell it may
        already have, every other one gets a fresh cell. */
    method DeclareNames(id: BlockId, names: seq<Name>, given: nat)
      requires frames != []
      modifies this`frames, this`nextCell
      ensures |frames| == |old(frames)| && Pop(frames) == Pop(old(frames))
      ensures SameStores(Top(old(frames)), Top(frames), {id})
      ensures StoreAt(Top(frames), id).Keys == StoreAt(Top(old(frames)), id).Keys + set n | n in names
      ensures (StoreAt(Top(frames), id), nextCell)
        == Declaration(StoreAt(Top(old(frames)), id), names, given, old(nextCell))
      ensures Kept(StoreAt(Top(old(frames)), id), StoreAt(Top(frames), id), names)
      ensures (old(Below()) ==> Below()) && old(nextCell) <= nextCell
    {
      hide CellsBelow, Kept;
      for i := 0 to |names|
        invariant |frames| == |old(frames)| && Pop(frames) == Pop(old(frames))
        invariant SameStores(Top(old(frames)), Top(frames), {id})
        invariant (StoreAt(Top(frames), id), nextCell)
          == Declaration(StoreAt(Top(old(frames)), id), names[..i], given, old(nextCell))
        invariant old(nextCell) <= nextCell && (old(Below()) ==> Below())
      {
        DeclarationStep(StoreAt(Top(old(frames)), id), names, i, given, old(nextCell));
        if given <= i || names[i] !in StoreAt(frames[|frames| - 1], id) {
          if old(Below()) { StoreAtBelow(frames, functions, globals, created, nextCell, id); }
          var cell := NewCell();
          SetStore(id, StoreAt(Top(frames), id)[names[i] := cell]);
        }
      }
      assert names[..|names|] == names;
      DeclaredStore(StoreAt(Top(old(frames)), id), names, given, old(nextCell));
    }

    /** Runs a whole program.  No break and no goto leaves it; a return at its top level is caught. */
    method VisitChunk(chunk: Block, depth: nat) returns (o: Outcome, ghost v: Visit)
      requires blocks == [] && frames == [] && functions == [] && bases == [] && created == [] && jumps == []
      requires !comingFromFor && !comingFromFuncall && !misplaced
      requires StoreBelow(globals, nextCell)
      requires Ready(chunk, map[], [chunk.id], [chunk.id], t) && Contained(chunk)
      modifies this
      ensures Inv() && !comingFromFor && !comingFromFuncall
      ensures (o.Normal? || o.Return? || Fatal(o)) && (o.Unbalanced? ==> selfCalled) && Explained(o)
      ensures Fatal(o) || (BlockCan(chunk, 0, o) && BlockRan(chunk, t, v) && v.outcome == o)
      ensures Fatal(o) || v.start == Memory(map[], [], old(globals), old(nextCell))
      ensures !misplaced && o.Normal? ==> blocks == []
      ensures o.Normal? || o.Return? ==> functions == [] && |frames| == 1
    {
      hide CellsBelow, BlockRan, StatRan, PathFates, StaticOk, Ready, Covered, GoodFunction, JumpOk, Span, BlockCan,
        StatCan;
      ghost var c := Ctx(map[], [chunk.id], [chunk.id]);
      frames := frames + [map[]];
      bases := [0];
      CellsStart(globals, nextCell);
      ChunkStarts(V(), chunk, c, t);
      o, v := VisitBlock(chunk, c, [], depth);
      if !Fatal(o) {
        ContainedEnds(chunk, o);
      }
    }
  }
}
