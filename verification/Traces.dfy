/** What a run does, statement by statement: the statements of a block in their order, the effect of each on
locals, function values and globals, and the blocks that it visits. */
module Traces {
  import opened Helpers
  import opened Syntax
  import opened Scoping
  import opened Control
  import opened Flow

  /** What a statement can change, apart from the stacks: the stores of the current activation, the function
      values made so far, the globals, and the next cell. */
  datatype Memory = Memory(frame: Frame, created: seq<Closure>, globals: Store, next: Cell)

  /** Statement `index` of a block has run; it declares in the store of block `at`. */
  datatype Step = Step(index: nat, at: BlockId, outcome: Outcome, before: Memory, after: Memory, visits: seq<Visit>)

  /** A block has been visited; `end` is its memory before the block is erased. */
  datatype Visit = Visit(outcome: Outcome, start: Memory, end: Memory, path: seq<Step>)

  // ----- what happens to the memory -----

  /** Function values, globals and cells are never taken back. */
  ghost predicate Grown(a: Memory, z: Memory) {
    a.created <= z.created && a.globals.Keys <= z.globals.Keys && a.next <= z.next
  }

  /** Expressions leave the stores of the activation alone. */
  ghost predicate Evaluated(a: Memory, z: Memory) {
    z.frame == a.frame && Grown(a, z)
  }

  /** The stack was cut: some stores may be erased. */
  ghost predicate Shrunk(f: Frame, g: Frame) {
    forall id :: StoreAt(g, id) == StoreAt(f, id) || StoreAt(g, id) == map[]
  }

  ghost predicate Cleared(a: Memory, z: Memory) {
    Shrunk(a.frame, z.frame) && z == a.(frame := z.frame)
  }

  function Emptied(a: Memory, id: BlockId): Memory {
    a.(frame := Erase(a.frame, [id]))
  }

  function Restricted(store: Store, keep: set<Name>): Store {
    map n | n in store && n in keep :: store[n]
  }

  /** The names that stay in the store of the body between two iterations. */
  function LoopKeeps(k: Kind): set<Name> {
    if k.NumFor? then {k.counter} else {}
  }

  function Continued(a: Memory, body: BlockId, keep: set<Name>): Memory {
    a.(frame := a.frame[body := Restricted(StoreAt(a.frame, body), keep)])
  }

  /** Every one of the names gets a new cell in the store of a block. */
  ghost predicate Bound(a: Memory, id: BlockId, names: seq<Name>, z: Memory) {
    && Grown(a, z) && SameStores(a.frame, z.frame, {id})
    && exists c: Cell :: BoundFrom(a, id, names, z, c)
  }

  ghost predicate BoundFrom(a: Memory, id: BlockId, names: seq<Name>, z: Memory, c: Cell) {
    && a.next <= c
    && StoreAt(z.frame, id) == Declaration(StoreAt(a.frame, id), names, 0, c).0
    && Declaration(StoreAt(a.frame, id), names, 0, c).1 <= z.next
  }

  /** A `local` statement: after its expressions, some of which give values, its names are declared. */
  ghost predicate Declares(a: Memory, id: BlockId, names: seq<Name>, z: Memory) {
    && Grown(a, z) && SameStores(a.frame, z.frame, {id})
    && exists given: nat, c: Cell :: DeclaresFrom(a, id, names, z, given, c)
  }

  ghost predicate DeclaresFrom(a: Memory, id: BlockId, names: seq<Name>, z: Memory, given: nat, c: Cell) {
    && a.next <= c
    && (StoreAt(z.frame, id), z.next) == Declaration(StoreAt(a.frame, id), names, given, c)
  }

  /** The function value that a function body makes here. */
  ghost predicate Makes(n: Node, t: Tables, a: Memory, z: Memory) {
    && n.Func? && n.block.id in t.parents
    && z.created == a.created + [Closure(n.params, n.block, Captured(t.parents[n.block.id], a.frame))]
  }

  // ----- runs of blocks and statements -----

  /** Where a block continues after a statement. */
  function After(b: Block, r: Step): nat {
    if r.outcome.Goto? && r.index < StatCount(b) then
      var i := Target(b, r.index + 1, r.outcome.target) + 1;
      if i < StatCount(b) then i else StatCount(b)
    else r.index + 1
  }

  /** The block goes on after a statement that ends normally, or with a goto whose label it holds. */
  ghost predicate GoesOn(b: Block, r: Step) {
    r.outcome.Normal? || (r.outcome.Goto? && r.outcome.target in LabelNames(b))
  }

  /** A goto makes the block cut the stack; every other end leaves things as they are. */
  ghost predicate Leaves(r: Step, z: Memory) {
    if r.outcome.Goto? then Cleared(r.after, z) else z == r.after
  }

  function Reached(b: Block, path: seq<Step>): nat {
    if path == [] then 0 else After(b, Top(path))
  }

  ghost predicate Stands(start: Memory, path: seq<Step>, z: Memory) {
    if path == [] then z == start else Leaves(Top(path), z)
  }

  /** Step `k` of a path runs the statement at which the block has arrived. */
  ghost predicate StepRuns(b: Block, t: Tables, start: Memory, path: seq<Step>, k: nat)
    requires k < |path|
    decreases b, 0
  {
    && path[k].index < |b.stats| && path[k].index == Reached(b, path[..k])
    && (k > 0 ==> GoesOn(b, path[k - 1])) && Stands(start, path[..k], path[k].before)
    && StatRan(b.stats[path[k].index], t, path[k])
  }

  /** The statements of a block were run in their order, each from the memory that the one before it left,
      with jumps only at a goto whose label the block holds. */
  ghost predicate BlockRan(b: Block, t: Tables, v: Visit)
    decreases b, 1
  {
    && (forall k: nat | k < |v.path| :: StepRuns(b, t, v.start, v.path, k))
    && Stands(v.start, v.path, v.end)
    && (if v.outcome.Normal? then Reached(b, v.path) == |b.stats| && (v.path != [] ==> GoesOn(b, Top(v.path)))
        else v.path != [] && Top(v.path).outcome == v.outcome && !GoesOn(b, Top(v.path)))
  }

  /** The memory behind a block that is not the body of a `for`. */
  function Closed(id: BlockId, v: Visit): Memory {
    if v.outcome.Normal? then Emptied(v.end, id) else v.end
  }

  /** Statement `s` was run. */
  ghost predicate StatRan(s: Stat, t: Tables, r: Step)
    decreases s, 0
  {
    match s.kind
    case Break => r.outcome.Break? && r.after == r.before && r.visits == []
    case Goto(l) => r.outcome == Outcome.Goto(l) && r.after == r.before && r.visits == []
    case Label(_) => r.outcome.Normal? && r.after == r.before && r.visits == []
    case Plain => r.outcome.Normal? && Evaluated(r.before, r.after) && r.visits == []
    case Return => r.outcome.Return? && Evaluated(r.before, r.after) && r.visits == []
    case Local(ns) => r.outcome.Normal? && Declares(r.before, r.at, ns, r.after) && r.visits == []
    case LocalFunction(n) =>
      && r.outcome.Normal? && r.visits == [] && s.nodes != [] && Makes(s.nodes[0], t, r.before, r.after)
      && var store := StoreAt(r.before.frame, r.at)[n := r.before.next];
         r.after == r.before.(frame := r.before.frame[r.at := store], created := r.after.created,
                              next := r.before.next + 1)
    case Function(n) =>
      && r.outcome.Normal? && r.visits == [] && s.nodes != [] && Makes(s.nodes[0], t, r.before, r.after)
      && r.after == r.before.(created := r.after.created, globals := r.before.globals[n := r.before.next],
                              next := r.before.next + 1)
    case Do =>
      && |s.nodes| > 0 && s.nodes[0].Sub? && |r.visits| == 1 && r.visits[0].start == r.before
      && BranchRan(s, 0, t, r)
    case If(otherwise) =>
      if r.visits == [] then !otherwise && r.outcome.Normal? && Evaluated(r.before, r.after)
      else
        && |r.visits| == 1 && Evaluated(r.before, r.visits[0].start)
        && exists j: nat | j < |s.nodes| && s.nodes[j].Sub? :: BranchRan(s, j, t, r)
    case While | Repeat | NumFor(_) | ForIn(_) =>
      && 0 <= BodyIndex(s) < |s.nodes| && s.nodes[BodyIndex(s)].Sub?
      && (forall k: nat | k < |r.visits| :: BlockRan(s.nodes[BodyIndex(s)].block, t, r.visits[k]))
      && LoopRan(s, s.nodes[BodyIndex(s)].block.id, r)
  }

  /** The statement ends as its visit of child `j` does. */
  ghost predicate BranchRan(s: Stat, j: nat, t: Tables, r: Step)
    requires j < |s.nodes| && s.nodes[j].Sub? && |r.visits| == 1
    decreases s, 0, 0
  {
    && BlockRan(s.nodes[j].block, t, r.visits[0])
    && r.outcome == r.visits[0].outcome && r.after == Closed(s.nodes[j].block.id, r.visits[0])
  }

  // ----- loops -----

  /** From where a loop goes on: the memory before it, or the end of the last visit of its body. */
  function Last(before: Memory, visits: seq<Visit>): Memory {
    if visits == [] then before else Top(visits).end
  }

  /** What happens before the body is visited, for the first time or again. */
  ghost predicate Enters(k: Kind, body: BlockId, first: bool, a: Memory, z: Memory)
    requires IsLoop(k)
  {
    match k
    case While => Evaluated(if first then a else Emptied(a, body), z)
    case Repeat => if first then z == a else Evaluated(Emptied(a, body), z)
    case NumFor(n) => if first then Bound(a, body, [n], z) else z == Continued(a, body, LoopKeeps(k))
    case ForIn(ns) => Bound(if first then a else Continued(a, body, LoopKeeps(k)), body, ns, z)
  }

  /** What happens when the body is not visited (again). */
  ghost predicate Finishes(k: Kind, body: BlockId, first: bool, a: Memory, z: Memory)
    requires IsLoop(k)
  {
    match k
    case While => Evaluated(if first then a else Emptied(a, body), z)
    case Repeat => !first && Evaluated(Emptied(a, body), z)
    case NumFor(n) =>
      if first then Grown(a, z) && SameStores(a.frame, z.frame, {body}) && StoreAt(z.frame, body) == map[]
      else z == Emptied(a, body)
    case ForIn(_) => Grown(a, z) && Shrunk(a.frame, z.frame)
  }

  /** The visits of the body follow each other, all but the last one end normally, and a break of the last one
      ends the loop. */
  ghost predicate LoopRan(s: Stat, body: BlockId, r: Step)
    requires IsLoop(s.kind)
  {
    && Rounds(s, body, r.before, r.visits)
    && if r.visits == [] || Top(r.visits).outcome.Normal? then
         r.outcome.Normal? && Finishes(s.kind, body, r.visits == [], Last(r.before, r.visits), r.after)
       else if Top(r.visits).outcome.Break? then
         r.outcome.Normal? && Cleared(Top(r.visits).end, r.after)
       else
         (r.outcome.Goto? || r.outcome.Return?) && r.outcome == Top(r.visits).outcome && r.after == Top(r.visits).end
  }

  ghost predicate Rounds(s: Stat, body: BlockId, before: Memory, visits: seq<Visit>)
    requires IsLoop(s.kind)
  {
    forall k: nat | k < |visits| :: Round(s, body, before, visits, k)
  }

  ghost predicate Round(s: Stat, body: BlockId, before: Memory, visits: seq<Visit>, k: nat)
    requires IsLoop(s.kind) && k < |visits|
  {
    && (k > 0 ==> visits[k - 1].outcome.Normal?)
    && Enters(s.kind, body, k == 0, Last(before, visits[..k]), visits[k].start)
  }

  // ----- the ends of runs -----

  /** A block that was run has ended in a way that its text allows. */
  lemma {:induction false} RanCan(b: Block, t: Tables, v: Visit)
    requires BlockRan(b, t, v)
    ensures BlockCan(b, 0, v.outcome)
    decreases b, |v.path| + 1
  {
    hide StatRan, LabelNames;
    if v.path == [] {
      assert Reached(b, v.path) == 0;
    } else {
      assert StepRuns(b, t, v.start, v.path, 0);
      assert Reached(b, v.path[..0]) == 0;
      PathCan(b, t, v, 0);
    }
  }

  lemma {:induction false} PathCan(b: Block, t: Tables, v: Visit, k: nat)
    requires BlockRan(b, t, v) && k < |v.path|
    ensures BlockCan(b, v.path[k].index, v.outcome)
    decreases b, |v.path| - k
  {
    hide StatRan, LabelNames, StatCan;
    var r := v.path[k];
    assert StepRuns(b, t, v.start, v.path, k);
    StatRanCan(b.stats[r.index], t, r);
    if k + 1 < |v.path| {
      PathCan(b, t, v, k + 1);
      assert StepRuns(b, t, v.start, v.path, k + 1);
      assert Top(v.path[..k + 1]) == r;
    } else {
      if b.stats[r.index].kind.Return? { ReturnEnds(b.stats[r.index], r.outcome); }
    }
    StepCan(b, r, v.outcome);
  }

  lemma ReturnEnds(s: Stat, o: Outcome)
    requires StatCan(s, o) && s.kind.Return?
    ensures o.Return?
  {
  }

  /** What follows one statement. */
  lemma StepCan(b: Block, r: Step, o: Outcome)
    requires r.index < |b.stats| && StatCan(b.stats[r.index], r.outcome)
    requires if GoesOn(b, r) then After(b, r) <= |b.stats| && BlockCan(b, After(b, r), o) else o == r.outcome
    ensures BlockCan(b, r.index, o)
  {
    hide LabelNames;
    if r.index < StatCount(b) {
      assert StepsTo(b, r.index, r.outcome, o);
    } else {
      assert b.stats[StatCount(b)].kind.Return?;
    }
  }

  lemma {:induction false} StatRanCan(s: Stat, t: Tables, r: Step)
    requires StatRan(s, t, r)
    ensures StatCan(s, r.outcome)
    decreases s, 0
  {
    hide BlockRan, Rounds, BlockCan;
    match s.kind
    case Do => RanCan(s.nodes[0].block, t, r.visits[0]);
    case If(_) =>
      if r.visits != [] {
        var j: nat :| j < |s.nodes| && s.nodes[j].Sub? && BranchRan(s, j, t, r);
        RanCan(s.nodes[j].block, t, r.visits[0]);
      }
    case While | Repeat | NumFor(_) | ForIn(_) =>
      if r.visits != [] {
        RanCan(s.nodes[BodyIndex(s)].block, t, Top(r.visits));
      }
    case _ =>
  }

  // ----- what happens to a variable -----

  /** A break of the body ended the loop. */
  ghost predicate Broke(s: Stat, visits: seq<Visit>) {
    IsLoop(s.kind) && visits != [] && Top(visits).outcome.Break?
  }

  /** What a statement did to the locals of its block, in an activation without leftovers: they are lost if a
      break was caught or a goto that comes from a nested block, otherwise they keep their cells unless the
      statement declares them.  It declares names in this block. */
  ghost predicate StepFate(b: Block, r: Step, z: Memory) {
    && r.index < |b.stats| && StatFate(b.stats[r.index], b.id, r)
    && (r.outcome.Goto? ==>
          StoreAt(z.frame, b.id) == if b.stats[r.index].kind.Goto? then StoreAt(r.after.frame, b.id) else map[])
  }

  ghost predicate StatFate(s: Stat, id: BlockId, r: Step) {
    && (r.outcome.Normal? ==> r.at == id)
    && (if r.outcome.Normal? && (Broke(s, r.visits) || s.kind.ForIn?) then StoreAt(r.after.frame, id) == map[]
        else Kept(StoreAt(r.before.frame, id), StoreAt(r.after.frame, id), DeclNames(s.kind)))
  }

  /** The memory in front of the statement that runs next. */
  function Behind(path: seq<Step>, k: nat, end: Memory): Memory {
    if k + 1 < |path| then path[k + 1].before else end
  }

  ghost predicate PathFates(b: Block, path: seq<Step>, end: Memory) {
    forall k: nat | k < |path| :: StepFate(b, path[k], Behind(path, k, end))
  }

  lemma FateNext(b: Block, path: seq<Step>, r: Step, z: Memory)
    requires PathFates(b, path, r.before) && StepFate(b, r, z)
    ensures PathFates(b, path + [r], z)
  {
    hide StepFate;
    var path' := path + [r];
    forall k: nat | k < |path'| ensures StepFate(b, path'[k], Behind(path', k, z)) {
      if k < |path| {
        assert Behind(path', k, z) == Behind(path, k, r.before);
      }
    }
  }

  ghost predicate Has(m: Memory, id: BlockId, n: Name, cell: Cell) {
    n in StoreAt(m.frame, id) && StoreAt(m.frame, id)[n] == cell
  }

  /** The statement takes a variable of block `b` away from its cell: by a caught break, by a goto from a nested
      block, or by a declaration of its name that gives it a new cell. */
  ghost predicate Loses(b: Block, n: Name, r: Step)
    requires r.index < |b.stats|
  {
    var s := b.stats[r.index];
    || (r.outcome.Normal? && (Broke(s, r.visits) || s.kind.ForIn?))
    || (r.outcome.Goto? && !s.kind.Goto?)
    || (n in DeclNames(s.kind) && n in StoreAt(r.before.frame, b.id)
        && !Has(r.after, b.id, n, StoreAt(r.before.frame, b.id)[n]))
  }

  /** None of the first `k` statements of a visit loses the variable. */
  ghost predicate KeptUpTo(b: Block, n: Name, v: Visit, k: nat)
    requires k <= |v.path|
  {
    forall i: nat | i < k && v.path[i].index < |b.stats| :: !Loses(b, n, v.path[i])
  }

  ghost predicate KeptIn(b: Block, n: Name, v: Visit) {
    KeptUpTo(b, n, v, |v.path|)
  }

  function Arrived(v: Visit, k: nat): Memory {
    if k < |v.path| then v.path[k].before else v.end
  }

  /** Function values, globals and cells only grow. */
  lemma {:induction false} StatGrows(s: Stat, t: Tables, r: Step)
    requires StatRan(s, t, r)
    ensures Grown(r.before, r.after)
    decreases s, 0
  {
    hide BlockRan, Rounds;
    match s.kind
    case Do => BlockGrows(s.nodes[0].block, t, r.visits[0]);
    case If(_) =>
      if r.visits != [] {
        var j: nat :| j < |s.nodes| && s.nodes[j].Sub? && BranchRan(s, j, t, r);
        BlockGrows(s.nodes[j].block, t, r.visits[0]);
      }
    case While | Repeat | NumFor(_) | ForIn(_) =>
      var body := s.nodes[BodyIndex(s)].block;
      forall k: nat | k < |r.visits| ensures Grown(r.visits[k].start, r.visits[k].end) {
        BlockGrows(body, t, r.visits[k]);
      }
      RoundsGrow(s, body.id, r.before, r.visits, |r.visits|);
      assert r.visits[..|r.visits|] == r.visits;
    case _ =>
  }

  lemma {:induction false} RoundsGrow(s: Stat, body: BlockId, before: Memory, visits: seq<Visit>, n: nat)
    requires IsLoop(s.kind) && Rounds(s, body, before, visits) && n <= |visits|
    requires forall k: nat | k < |visits| :: Grown(visits[k].start, visits[k].end)
    ensures Grown(before, Last(before, visits[..n]))
  {
    if n > 0 {
      RoundsGrow(s, body, before, visits, n - 1);
      assert Round(s, body, before, visits, n - 1) && Grown(visits[n - 1].start, visits[n - 1].end);
      assert Grown(Last(before, visits[..n - 1]), visits[n - 1].start);
    }
  }

  lemma {:induction false} BlockGrows(b: Block, t: Tables, v: Visit)
    requires BlockRan(b, t, v)
    ensures Grown(v.start, v.end)
    decreases b, |v.path| + 1
  {
    hide StatRan, GoesOn, After;
    if v.path != [] {
      PathGrows(b, t, v, |v.path| - 1);
    }
  }

  lemma {:induction false} PathGrows(b: Block, t: Tables, v: Visit, k: nat)
    requires BlockRan(b, t, v) && k < |v.path|
    ensures Grown(v.start, v.path[k].before) && Grown(v.start, v.path[k].after)
    decreases b, k
  {
    hide StatRan, GoesOn, After;
    assert StepRuns(b, t, v.start, v.path, k);
    StatGrows(b.stats[v.path[k].index], t, v.path[k]);
    if k > 0 {
      PathGrows(b, t, v, k - 1);
      assert Top(v.path[..k]) == v.path[k - 1];
    }
  }

  /** After a statement that lets its block go on, a variable has its old cell exactly when the statement did
      not lose it. */
  lemma StepKeeps(b: Block, t: Tables, r: Step, z: Memory, n: Name, cell: Cell)
    requires r.index < |b.stats| && StatRan(b.stats[r.index], t, r) && Leaves(r, z) && StepFate(b, r, z)
    requires r.outcome.Normal? || r.outcome.Goto?
    requires cell < r.before.next
    ensures Has(z, b.id, n, cell) <==> Has(r.before, b.id, n, cell) && !Loses(b, n, r)
  {
    hide BlockRan, LoopRan;
    var s := b.stats[r.index];
    if n in DeclNames(s.kind) && !(r.outcome.Goto? && s.kind.Goto?) {
      match s.kind
      case Local(ns) =>
        var given: nat, c: Cell :| DeclaresFrom(r.before, r.at, ns, r.after, given, c);
        DeclarationCells(StoreAt(r.before.frame, r.at), ns, given, c, n);
      case LocalFunction(_) =>
    }
  }

  /** After a visit of a block that ends normally, a variable has its old cell exactly when no statement lost
      it. */
  lemma {:induction false} VisitKeeps(b: Block, t: Tables, v: Visit, n: Name, cell: Cell, k: nat)
    requires BlockRan(b, t, v) && v.outcome.Normal? && PathFates(b, v.path, v.end) && cell < v.start.next
    requires k <= |v.path|
    ensures Has(Arrived(v, k), b.id, n, cell) <==> (Has(v.start, b.id, n, cell) && KeptUpTo(b, n, v, k))
  {
    hide StatRan, StepFate, After, Loses, Has, Leaves, LabelNames;
    if k > 0 {
      var r, z := v.path[k - 1], Arrived(v, k);
      VisitKeeps(b, t, v, n, cell, k - 1);
      assert StepRuns(b, t, v.start, v.path, k - 1) && StepFate(b, r, Behind(v.path, k - 1, v.end));
      PathGrows(b, t, v, k - 1);
      if k < |v.path| {
        assert StepRuns(b, t, v.start, v.path, k) && Top(v.path[..k]) == r;
      }
      assert GoesOn(b, r) && Leaves(r, z);
      StepKeeps(b, t, r, z, n, cell);
    } else if v.path != [] {
      assert StepRuns(b, t, v.start, v.path, 0);
    }
  }

  // ----- the variable of a numeric `for` -----

  /** What is known of the visits of a loop's body in an activation without leftovers. */
  ghost predicate BodyFates(s: Stat, visits: seq<Visit>) {
    && 0 <= BodyIndex(s) < |s.nodes|
    && forall k: nat | k < |visits| :: PathFates(s.nodes[BodyIndex(s)].block, visits[k].path, visits[k].end)
  }

  lemma FatesMore(s: Stat, visits: seq<Visit>, v: Visit)
    requires BodyFates(s, visits) && PathFates(s.nodes[BodyIndex(s)].block, v.path, v.end)
    ensures BodyFates(s, visits + [v])
  {
  }

  /** The first visit of the body finds the loop's variable alone, in a cell that is new.  A later one finds
      exactly this variable with this cell if and only if no statement of an iteration has lost it. */
  lemma {:induction false} LoopVariable(s: Stat, t: Tables, r: Step, k: nat)
    requires s.kind.NumFor? && StatRan(s, t, r) && BodyFates(s, r.visits) && k < |r.visits|
    requires StoreAt(r.before.frame, s.nodes[BodyIndex(s)].block.id) == map[]
    ensures var n, body := s.kind.counter, s.nodes[BodyIndex(s)].block;
            && n in StoreAt(r.visits[0].start.frame, body.id)
            && var cell := StoreAt(r.visits[0].start.frame, body.id)[n];
               && r.before.next <= cell < r.visits[0].start.next
               && StoreAt(r.visits[0].start.frame, body.id) == map[n := cell]
               && (StoreAt(r.visits[k].start.frame, body.id) == map[n := cell]
                   <==> forall i: nat | i < k :: KeptIn(body, n, r.visits[i]))
  {
    hide BlockRan, PathFates, KeptUpTo;
    var n, body := s.kind.counter, s.nodes[BodyIndex(s)].block;
    assert Round(s, body.id, r.before, r.visits, k);
    if k == 0 {
      FirstBinding(r.before, body.id, n, r.visits[0].start);
    } else {
      LoopVariable(s, t, r, k - 1);
      var cell := StoreAt(r.visits[0].start.frame, body.id)[n];
      var v := r.visits[k - 1];
      assert BlockRan(body, t, v);
      VisitsGrow(s, t, r, k - 1);
      VisitKeeps(body, t, v, n, cell, |v.path|);
      assert Top(r.visits[..k]) == v;
      assert StoreAt(r.visits[k].start.frame, body.id) == Restricted(StoreAt(v.end.frame, body.id), {n});
      assert Has(v.end, body.id, n, cell) <==> StoreAt(r.visits[k].start.frame, body.id) == map[n := cell];
      OnlyVariable(s, t, r, k - 1);
    }
  }

  lemma FirstBinding(a: Memory, id: BlockId, n: Name, z: Memory)
    requires Bound(a, id, [n], z) && StoreAt(a.frame, id) == map[]
    ensures n in StoreAt(z.frame, id) && a.next <= StoreAt(z.frame, id)[n] < z.next
    ensures StoreAt(z.frame, id) == map[n := StoreAt(z.frame, id)[n]]
  {
    var c: Cell :| BoundFrom(a, id, [n], z, c);
    assert [n][..0] == [];
    assert Declaration(StoreAt(a.frame, id), [n], 0, c) == (map[n := c], c + 1);
  }

  /** Each visit of the body of a numeric `for` finds at most the loop's variable. */
  lemma OnlyVariable(s: Stat, t: Tables, r: Step, k: nat)
    requires s.kind.NumFor? && StatRan(s, t, r) && k < |r.visits|
    requires StoreAt(r.before.frame, s.nodes[BodyIndex(s)].block.id) == map[]
    ensures StoreAt(r.visits[k].start.frame, s.nodes[BodyIndex(s)].block.id).Keys <= {s.kind.counter}
  {
    hide BlockRan;
    var n, id := s.kind.counter, s.nodes[BodyIndex(s)].block.id;
    assert Round(s, id, r.before, r.visits, k);
    if k == 0 {
      FirstBinding(r.before, id, n, r.visits[0].start);
    } else {
      assert Top(r.visits[..k]) == r.visits[k - 1];
    }
  }

  lemma {:induction false} VisitsGrow(s: Stat, t: Tables, r: Step, k: nat)
    requires IsLoop(s.kind) && StatRan(s, t, r) && k < |r.visits|
    ensures Grown(r.visits[0].start, r.visits[k].start)
  {
    hide BlockRan;
    if k > 0 {
      VisitsGrow(s, t, r, k - 1);
      var body := s.nodes[BodyIndex(s)].block;
      assert BlockRan(body, t, r.visits[k - 1]);
      BlockGrows(body, t, r.visits[k - 1]);
      assert Round(s, body.id, r.before, r.visits, k) && Top(r.visits[..k]) == r.visits[k - 1];
    }
  }

  /** No statement of the block can take a variable away from its cell: none of its own statements declares the
      name, is a `for in` or a loop that a break can end, or contains a goto to a label of the block. */
  ghost predicate Steady(b: Block, n: Name) {
    forall i | 0 <= i < |b.stats| ::
      var s := b.stats[i];
      && n !in DeclNames(s.kind) && !s.kind.ForIn? && !BodyBreaks(s)
      && (!s.kind.Goto? ==> StatGotos(s) !! LabelNames(b))
  }

  lemma {:induction false} SteadyKeeps(b: Block, t: Tables, v: Visit, n: Name)
    requires Steady(b, n) && BlockRan(b, t, v) && v.outcome.Normal?
    ensures KeptIn(b, n, v)
  {
    hide BlockRan, BlockCan, StatGotos, LabelNames;
    forall i: nat | i < |v.path| && v.path[i].index < |b.stats| ensures !Loses(b, n, v.path[i]) {
      var r, s := v.path[i], b.stats[v.path[i].index];
      StepOfRun(b, t, v, i);
      if Broke(s, r.visits) {
        BrokeBreaks(s, t, r);
      }
      if r.outcome.Goto? {
        StatRanCan(s, t, r);
        StatEndsAreStatic(s, r.outcome);
      }
    }
  }

  /** Only a loop whose body can end with a break is ended by one. */
  lemma BrokeBreaks(s: Stat, t: Tables, r: Step)
    requires StatRan(s, t, r) && Broke(s, r.visits)
    ensures BodyBreaks(s)
  {
    hide BlockRan, BlockCan;
    RanCan(s.nodes[BodyIndex(s)].block, t, Top(r.visits));
  }

  /** Every step of a block that ends normally lets the block go on. */
  lemma StepOfRun(b: Block, t: Tables, v: Visit, k: nat)
    requires BlockRan(b, t, v) && v.outcome.Normal? && k < |v.path|
    ensures v.path[k].index < |b.stats| && StatRan(b.stats[v.path[k].index], t, v.path[k]) && GoesOn(b, v.path[k])
  {
    hide StatRan, GoesOn, After;
    assert StepRuns(b, t, v.start, v.path, k);
    if k + 1 < |v.path| {
      assert StepRuns(b, t, v.start, v.path, k + 1);
    }
  }

  /** Then every visit finds exactly the variable of the loop, with one cell throughout. */
  lemma SteadyVariable(s: Stat, t: Tables, r: Step, k: nat)
    requires s.kind.NumFor? && StatRan(s, t, r) && BodyFates(s, r.visits) && k < |r.visits|
    requires StoreAt(r.before.frame, s.nodes[BodyIndex(s)].block.id) == map[]
    requires Steady(s.nodes[BodyIndex(s)].block, s.kind.counter)
    ensures var n, id := s.kind.counter, s.nodes[BodyIndex(s)].block.id;
            && n in StoreAt(r.visits[0].start.frame, id)
            && StoreAt(r.visits[k].start.frame, id) == map[n := StoreAt(r.visits[0].start.frame, id)[n]]
  {
    hide PathFates, BlockRan, Steady, KeptUpTo;
    var body := s.nodes[BodyIndex(s)].block;
    LoopVariable(s, t, r, k);
    forall i: nat | i < k ensures KeptIn(body, s.kind.counter, r.visits[i]) {
      assert Round(s, body.id, r.before, r.visits, i + 1) && BlockRan(body, t, r.visits[i]);
      SteadyKeeps(body, t, r.visits[i], s.kind.counter);
    }
  }

  /** `for i = 0, 10 do while true do break end; print(i) end`: the break, caught in the body, erases `i`, and the
      next iteration does not find it. */
  lemma InnerBreakLosesVariable(inner: Block, body: Block, t: Tables, m: Memory, cell: Cell, broken: Step, v: Visit)
    requires inner == Block(2, [Stat(Kind.Break, [])])
    requires body == Block(1, [Stat(Kind.While, [Sub(inner)]), Stat(Kind.Plain, [])])
    requires m.frame == map[1 := map["i" := cell]]
    requires broken == Step(0, 1, Normal, m, m.(frame := map[]),
                            [Visit(Outcome.Break, m, m, [Step(0, 2, Outcome.Break, m, m, [])])])
    requires v == Visit(Normal, m, broken.after, [broken, Step(1, 1, Normal, broken.after, broken.after, [])])
    ensures WellFormed(body) && BlockRan(body, t, v) && PathFates(body, v.path, v.end)
    ensures Loses(body, "i", broken)
    ensures StoreAt(Continued(v.end, 1, {"i"}).frame, 1) == map[]
  {
    hide BlockRan, StatRan, WellFormed, PathFates;
    BreakingTree(inner, body);
    BreakingVisit(inner, t, m);
    var loop := body.stats[0];
    LoopStarts(loop, t, m);
    LoopVisit(loop, t, m, [], broken.visits[0], broken);
    SimpleRan(body.stats[1], t, v.path[1]);
    NoPath(body, t, m);
    NoFates(body, m);
    assert [broken] == [] + [broken] && v.path == [broken] + [v.path[1]];
    assert Kept(StoreAt(broken.after.frame, 1), StoreAt(broken.after.frame, 1), []);
    PathAdds(body, t, m, [], broken, broken.after, true);
    PathAdds(body, t, m, [broken], v.path[1], broken.after, true);
    PathEnds(body, t, m, v.path, broken.after);
  }

  lemma BreakingTree(inner: Block, body: Block)
    requires inner == Block(2, [Stat(Kind.Break, [])])
    requires body == Block(1, [Stat(Kind.While, [Sub(inner)]), Stat(Kind.Plain, [])])
    ensures WellFormed(body) && Shaped(body.stats[0])
  {
    assert WellFormedStat(inner.stats[0]) && WellFormed(inner);
    assert body.stats[0].nodes[0].block == inner;
    assert WellFormedStat(body.stats[0]) && WellFormedStat(body.stats[1]);
  }

  lemma BreakingVisit(inner: Block, t: Tables, m: Memory)
    requires inner == Block(2, [Stat(Kind.Break, [])])
    ensures BlockRan(inner, t, Visit(Outcome.Break, m, m, [Step(0, 2, Outcome.Break, m, m, [])]))
  {
    hide BlockRan, StatRan;
    var r := Step(0, 2, Outcome.Break, m, m, []);
    SimpleRan(inner.stats[0], t, r);
    NoPath(inner, t, m);
    PathAdds(inner, t, m, [], r, m, false);
    assert [] + [r] == [r];
  }

  /** A block with one statement that ends normally. */
  lemma OneStep(body: Block, t: Tables, m: Memory, r: Step)
    requires |body.stats| == 1 && !body.stats[0].kind.Return? && r.index == 0 && r.before == m && r.outcome.Normal?
    requires StatRan(body.stats[0], t, r) && StepFate(body, r, r.after)
    ensures BlockRan(body, t, Visit(Normal, m, r.after, [r])) && PathFates(body, [r], r.after)
  {
    hide BlockRan, StatRan, PathFates, StepFate;
    NoPath(body, t, m);
    NoFates(body, m);
    PathAdds(body, t, m, [], r, r.after, true);
    assert [] + [r] == [r];
    PathEnds(body, t, m, [r], r.after);
  }

  lemma SecondGetsNone(a: Name, i: Name, cell: Cell, next: Cell)
    requires a != i
    ensures Declaration(map[i := cell], [a, i], 1, next) == (map[a := next, i := next + 1], next + 2)
  {
    var names := [a, i];
    assert names[..0] == [] && names[..2] == names;
    DeclarationStep(map[i := cell], names, 0, 1, next);
    DeclarationStep(map[i := cell], names, 1, 1, next);
    assert map[i := cell][a := next][i := next + 1] == map[a := next, i := next + 1];
  }

  lemma OnlyOne(a: Name, i: Name, x: Cell, y: Cell)
    requires a != i
    ensures Restricted(map[a := x, i := y], {i}) == map[i := y]
  {
  }

  lemma RedeclaredFate(s: Stat, m: Memory, cell: Cell, r: Step)
    requires s == Stat(Kind.Local(["a", "i"]), []) && m.frame == map[1 := map["i" := cell]]
    requires r.at == 1 && r.outcome.Normal? && r.before == m
    requires r.after.frame == map[1 := map["a" := m.next, "i" := m.next + 1]]
    ensures StatFate(s, 1, r)
  {
    assert ["a", "i"][0] in ["a", "i"] && ["a", "i"][1] in ["a", "i"];
  }

  /** `for i = 0, 10 do local a, i = 1 end`: the second name gets no value but a new cell, and the next iteration
      finds this one. */
  lemma RedeclarationLosesVariable(body: Block, t: Tables, m: Memory, cell: Cell, r: Step)
    requires body == Block(1, [Stat(Kind.Local(["a", "i"]), [])])
    requires m.frame == map[1 := map["i" := cell]] && cell < m.next
    requires r == Step(0, 1, Normal, m, m.(frame := map[1 := map["a" := m.next, "i" := m.next + 1]],
                                           next := m.next + 2), [])
    ensures BlockRan(body, t, Visit(Normal, m, r.after, [r])) && PathFates(body, [r], r.after)
    ensures Loses(body, "i", r)
    ensures StoreAt(Continued(r.after, 1, {"i"}).frame, 1) == map["i" := m.next + 1]
  {
    hide BlockRan, StatRan, PathFates, Declaration, StatFate, Restricted;
    assert "a" != "i";
    RedeclaredFate(body.stats[0], m, cell, r);
    OnlyOne("a", "i", m.next, m.next + 1);
    SecondGetsNone("a", "i", cell, m.next);
    LocalRan(body.stats[0], t, r, m, 1);
    OneStep(body, t, m, r);
  }

  // ----- building a run -----

  /** The statements run so far have led to memory `z`, in front of statement `i`. */
  ghost predicate PathTo(b: Block, t: Tables, start: Memory, path: seq<Step>, z: Memory, i: nat) {
    && (forall k: nat | k < |path| :: StepRuns(b, t, start, path, k))
    && Stands(start, path, z) && Reached(b, path) == i && (path != [] ==> GoesOn(b, Top(path)))
  }

  lemma PathNext(b: Block, t: Tables, start: Memory, path: seq<Step>, r: Step, z: Memory)
    requires PathTo(b, t, start, path, r.before, r.index) && r.index < |b.stats|
    requires StatRan(b.stats[r.index], t, r) && Leaves(r, z)
    ensures GoesOn(b, r) ==> PathTo(b, t, start, path + [r], z, After(b, r))
    ensures !GoesOn(b, r) ==> BlockRan(b, t, Visit(r.outcome, start, z, path + [r]))
  {
    hide StatRan, LabelNames, Leaves, After;
    var path' := path + [r];
    forall k: nat | k < |path'| ensures StepRuns(b, t, start, path', k) {
      assert path'[..k] == path[..k];
      if k < |path| {
        assert StepRuns(b, t, start, path, k);
      } else {
        assert path[..k] == path;
      }
    }
  }

  lemma PathEnds(b: Block, t: Tables, start: Memory, path: seq<Step>, z: Memory)
    requires PathTo(b, t, start, path, z, |b.stats|)
    ensures BlockRan(b, t, Visit(Normal, start, z, path))
  {
  }

  lemma {:induction false} RoundsMore(s: Stat, body: BlockId, before: Memory, visits: seq<Visit>, v: Visit)
    requires IsLoop(s.kind) && Rounds(s, body, before, visits) && (visits != [] ==> Top(visits).outcome.Normal?)
    requires Enters(s.kind, body, visits == [], Last(before, visits), v.start)
    ensures Rounds(s, body, before, visits + [v])
  {
    hide Enters;
    var visits' := visits + [v];
    forall k: nat | k < |visits'| ensures Round(s, body, before, visits', k) {
      assert visits'[..k] == visits[..k];
      if k < |visits| {
        assert Round(s, body, before, visits, k);
      } else {
        assert visits[..k] == visits;
      }
    }
  }

  // ----- what runs, and what is skipped -----

  /** Statements run in their order and at most once in a visit, and none that a caught goto jumps over. */
  lemma {:induction false} SkippedDoNotRun(b: Block, t: Tables, v: Visit, i: nat, k: nat)
    requires BlockRan(b, t, v) && i < k < |v.path|
    ensures v.path[i].index < After(b, v.path[i]) <= v.path[k].index
    decreases k
  {
    hide StatRan, GoesOn;
    assert StepRuns(b, t, v.start, v.path, k) && Top(v.path[..k]) == v.path[k - 1];
    assert StepRuns(b, t, v.start, v.path, i);
    if i < k - 1 {
      SkippedDoNotRun(b, t, v, i, k - 1);
      assert StepRuns(b, t, v.start, v.path, k - 1);
    }
  }

  /** In a block that ends normally, every statement runs unless a caught goto jumps over it. */
  lemma {:induction false} OthersRun(b: Block, t: Tables, v: Visit, n: nat, i: nat)
    requires BlockRan(b, t, v) && n <= |v.path| && i < Reached(b, v.path[..n])
    ensures exists k: nat | k < n :: v.path[k].index == i || v.path[k].index < i < After(b, v.path[k])
    decreases n
  {
    hide StatRan, GoesOn, After;
    if n > 0 {
      assert StepRuns(b, t, v.start, v.path, n - 1) && Top(v.path[..n]) == v.path[n - 1];
      if i < v.path[n - 1].index {
        OthersRun(b, t, v, n - 1, i);
      }
    }
  }

  /** A statement of a block that ends normally runs exactly once, or it is jumped over. */
  lemma RunsOrIsSkipped(b: Block, t: Tables, v: Visit, i: nat)
    requires BlockRan(b, t, v) && v.outcome.Normal? && i < |b.stats|
    ensures (exists k: nat | k < |v.path| :: v.path[k].index == i)
      <==> !(exists k: nat | k < |v.path| :: v.path[k].index < i < After(b, v.path[k]))
    ensures forall k: nat, j: nat | k < |v.path| && j < |v.path| && v.path[k].index == v.path[j].index :: k == j
  {
    hide StatRan, GoesOn, After;
    assert v.path[..|v.path|] == v.path;
    OthersRun(b, t, v, |v.path|, i);
    forall k: nat, j: nat | k < |v.path| && j < |v.path| && k < j
      ensures v.path[k].index < After(b, v.path[k]) <= v.path[j].index
    {
      SkippedDoNotRun(b, t, v, k, j);
    }
  }

  /** After a caught goto, all statements but the return statement are skipped, if its label has no colon in
      front. */
  lemma CaughtGotoSkipsTheRest(b: Block, t: Tables, v: Visit, i: nat, k: nat)
    requires BlockRan(b, t, v) && i < k < |v.path| && v.path[i].outcome.Goto?
    requires var l := v.path[i].outcome.target; l == "" || l[0] != ':'
    ensures k == i + 1 && v.path[k].index == StatCount(b) < |b.stats|
  {
    hide StatRan, GoesOn;
    SkippedDoNotRun(b, t, v, i, i + 1);
    assert StepRuns(b, t, v.start, v.path, i);
    SkippedDoNotRun(b, t, v, i, k);
    assert StepRuns(b, t, v.start, v.path, k);
    assert StepRuns(b, t, v.start, v.path, i + 1);
    if v.path[i].index < StatCount(b) {
      TargetIsNeverFound(b, v.path[i].index + 1, v.path[i].outcome.target);
    }
    if i + 1 < k {
      SkippedDoNotRun(b, t, v, i + 1, k);
    }
  }

  // ----- steps of the interpreter -----

  /** A block was visited from memory `a` to memory `z`; the body of a `for` is not erased. */
  ghost predicate Visited(b: Block, t: Tables, o: Outcome, a: Memory, v: Visit, z: Memory, stays: bool) {
    && BlockRan(b, t, v) && v.outcome == o && v.start == a
    && z == if stays then v.end else Closed(b.id, v)
  }

  /** A function was called: its parameters got new cells, one each, in a frame of their own, its body was run, and
      the caller's locals are what they were. */
  ghost predicate Called(f: Closure, t: Tables, a: Memory, v: Visit, z: Memory) {
    && BlockRan(f.body, t, v) && (v.outcome.Normal? || v.outcome.Return?)
    && v.start.created == a.created && v.start.globals == a.globals
    && SameStores(map[], v.start.frame, {f.body.id})
    && (StoreAt(v.start.frame, f.body.id), v.start.next) == Declaration(map[], f.params, 0, a.next)
    && z == v.end.(frame := a.frame)
  }

  lemma DoRan(s: Stat, t: Tables, r: Step, v: Visit)
    requires s.kind.Do? && |s.nodes| > 0 && s.nodes[0].Sub? && r.visits == [v]
    requires Visited(s.nodes[0].block, t, r.outcome, r.before, v, r.after, false)
    ensures StatRan(s, t, r)
  {
    hide BlockRan;
  }

  lemma IfRan(s: Stat, j: nat, t: Tables, r: Step, v: Visit, m: Memory)
    requires s.kind.If? && j < |s.nodes| && s.nodes[j].Sub? && r.visits == [v] && Evaluated(r.before, m)
    requires Visited(s.nodes[j].block, t, r.outcome, m, v, r.after, false)
    ensures StatRan(s, t, r)
  {
    hide BlockRan;
    assert BranchRan(s, j, t, r);
  }

  lemma AtIndex(s: Stat, t: Tables, r: Step, i: nat)
    requires StatRan(s, t, r)
    ensures StatRan(s, t, r.(index := i))
  {
    hide BlockRan, Rounds;
    if s.kind.If? && r.visits != [] {
      var j: nat :| j < |s.nodes| && s.nodes[j].Sub? && BranchRan(s, j, t, r);
      assert BranchRan(s, j, t, r.(index := i));
    }
  }

  lemma StabilizedClears(v: View, context: BlockId)
    requires v.frames != [] && context in v.blocks
    ensures Stabilized(v, context).frames != [] && Shrunk(Top(v.frames), Top(Stabilized(v, context).frames))
  {
    hide LastIndex;
  }

  /** The visits of a loop's body so far all ended normally. */
  ghost predicate LoopTo(s: Stat, t: Tables, before: Memory, visits: seq<Visit>) {
    && IsLoop(s.kind) && 0 <= BodyIndex(s) < |s.nodes| && s.nodes[BodyIndex(s)].Sub?
    && Rounds(s, s.nodes[BodyIndex(s)].block.id, before, visits)
    && (visits != [] ==> Top(visits).outcome.Normal?)
    && (forall k: nat | k < |visits| :: BlockRan(s.nodes[BodyIndex(s)].block, t, visits[k]))
  }

  lemma LoopStarts(s: Stat, t: Tables, before: Memory)
    requires IsLoop(s.kind) && Shaped(s)
    ensures LoopTo(s, t, before, []) && BodyFates(s, [])
  {
  }

  /** One more visit of the body; it may end the loop. */
  lemma LoopVisit(s: Stat, t: Tables, before: Memory, visits: seq<Visit>, v: Visit, r: Step)
    requires LoopTo(s, t, before, visits) && BlockRan(s.nodes[BodyIndex(s)].block, t, v)
    requires Enters(s.kind, s.nodes[BodyIndex(s)].block.id, visits == [], Last(before, visits), v.start)
    ensures v.outcome.Normal? ==> LoopTo(s, t, before, visits + [v])
    ensures r.before == before && r.visits == visits + [v] && LoopStops(v, r.outcome, r.after) ==> StatRan(s, t, r)
  {
    hide BlockRan, Enters, Rounds, Finishes;
    RoundsMore(s, s.nodes[BodyIndex(s)].block.id, before, visits, v);
  }

  /** A visit that ends a loop: by a break, or by a goto or a return. */
  ghost predicate LoopStops(v: Visit, o: Outcome, z: Memory) {
    if v.outcome.Break? then o.Normal? && Cleared(v.end, z)
    else (o.Goto? || o.Return?) && v.outcome == o && z == v.end
  }

  lemma LoopFinishes(s: Stat, t: Tables, r: Step)
    requires LoopTo(s, t, r.before, r.visits) && r.outcome.Normal?
    requires Finishes(s.kind, s.nodes[BodyIndex(s)].block.id, r.visits == [], Last(r.before, r.visits), r.after)
    ensures StatRan(s, t, r)
  {
    hide BlockRan, Finishes, Rounds;
  }

  /** The body of a numeric `for` is erased when the loop is left. */
  lemma ForFinishes(s: Stat, before: Memory, visits: seq<Visit>, m: Memory)
    requires s.kind.NumFor? && 0 <= BodyIndex(s) < |s.nodes|
    requires Enters(s.kind, s.nodes[BodyIndex(s)].block.id, visits == [], Last(before, visits), m)
    ensures Finishes(s.kind, s.nodes[BodyIndex(s)].block.id, visits == [], Last(before, visits),
                     Emptied(m, s.nodes[BodyIndex(s)].block.id))
  {
    var id, a := s.nodes[BodyIndex(s)].block.id, Last(before, visits);
    assert id in [id];
    if visits != [] {
      assert Erase(m.frame, [id]) == Erase(a.frame, [id]);
    }
  }

  /** Where the iterator of a `for in` is called, for the first time or again. */
  ghost predicate Iterates(s: Stat, before: Memory, visits: seq<Visit>, m: Memory)
    requires 0 <= BodyIndex(s) < |s.nodes|
  {
    var a := Last(before, visits);
    Evaluated(if visits == [] then a else Continued(a, s.nodes[BodyIndex(s)].block.id, LoopKeeps(s.kind)), m)
  }

  lemma IteratesLater(s: Stat, before: Memory, visits: seq<Visit>, m: Memory, z: Memory)
    requires 0 <= BodyIndex(s) < |s.nodes| && Iterates(s, before, visits, m) && Evaluated(m, z)
    ensures Iterates(s, before, visits, z)
  {
  }

  lemma IteratesFirst(s: Stat, before: Memory, m: Memory)
    requires 0 <= BodyIndex(s) < |s.nodes| && Evaluated(before, m)
    ensures Iterates(s, before, [], m)
  {
  }

  lemma IteratesAgain(s: Stat, before: Memory, visits: seq<Visit>, v: Visit)
    requires 0 <= BodyIndex(s) < |s.nodes|
    ensures Iterates(s, before, visits + [v], Continued(v.end, s.nodes[BodyIndex(s)].block.id, LoopKeeps(s.kind)))
  {
  }

  lemma ForInEnters(s: Stat, before: Memory, visits: seq<Visit>, m: Memory, z: Memory)
    requires s.kind.ForIn? && 0 <= BodyIndex(s) < |s.nodes| && Iterates(s, before, visits, m)
    requires Bound(m, s.nodes[BodyIndex(s)].block.id, s.kind.names, z)
    ensures Enters(s.kind, s.nodes[BodyIndex(s)].block.id, visits == [], Last(before, visits), z)
  {
    hide Declaration;
    var id, a := s.nodes[BodyIndex(s)].block.id, Last(before, visits);
    var a' := if visits == [] then a else Continued(a, id, LoopKeeps(s.kind));
    var c: Cell :| BoundFrom(m, id, s.kind.names, z, c);
    assert BoundFrom(a', id, s.kind.names, z, c);
  }

  lemma ForInFinishes(s: Stat, before: Memory, visits: seq<Visit>, m: Memory, z: Memory)
    requires s.kind.ForIn? && 0 <= BodyIndex(s) < |s.nodes| && Iterates(s, before, visits, m) && Cleared(m, z)
    ensures Finishes(s.kind, s.nodes[BodyIndex(s)].block.id, visits == [], Last(before, visits), z)
  {
    var id, a := s.nodes[BodyIndex(s)].block.id, Last(before, visits);
    assert forall x :: StoreAt(m.frame, x) == StoreAt(a.frame, x) || StoreAt(m.frame, x) == map[];
  }

  /** The visits of the body of a numeric `for` all find exactly its variable, with the same cell. */
  ghost predicate AlwaysAlone(s: Stat, visits: seq<Visit>, cell: Cell)
    requires s.kind.NumFor? && 0 <= BodyIndex(s) < |s.nodes|
  {
    forall k: nat | k < |visits| ::
      StoreAt(visits[k].start.frame, s.nodes[BodyIndex(s)].block.id) == map[s.kind.counter := cell]
  }

  lemma LoopIsSteady(s: Stat, t: Tables, r: Step)
    requires s.kind.NumFor? && StatRan(s, t, r) && BodyFates(s, r.visits)
    requires StoreAt(r.before.frame, s.nodes[BodyIndex(s)].block.id) == map[]
    ensures Steady(s.nodes[BodyIndex(s)].block, s.kind.counter) ==>
              exists cell: Cell :: r.before.next <= cell && AlwaysAlone(s, r.visits, cell)
  {
    hide PathFates, BlockRan, Steady, LoopRan, BodyFates;
    var body := s.nodes[BodyIndex(s)].block;
    if Steady(body, s.kind.counter) {
      if r.visits == [] {
        assert AlwaysAlone(s, r.visits, r.before.next);
      } else {
        LoopVariable(s, t, r, 0);
        var cell := StoreAt(r.visits[0].start.frame, body.id)[s.kind.counter];
        forall k: nat | k < |r.visits|
          ensures StoreAt(r.visits[k].start.frame, body.id) == map[s.kind.counter := cell]
        {
          SteadyVariable(s, t, r, k);
        }
        assert AlwaysAlone(s, r.visits, cell);
      }
    }
  }

  /** Names that are bound get new cells, different names different ones. */
  lemma BoundStore(store: Store, names: seq<Name>, next: Cell)
    ensures var (s, c) := Declaration(store, names, 0, next);
            && s.Keys == store.Keys + (set n | n in names) && Kept(store, s, names) && next <= c
            && (forall n | n in names :: next <= s[n] < c)
            && (forall n, m | n in names && m in names && n != m :: s[n] != s[m])
  {
    hide Declaration;
    var (s, c) := Declaration(store, names, 0, next);
    DeclarationCells(store, names, 0, next, "");
    forall n: Name
      ensures n in s <==> n in store || n in names
      ensures n in names ==> n in s && next <= s[n] < c
      ensures n !in names && n in store ==> s[n] == store[n]
    {
      DeclarationCells(store, names, 0, next, n);
    }
    forall n, m | n in names && m in names && n != m ensures s[n] != s[m] {
      DeclarationDistinct(store, names, next, n, m);
    }
  }

  /** A declaration adds its names and keeps the others. */
  lemma DeclaredStore(store: Store, names: seq<Name>, given: nat, next: Cell)
    ensures var (s, c) := Declaration(store, names, given, next);
            s.Keys == store.Keys + (set n | n in names) && Kept(store, s, names) && next <= c
  {
    hide Declaration;
    var (s, c) := Declaration(store, names, given, next);
    DeclarationCells(store, names, given, next, "");
    forall n: Name
      ensures n in s <==> n in store || n in names
      ensures n !in names && n in store ==> s[n] == store[n]
    {
      DeclarationCells(store, names, given, next, n);
    }
  }

  lemma DeclaredOne(store: Store, n: Name, next: Cell)
    ensures Declaration(store, [n], 0, next) == (store[n := next], next + 1)
  {
    assert [n][..0] == [];
  }

  lemma BoundBetween(a: Memory, m: Memory, id: BlockId, names: seq<Name>, y: Memory, z: Memory)
    requires Evaluated(a, m) && Bound(m, id, names, y) && Evaluated(y, z)
    ensures Bound(a, id, names, z)
  {
    hide Declaration;
    var c: Cell :| BoundFrom(m, id, names, y, c);
    assert BoundFrom(a, id, names, z, c);
  }

  lemma BoundThen(a: Memory, id: BlockId, names: seq<Name>, y: Memory, z: Memory)
    requires Bound(a, id, names, y) && Evaluated(y, z)
    ensures Bound(a, id, names, z)
  {
    BoundBetween(a, a, id, names, y, z);
  }

  /** One more statement of a block has run. */
  lemma PathAdds(b: Block, t: Tables, start: Memory, path: seq<Step>, r: Step, z: Memory, clean: bool)
    requires PathTo(b, t, start, path, r.before, r.index) && r.index < |b.stats|
    requires StatRan(b.stats[r.index], t, r) && Leaves(r, z)
    requires clean ==> PathFates(b, path, r.before) && StepFate(b, r, z)
    ensures GoesOn(b, r) ==> PathTo(b, t, start, path + [r], z, After(b, r))
    ensures !GoesOn(b, r) ==> BlockRan(b, t, Visit(r.outcome, start, z, path + [r]))
    ensures clean ==> PathFates(b, path + [r], z)
  {
    hide PathTo, StatRan, Leaves, StepFate, PathFates, GoesOn, BlockRan;
    PathNext(b, t, start, path, r, z);
    if clean {
      FateNext(b, path, r, z);
    }
  }

  lemma StepsFate(o: Outcome, mid: View, post: View, s: Stat, id: BlockId, r: Step)
    requires StatPost(o, mid, post, s, id) && Fate(o, mid, post, s, id, Broke(s, r.visits)) && r.outcome == o
    requires mid.frames != [] && mid.blocks != [] && Top(mid.blocks) == id && r.before.frame == Top(mid.frames)
    requires !Fatal(o) ==> post.frames != [] && r.after.frame == Top(post.frames)
    requires post.blocks != [] ==> r.at == Top(post.blocks)
    ensures !Fatal(o) ==> StatFate(s, id, r)
  {
  }

  lemma FateBroke(o: Outcome, pre: View, post: View, s: Stat, id: BlockId, broke: bool)
    requires Fate(o, pre, post, s, id, false) && (broke ==> Fatal(o))
    ensures Fate(o, pre, post, s, id, broke)
  {
  }

  lemma KeepsHeadNames(k: Kind)
    ensures LoopKeeps(k) <= set n | n in HeadNames(k)
  {
  }

  /** Statements without nested blocks that declare nothing. */
  lemma SimpleRan(s: Stat, t: Tables, r: Step)
    requires r.visits == []
    requires match s.kind
             case Break => r.outcome.Break? && r.after == r.before
             case Goto(l) => r.outcome == Outcome.Goto(l) && r.after == r.before
             case Label(_) => r.outcome.Normal? && r.after == r.before
             case Plain => r.outcome.Normal? && Evaluated(r.before, r.after)
             case Return => r.outcome.Return? && Evaluated(r.before, r.after)
             case If(otherwise) => !otherwise && r.outcome.Normal? && Evaluated(r.before, r.after)
             case _ => false
    ensures StatRan(s, t, r)
  {
  }

  lemma LocalRan(s: Stat, t: Tables, r: Step, m: Memory, given: nat)
    requires s.kind.Local? && r.outcome.Normal? && r.visits == [] && Evaluated(r.before, m)
    requires SameStores(m.frame, r.after.frame, {r.at}) && r.after == m.(frame := r.after.frame, next := r.after.next)
    requires m.next <= r.after.next && (StoreAt(r.after.frame, r.at), r.after.next)
                                       == Declaration(StoreAt(m.frame, r.at), s.kind.locals, given, m.next)
    ensures StatRan(s, t, r)
  {
    hide Declaration;
    assert DeclaresFrom(r.before, r.at, s.kind.locals, r.after, given, m.next);
  }

  lemma LocalFunctionRan(s: Stat, t: Tables, r: Step)
    requires s.kind.LocalFunction? && r.outcome.Normal? && r.visits == [] && s.nodes != []
    requires Makes(s.nodes[0], t, r.before, r.after) && r.after.globals == r.before.globals
    requires r.after.frame == r.before.frame[r.at := StoreAt(r.after.frame, r.at)]
    requires (StoreAt(r.after.frame, r.at), r.after.next)
          == Declaration(StoreAt(r.before.frame, r.at), [s.kind.lname], 0, r.before.next)
    ensures StatRan(s, t, r)
  {
    hide Declaration, Captured;
    DeclaredOne(StoreAt(r.before.frame, r.at), s.kind.lname, r.before.next);
  }

  lemma FunctionRan(s: Stat, t: Tables, r: Step)
    requires s.kind.Function? && r.outcome.Normal? && r.visits == [] && s.nodes != []
    requires Makes(s.nodes[0], t, r.before, r.after)
        && r.after.globals == r.before.globals[s.kind.fname := r.before.next]
    requires r.after.frame == r.before.frame && r.after.next == r.before.next + 1
    ensures StatRan(s, t, r)
  {
    hide Captured;
  }

  lemma CallRan(f: Closure, t: Tables, o: Outcome, a: Memory, m: Memory, v: Visit, y: Memory, z: Memory)
    requires (o.Normal? || o.Return?) && Visited(f.body, t, o, m, v, y, false)
    requires m.created == a.created && m.globals == a.globals && SameStores(map[], m.frame, {f.body.id})
    requires (StoreAt(m.frame, f.body.id), m.next) == Declaration(map[], f.params, 0, a.next)
    requires z == y.(frame := a.frame)
    ensures Called(f, t, a, v, z)
  {
    hide BlockRan, Declaration;
  }

  lemma NoFates(b: Block, z: Memory)
    ensures PathFates(b, [], z)
  {
  }

  lemma NoPath(b: Block, t: Tables, z: Memory)
    ensures PathTo(b, t, z, [], z, 0)
  {
  }

  lemma StepIs(b: Block, r: Step, z: Memory)
    requires r.index < |b.stats| && StatFate(b.stats[r.index], b.id, r)
    requires r.outcome.Goto? ==>
               StoreAt(z.frame, b.id) == if b.stats[r.index].kind.Goto? then StoreAt(r.after.frame, b.id) else map[]
    ensures StepFate(b, r, z)
  {
  }

  /** A caught goto goes on behind its target. */
  lemma AfterGoto(b: Block, r: Step, next: nat)
    requires r.outcome.Goto? && r.index < StatCount(b) && next == Target(b, r.index + 1, r.outcome.target)
    ensures After(b, r) == if next + 1 < StatCount(b) then next + 1 else StatCount(b)
  {
  }

  lemma GotoLeaves(b: Block, r: Step, z: Memory)
    requires r.outcome.Goto? && Cleared(r.after, z)
    ensures Leaves(r, z) && (GoesOn(b, r) <==> r.outcome.target in LabelNames(b))
  {
  }

  lemma OthersLeave(b: Block, r: Step)
    requires !r.outcome.Goto?
    ensures Leaves(r, r.after) && (GoesOn(b, r) <==> r.outcome.Normal?) && After(b, r) == r.index + 1
  {
  }

  /** The end of a visit, behind its statements. */
  lemma VisitEnds(b: Block, t: Tables, o: Outcome, a: Memory, v: Visit, m: Memory, z: Memory, stays: bool)
    requires Visited(b, t, o, a, v, m, true)
    requires z == if o.Normal? && !stays then Emptied(m, b.id) else m
    ensures Visited(b, t, o, a, v, z, stays)
  {
  }

  lemma VisitCan(b: Block, t: Tables, o: Outcome, a: Memory, v: Visit, z: Memory, stays: bool)
    requires Visited(b, t, o, a, v, z, stays)
    ensures BlockCan(b, 0, o)
  {
    RanCan(b, t, v);
  }
}
