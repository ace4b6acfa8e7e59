/** The parse tree of a Lua program, as far as scoping and control flow look at it.

A block is known by its identity, as in the program, where a block is a pointer
to its parse-tree node.  The children of a statement are kept in source order:
nested blocks, and the function bodies that occur in its expressions. */
module Syntax {

  type BlockId = int
  type Name = string

  datatype Block = Block(id: BlockId, stats: seq<Stat>)

  datatype Stat = Stat(kind: Kind, nodes: seq<Node>)

  datatype Node =
    | Sub(block: Block)                        // a block of the same function
    | Func(params: seq<Name>, block: Block)    // a function body

  datatype Kind =
    | Plain                                    // ';', assignment, function call
    | Label(mark: Name)
    | Break
    | Goto(target: Name)
    | Do
    | While
    | Repeat
    | If(otherwise: bool)                      // with or without an else part
    | NumFor(counter: Name)
    | ForIn(names: seq<Name>)
    | Function(fname: Name)
    | LocalFunction(lname: Name)
    | Local(locals: seq<Name>)
    | Return

  predicate IsLoop(k: Kind) {
    k.While? || k.Repeat? || k.NumFor? || k.ForIn?
  }

  /** Names that a statement adds to the block it stands in. */
  function DeclNames(k: Kind): seq<Name> {
    match k
    case Local(ns) => ns
    case LocalFunction(n) => [n]
    case _ => []
  }

  /** Names that a `for` adds to its body. */
  function HeadNames(k: Kind): seq<Name> {
    match k
    case NumFor(n) => [n]
    case ForIn(ns) => ns
    case _ => []
  }

  /** Names that are local to the block of a node before its first statement. */
  function EntryNames(k: Kind, n: Node): seq<Name> {
    match n
    case Sub(_) => HeadNames(k)
    case Func(ps, _) => ps
  }

  /** Position of the body of a loop among the children of its statement. */
  function BodyIndex(s: Stat): int {
    if s.kind.Repeat? then 0 else |s.nodes| - 1
  }

  /** The children that the grammar allows for each kind of statement. */
  predicate Shaped(s: Stat) {
    match s.kind
    case Do =>
      |s.nodes| == 1 && s.nodes[0].Sub?
    case While | Repeat | NumFor(_) | ForIn(_) =>
      && 0 < |s.nodes|
      && forall j | 0 <= j < |s.nodes| :: s.nodes[j].Sub? <==> j == BodyIndex(s)
    case If(_) =>
      0 < |s.nodes| && s.nodes[|s.nodes| - 1].Sub?
    case Function(_) | LocalFunction(_) =>
      |s.nodes| == 1 && s.nodes[0].Func?
    case Label(_) | Break | Goto(_) =>
      s.nodes == []
    case Plain | Local(_) | Return =>
      forall j | 0 <= j < |s.nodes| :: s.nodes[j].Func?
  }

  /** A return statement ends its block. */
  function StatCount(b: Block): nat {
    if b.stats != [] && b.stats[|b.stats| - 1].kind.Return? then |b.stats| - 1 else |b.stats|
  }

  ghost predicate WellFormed(b: Block) {
    && (forall i | 0 <= i < StatCount(b) :: !b.stats[i].kind.Return?)
    && (forall i | 0 <= i < |b.stats| :: WellFormedStat(b.stats[i]))
  }

  ghost predicate WellFormedStat(s: Stat) {
    && Shaped(s)
    && forall j | 0 <= j < |s.nodes| :: WellFormed(s.nodes[j].block)
  }

  // ----- identities of blocks -----

  /** All blocks under a block, those of nested functions included. */
  ghost function Ids(b: Block): set<BlockId> {
    {b.id} + set i, x | 0 <= i < |b.stats| && x in StatIds(b.stats[i]) :: x
  }

  ghost function StatIds(s: Stat): set<BlockId> {
    set j, x | 0 <= j < |s.nodes| && x in Ids(s.nodes[j].block) :: x
  }

  /** The blocks under a block that belong to the same function. */
  function Own(b: Block): set<BlockId> {
    {b.id} + set i, x | 0 <= i < |b.stats| && x in StatOwn(b.stats[i]) :: x
  }

  function StatOwn(s: Stat): set<BlockId> {
    set j, x | 0 <= j < |s.nodes| && s.nodes[j].Sub? && x in Own(s.nodes[j].block) :: x
  }

  /** Different nodes of the parse tree are different blocks. */
  ghost predicate Distinct(b: Block) {
    && (forall i | 0 <= i < |b.stats| :: b.id !in StatIds(b.stats[i]) && DistinctStat(b.stats[i]))
    && (forall i, i' | 0 <= i < i' < |b.stats| :: StatIds(b.stats[i]) !! StatIds(b.stats[i']))
  }

  ghost predicate DistinctStat(s: Stat) {
    && (forall j | 0 <= j < |s.nodes| :: Distinct(s.nodes[j].block))
    && (forall j, j' | 0 <= j < j' < |s.nodes| :: Ids(s.nodes[j].block) !! Ids(s.nodes[j'].block))
  }

  lemma {:induction false} OwnWithinIds(b: Block)
    ensures Own(b) <= Ids(b)
  {
    forall i, x | 0 <= i < |b.stats| && x in StatOwn(b.stats[i])
      ensures x in StatIds(b.stats[i])
    {
      var s := b.stats[i];
      var j :| 0 <= j < |s.nodes| && s.nodes[j].Sub? && x in Own(s.nodes[j].block);
      OwnWithinIds(s.nodes[j].block);
    }
  }

  // ----- labels, gotos and breaks -----

  /** The labels that stand directly in a block. */
  ghost function LabelNames(b: Block): set<Name> {
    set i | 0 <= i < |b.stats| && b.stats[i].kind.Label? :: b.stats[i].kind.mark
  }

  /** The labels of the gotos of a block that no block on the way up holds. */
  ghost function Escaping(b: Block): set<Name> {
    (set i, l | 0 <= i < |b.stats| && l in StatGotos(b.stats[i]) :: l) - LabelNames(b)
  }

  ghost function StatGotos(s: Stat): set<Name> {
    if s.kind.Goto? then {s.kind.target}
    else set j, l | 0 <= j < |s.nodes| && s.nodes[j].Sub? && l in Escaping(s.nodes[j].block) :: l
  }

  /** The block has a break that no loop of the same function encloses within it. */
  ghost predicate FreeBreak(b: Block) {
    exists i | 0 <= i < |b.stats| :: FreeBreakStat(b.stats[i])
  }

  ghost predicate FreeBreakStat(s: Stat) {
    || s.kind.Break?
    || (!IsLoop(s.kind) && exists j | 0 <= j < |s.nodes| :: s.nodes[j].Sub? && FreeBreak(s.nodes[j].block))
  }

  // ----- functions -----

  /** The bodies of all functions under a block, in the order in which a walk enters them. */
  function Funcs(b: Block): seq<Block> {
    FuncsUpTo(b, |b.stats|)
  }

  function FuncsUpTo(b: Block, i: nat): seq<Block>
    requires i <= |b.stats|
    decreases b, 0, i
  {
    if i == 0 then [] else FuncsUpTo(b, i - 1) + StatFuncs(b.stats[i - 1], |b.stats[i - 1].nodes|)
  }

  function StatFuncs(s: Stat, j: nat): seq<Block>
    requires j <= |s.nodes|
    decreases s, 0, j
  {
    if j == 0 then []
    else
      var n := s.nodes[j - 1];
      StatFuncs(s, j - 1) + (if n.Func? then [n.block] else []) + Funcs(n.block)
  }

  lemma {:induction false} StatFuncsMember(s: Stat, j: nat, k: nat)
    requires j < k <= |s.nodes|
    ensures s.nodes[j].Func? ==> s.nodes[j].block in StatFuncs(s, k)
    ensures forall f | f in Funcs(s.nodes[j].block) :: f in StatFuncs(s, k)
  {
    if j < k - 1 {
      StatFuncsMember(s, j, k - 1);
    }
  }

  lemma {:induction false} FuncsMember(b: Block, i: nat, k: nat)
    requires i < k <= |b.stats|
    ensures forall f | f in StatFuncs(b.stats[i], |b.stats[i].nodes|) :: f in FuncsUpTo(b, k)
  {
    if i < k - 1 {
      FuncsMember(b, i, k - 1);
    }
  }
}
