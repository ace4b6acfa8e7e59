/** The lifetime of cells.  A cell counts its references; it is freed when the last one is removed, and
removing a reference of a freed cell is an error. */
module Lifetime {

  type Cell = int
  type Name = string

  /** What holds a cell: an entry of the store of a block in a frame, or an entry of a closure. */
  datatype Holder =
    | InStore(frame: nat, block: int, name: Name)
    | InClosure(fn: int, name: Name)

  datatype Op =
    | Declare(frame: nat, block: int, name: Name)
    | Capture(fn: int, frame: nat, block: int, name: Name)
    | EraseBlock(frame: nat, block: int)
    | ClearIteration(frame: nat, block: int, keep: Name)
    | DestroyFunction(fn: int)
    | DropFrame(frame: nat)

  ghost function Sites(held: map<Holder, Cell>, c: Cell): set<Holder> {
    set h | h in held && held[h] == c
  }

  /** Every held cell is alive and has at least as many references as holders. */
  ghost predicate Counted(refs: map<Cell, nat>, held: map<Holder, Cell>) {
    && (forall h | h in held :: held[h] in refs)
    && (forall c | c in refs :: refs[c] >= 1 && refs[c] >= |Sites(held, c)|)
  }

  /** Every cell that is alive has exactly as many references as holders. */
  ghost predicate Exact(refs: map<Cell, nat>, held: map<Holder, Cell>) {
    Counted(refs, held) && forall c | c in refs :: refs[c] == |Sites(held, c)|
  }

  /** When the counts are exact and nothing is held, every cell has been freed. */
  lemma ExactHasNoLeak(refs: map<Cell, nat>, held: map<Holder, Cell>)
    requires Exact(refs, held) && held == map[]
    ensures refs == map[]
  {
    assert forall c :: Sites(held, c) == {};
    assert forall c | c in refs :: |Sites(held, c)| == 0;
    assert forall c :: c !in refs;
    assert refs.Keys == {};
  }

  function Released(refs: map<Cell, nat>, c: Cell): map<Cell, nat>
    requires c in refs && refs[c] >= 1
  {
    if refs[c] == 1 then refs - {c} else refs[c := refs[c] - 1]
  }

  lemma SitesWithout(held: map<Holder, Cell>, h: Holder, c: Cell)
    requires h in held
    ensures Sites(held - {h}, c) == if held[h] == c then Sites(held, c) - {h} else Sites(held, c)
    ensures held[h] == c ==> |Sites(held - {h}, c)| == |Sites(held, c)| - 1
  {
    if held[h] == c {
      assert h in Sites(held, c);
      assert Sites(held - {h}, c) == Sites(held, c) - {h};
    } else {
      assert Sites(held - {h}, c) == Sites(held, c);
    }
  }

  lemma SitesWith(held: map<Holder, Cell>, h: Holder, c: Cell, x: Cell)
    requires h !in held
    ensures Sites(held[h := c], x) == if x == c then Sites(held, c) + {h} else Sites(held, x)
    ensures |Sites(held[h := c], x)| == |Sites(held, x)| + if x == c then 1 else 0
  {
    if x == c {
      assert Sites(held[h := c], x) == Sites(held, c) + {h};
    } else {
      assert Sites(held[h := c], x) == Sites(held, x);
    }
  }

  /** Giving up one holder and its reference keeps the counts. */
  lemma DropOne(refs: map<Cell, nat>, held: map<Holder, Cell>, h: Holder)
    requires Counted(refs, held) && h in held
    ensures held[h] in refs && Counted(Released(refs, held[h]), held - {h})
    ensures Exact(refs, held) <==> Exact(Released(refs, held[h]), held - {h})
  {
    var c := held[h];
    var refs', held' := Released(refs, c), held - {h};
    SitesWithout(held, h, c);
    forall h' | h' in held' ensures held'[h'] in refs' {
      if held'[h'] == c {
        assert h' in Sites(held', c);
        assert |Sites(held', c)| >= 1;
      }
    }
    forall x | x in refs' ensures refs'[x] >= |Sites(held', x)|
        && (Exact(refs, held) ==> refs'[x] == |Sites(held', x)|) {
      SitesWithout(held, h, x);
    }
    forall x | x in refs && refs[x] > |Sites(held, x)| ensures x in refs' && refs'[x] > |Sites(held', x)| {
      SitesWithout(held, h, x);
    }
  }

  /** An entry that is lost, overwritten or dropped with its frame, leaves its reference behind. */
  lemma Forget(refs: map<Cell, nat>, held: map<Holder, Cell>, h: Holder)
    requires Counted(refs, held)
    ensures Counted(refs, held - {h})
    ensures Exact(refs, held - {h}) <==> Exact(refs, held) && h !in held
  {
    if h in held {
      forall c | c in refs ensures refs[c] >= |Sites(held - {h}, c)| {
        SitesWithout(held, h, c);
      }
      SitesWithout(held, h, held[h]);
      assert refs[held[h]] > |Sites(held - {h}, held[h])|;
    } else {
      assert held - {h} == held;
    }
  }

  lemma {:induction false} ForgetAll(refs: map<Cell, nat>, held: map<Holder, Cell>, hs: set<Holder>)
    requires Counted(refs, held) && hs <= held.Keys
    ensures Counted(refs, held - hs)
    ensures Exact(refs, held - hs) <==> Exact(refs, held) && hs == {}
    decreases |hs|
  {
    if hs == {} {
      assert held - hs == held;
    } else {
      var h :| h in hs;
      Forget(refs, held, h);
      ForgetAll(refs, held - {h}, hs - {h});
      assert held - {h} - (hs - {h}) == held - hs;
    }
  }

  lemma AddOne(refs: map<Cell, nat>, held: map<Holder, Cell>, h: Holder, c: Cell)
    requires Counted(refs, held) && h !in held
    ensures Counted(refs[c := (if c in refs then refs[c] else 0) + 1], held[h := c])
    ensures Exact(refs, held) <==> Exact(refs[c := (if c in refs then refs[c] else 0) + 1], held[h := c])
  {
    var refs', held' := refs[c := (if c in refs then refs[c] else 0) + 1], held[h := c];
    if c !in refs {
      assert Sites(held, c) == {};
    }
    forall x | x in refs' ensures refs'[x] >= |Sites(held', x)|
        && (Exact(refs, held) ==> refs'[x] == |Sites(held', x)|) {
      SitesWith(held, h, c, x);
    }
    forall x | x in refs && refs[x] > |Sites(held, x)| ensures refs'[x] > |Sites(held', x)| {
      SitesWith(held, h, c, x);
    }
  }

  /** The holders that an operation gives up. */
  function GivenUp(held: map<Holder, Cell>, op: Op): set<Holder> {
    match op
    case EraseBlock(f, b) => set h | h in held && h.InStore? && h.frame == f && h.block == b
    case ClearIteration(f, b, keep) => set h | h in held && h.InStore? && h.frame == f && h.block == b && h.name != keep
    case DestroyFunction(g) => set h | h in held && h.InClosure? && h.fn == g
    case _ => {}
  }

  /** The entries that are dropped with a frame. */
  function InFrame(held: map<Holder, Cell>, f: nat): set<Holder> {
    set h | h in held && h.InStore? && h.frame == f
  }

  /** What is held after some operations, and the next cell. */
  ghost function HeldAfter(held: map<Holder, Cell>, next: Cell, ops: seq<Op>): (map<Holder, Cell>, Cell) {
    if ops == [] then (held, next)
    else
      var (m, c) := HeldAfter(held, next, ops[..|ops| - 1]);
      match ops[|ops| - 1]
      case Declare(f, b, n) => (m[InStore(f, b, n) := c], c + 1)
      case Capture(g, f, b, n) =>
        (if InStore(f, b, n) in m then m[InClosure(g, n) := m[InStore(f, b, n)]] else m, c)
      case DropFrame(f) => (m - InFrame(m, f), c)
      case op => (m - GivenUp(m, op), c)
  }

  // ----- what is held after a sequence of operations, from the operations alone -----

  /** The operation ends the entry of a name in the store of a block. */
  predicate EndsEntry(op: Op, f: nat, b: int, n: Name) {
    op == EraseBlock(f, b) || op == DropFrame(f)
    || (op.ClearIteration? && op.frame == f && op.block == b && op.keep != n)
  }

  /** Operation number `i` declares the name, and nothing after it concerns the entry. */
  ghost predicate LastDeclared(ops: seq<Op>, i: int, f: nat, b: int, n: Name) {
    && 0 <= i < |ops| && ops[i] == Declare(f, b, n)
    && forall j | i < j < |ops| :: ops[j] != Declare(f, b, n) && !EndsEntry(ops[j], f, b, n)
  }

  ghost predicate Untouched(ops: seq<Op>, f: nat, b: int, n: Name) {
    forall j | 0 <= j < |ops| :: ops[j] != Declare(f, b, n) && !EndsEntry(ops[j], f, b, n)
  }

  /** Operation number `i` captures a name that is in the store then, and nothing after it concerns the
      entry of the closure. */
  ghost predicate LastCaptured(held: map<Holder, Cell>, next: Cell, ops: seq<Op>, i: int, g: int, n: Name) {
    && 0 <= i < |ops| && Captures(held, next, ops, i, g, n)
    && forall j | i < j < |ops| :: ops[j] != DestroyFunction(g) && !Captures(held, next, ops, j, g, n)
  }

  ghost predicate Captures(held: map<Holder, Cell>, next: Cell, ops: seq<Op>, i: int, g: int, n: Name)
    requires 0 <= i < |ops|
  {
    && ops[i].Capture? && ops[i].fn == g && ops[i].name == n
    && InStore(ops[i].frame, ops[i].block, n) in HeldAfter(held, next, ops[..i]).0
  }

  /** Operation number `i` captures a name that the closure already has: an error. */
  ghost predicate ClosesTwice(held: map<Holder, Cell>, next: Cell, ops: seq<Op>, i: int) {
    && 0 <= i < |ops| && ops[i].Capture? && Captures(held, next, ops, i, ops[i].fn, ops[i].name)
    && InClosure(ops[i].fn, ops[i].name) in HeldAfter(held, next, ops[..i]).0
  }

  ghost predicate ClosureUntouched(held: map<Holder, Cell>, next: Cell, ops: seq<Op>, g: int, n: Name) {
    forall j | 0 <= j < |ops| :: ops[j] != DestroyFunction(g) && !Captures(held, next, ops, j, g, n)
  }

  /** The number of declarations. */
  function Declarations(ops: seq<Op>): nat {
    if ops == [] then 0
    else Declarations(ops[..|ops| - 1]) + if ops[|ops| - 1].Declare? then 1 else 0
  }

  lemma {:induction false} NextAfter(held: map<Holder, Cell>, next: Cell, ops: seq<Op>)
    ensures HeldAfter(held, next, ops).1 == next + Declarations(ops)
  {
    if ops != [] { NextAfter(held, next, ops[..|ops| - 1]); }
  }

  /** What one operation does to an entry of a store. */
  lemma StoreStep(held: map<Holder, Cell>, next: Cell, ops: seq<Op>, f: nat, b: int, n: Name)
    requires ops != []
    ensures var m, op := HeldAfter(held, next, ops[..|ops| - 1]).0, ops[|ops| - 1];
            var m' := HeldAfter(held, next, ops).0;
            && (InStore(f, b, n) in m' <==>
                  op == Declare(f, b, n) || (InStore(f, b, n) in m && !EndsEntry(op, f, b, n)))
            && (InStore(f, b, n) in m' && op == Declare(f, b, n) ==>
                  m'[InStore(f, b, n)] == HeldAfter(held, next, ops[..|ops| - 1]).1)
            && (InStore(f, b, n) in m' && op != Declare(f, b, n) ==> m'[InStore(f, b, n)] == m[InStore(f, b, n)])
  {
  }

  /** What one operation does to an entry of a closure. */
  lemma ClosureStep(held: map<Holder, Cell>, next: Cell, ops: seq<Op>, g: int, n: Name)
    requires ops != []
    ensures var m, op := HeldAfter(held, next, ops[..|ops| - 1]).0, ops[|ops| - 1];
            var m' := HeldAfter(held, next, ops).0;
            var now := Captures(held, next, ops, |ops| - 1, g, n);
            && (InClosure(g, n) in m' <==> now || (InClosure(g, n) in m && op != DestroyFunction(g)))
            && (now ==> m'[InClosure(g, n)] == m[InStore(op.frame, op.block, n)])
            && (InClosure(g, n) in m' && !now ==> m'[InClosure(g, n)] == m[InClosure(g, n)])
  {
  }

  /** An entry of a store is held exactly when the last operation that concerns it declared it, or nothing
      concerns it and it was held before; it holds the cell of this declaration, or its old one. */
  lemma {:induction false} StoreHeld(held: map<Holder, Cell>, next: Cell, ops: seq<Op>, f: nat, b: int, n: Name)
    ensures InStore(f, b, n) in HeldAfter(held, next, ops).0 <==>
              (exists i :: LastDeclared(ops, i, f, b, n)) || (Untouched(ops, f, b, n) && InStore(f, b, n) in held)
    ensures forall i | LastDeclared(ops, i, f, b, n) ::
              HeldAfter(held, next, ops).0[InStore(f, b, n)] == next + Declarations(ops[..i])
    ensures Untouched(ops, f, b, n) && InStore(f, b, n) in held ==>
              HeldAfter(held, next, ops).0[InStore(f, b, n)] == held[InStore(f, b, n)]
  {
    if ops != [] {
      hide HeldAfter;
      var last := |ops| - 1;
      var front := ops[..last];
      StoreHeld(held, next, front, f, b, n);
      StoreStep(held, next, ops, f, b, n);
      NextAfter(held, next, front);
      assert forall j | 0 <= j < last :: front[j] == ops[j];
      if ops[last] == Declare(f, b, n) {
        assert LastDeclared(ops, last, f, b, n);
      } else if !EndsEntry(ops[last], f, b, n) {
        forall i ensures LastDeclared(ops, i, f, b, n) <==> LastDeclared(front, i, f, b, n) {
          if LastDeclared(front, i, f, b, n) {
            forall j | i < j < |ops| ensures ops[j] != Declare(f, b, n) && !EndsEntry(ops[j], f, b, n) {
              assert j < last ==> front[j] == ops[j];
            }
          }
        }
        forall i | LastDeclared(ops, i, f, b, n) ensures front[..i] == ops[..i] { }
        assert Untouched(ops, f, b, n) <==> Untouched(front, f, b, n);
      } else {
        forall i ensures !LastDeclared(ops, i, f, b, n) { }
        assert !Untouched(ops, f, b, n);
      }
    }
  }

  /** An entry of a closure is held exactly when the last operation that concerns it captured it, or nothing
      concerns it and it was held before; it shares the cell the store had then, or keeps its old one. */
  lemma {:induction false} ClosureHeld(held: map<Holder, Cell>, next: Cell, ops: seq<Op>, g: int, n: Name)
    ensures InClosure(g, n) in HeldAfter(held, next, ops).0 <==>
              (exists i :: LastCaptured(held, next, ops, i, g, n))
              || (ClosureUntouched(held, next, ops, g, n) && InClosure(g, n) in held)
    ensures forall i | LastCaptured(held, next, ops, i, g, n) :: HeldAfter(held, next, ops).0[InClosure(g, n)]
              == HeldAfter(held, next, ops[..i]).0[InStore(ops[i].frame, ops[i].block, n)]
    ensures ClosureUntouched(held, next, ops, g, n) && InClosure(g, n) in held ==>
              HeldAfter(held, next, ops).0[InClosure(g, n)] == held[InClosure(g, n)]
  {
    if ops != [] {
      hide HeldAfter;
      var last := |ops| - 1;
      var front := ops[..last];
      ClosureHeld(held, next, front, g, n);
      ClosureStep(held, next, ops, g, n);
      forall j | 0 <= j < last
        ensures front[j] == ops[j] && (Captures(held, next, front, j, g, n) <==> Captures(held, next, ops, j, g, n))
      {
        assert front[..j] == ops[..j];
      }
      if Captures(held, next, ops, last, g, n) {
        assert LastCaptured(held, next, ops, last, g, n);
      } else if ops[last] != DestroyFunction(g) {
        forall i ensures LastCaptured(held, next, ops, i, g, n) <==> LastCaptured(held, next, front, i, g, n) {
          if LastCaptured(held, next, front, i, g, n) {
            forall j | i < j < |ops| ensures ops[j] != DestroyFunction(g) && !Captures(held, next, ops, j, g, n) {
              assert j < last ==> front[j] == ops[j];
            }
          }
        }
        forall i | LastCaptured(held, next, ops, i, g, n) ensures front[..i] == ops[..i] { }
        assert ClosureUntouched(held, next, ops, g, n) <==> ClosureUntouched(held, next, front, g, n);
      } else {
        forall i ensures !LastCaptured(held, next, ops, i, g, n) { }
        assert !ClosureUntouched(held, next, ops, g, n);
      }
    }
  }

  /** Some operation overwrites an entry of a store, or drops a frame that still has entries. */
  ghost predicate Loses(held: map<Holder, Cell>, next: Cell, ops: seq<Op>) {
    ops != [] &&
    (Loses(held, next, ops[..|ops| - 1]) ||
     var m := HeldAfter(held, next, ops[..|ops| - 1]).0;
     match ops[|ops| - 1]
     case Declare(f, b, n) => InStore(f, b, n) in m
     case DropFrame(f) => InFrame(m, f) != {}
     case _ => false)
  }

  class CellHeap {
    var refs: map<Cell, nat>           // the counts of the cells that are alive
    var held: map<Holder, Cell>        // the stores and the closures
    var nextCell: Cell
    ghost var lost: bool               // some store entry was overwritten or dropped with its frame

    constructor ()
      ensures Valid() && !lost && held == map[]
    {
      refs, held, nextCell, lost := map[], map[], 0, false;
    }

    ghost predicate Valid()
      reads this
    {
      && Counted(refs, held) && (Exact(refs, held) <==> !lost)
      && (forall c | c in refs :: c < nextCell)
    }

    /** Removes one reference; fails on a cell that has none. */
    method RemoveReference(c: Cell) returns (ok: bool)
      modifies this`refs
      ensures ok <==> c in old(refs) && old(refs)[c] != 0
      ensures ok ==> refs == Released(old(refs), c)
    {
      if c !in refs || refs[c] == 0 {
        return false;
      }
      if refs[c] == 1 {
        refs := refs - {c};
      } else {
        refs := refs[c := refs[c] - 1];
      }
      ok := true;
    }

    /** A local is declared: a fresh cell replaces what the store had under the name. */
    method DeclareLocal(frame: nat, block: int, name: Name)
      requires Valid()
      modifies this
      ensures Valid() && held == old(held)[InStore(frame, block, name) := old(nextCell)]
      ensures nextCell == old(nextCell) + 1 && old(nextCell) !in old(refs)
      ensures lost == (old(lost) || InStore(frame, block, name) in old(held))
    {
      var h := InStore(frame, block, name);
      lost := lost || h in held;
      Forget(refs, held, h);
      AddOne(refs, held - {h}, h, nextCell);
      assert h !in held ==> held - {h} == held;
      assert (held - {h})[h := nextCell] == held[h := nextCell];
      refs := refs[nextCell := 1];
      held := held[h := nextCell];
      nextCell := nextCell + 1;
    }

    /** A function is closed under a name of a store; doing so twice is an error. */
    method Close(fn: int, name: Name, c: Cell) returns (ok: bool)
      requires Valid() && c in held.Values
      modifies this`refs, this`held
      ensures Valid() && (ok <==> InClosure(fn, name) !in old(held))
      ensures held == if ok then old(held)[InClosure(fn, name) := c] else old(held)
    {
      var h := InClosure(fn, name);
      if h in held {
        return false;
      }
      AddOne(refs, held, h, c);
      refs := refs[c := refs[c] + 1];
      held := held[h := c];
      ok := true;
    }

    /** Gives up some holders and removes their references, one by one: nothing fails. */
    method Release(hs: set<Holder>) returns (ok: bool)
      requires Valid() && hs <= held.Keys
      modifies this`refs, this`held
      ensures ok && Valid() && held == old(held) - hs
    {
      var left := hs;
      assert held - (hs - left) == held;
      while left != {}
        invariant left <= hs && held == old(held)
        invariant Counted(refs, held - (hs - left)) && (Exact(refs, held - (hs - left)) <==> !lost)
        invariant forall c | c in refs :: c < nextCell
      {
        var h :| h in left;
        DropOne(refs, held - (hs - left), h);
        assert held - (hs - (left - {h})) == held - (hs - left) - {h};
        ok := RemoveReference(held[h]);
        if !ok {
          return;
        }
        left := left - {h};
      }
      assert hs - left == hs;
      held := held - hs;
      ok := true;
    }

    /** The frame of an activation is popped: the entries it still has are lost.  It has none after a
        normal end or a return that was caught in the right place. */
    method DropFrame(frame: nat)
      requires Valid()
      modifies this`held, this`lost
      ensures Valid() && held == old(held) - InFrame(old(held), frame)
      ensures lost <==> old(lost) || InFrame(old(held), frame) != {}
    {
      ForgetAll(refs, held, InFrame(held, frame));
      lost := lost || InFrame(held, frame) != {};
      held := held - InFrame(held, frame);
    }

    /** Runs operations until the end or until a function is closed twice under a name.  Whatever they
        are, no reference is removed from a cell without one and no cell that is held has been freed, and
        the counts are exact if and only if no entry was lost. */
    method Run(ops: seq<Op>) returns (failed: bool, closedTwice: bool)
      requires Valid()
      modifies this
      ensures Valid() && !failed
      ensures Exact(refs, held) <==> !lost
      ensures !closedTwice ==> (lost <==> old(lost) || Loses(old(held), old(nextCell), ops))
      ensures !closedTwice ==> forall f, b, n :: InStore(f, b, n) in held <==>
                (exists i :: LastDeclared(ops, i, f, b, n))
                || (Untouched(ops, f, b, n) && InStore(f, b, n) in old(held))
      ensures !closedTwice ==> forall g, n :: InClosure(g, n) in held <==>
                (exists i :: LastCaptured(old(held), old(nextCell), ops, i, g, n))
                || (ClosureUntouched(old(held), old(nextCell), ops, g, n) && InClosure(g, n) in old(held))
      ensures !closedTwice ==> (held, nextCell) == HeldAfter(old(held), old(nextCell), ops)
      ensures closedTwice <==> exists i :: ClosesTwice(old(held), old(nextCell), ops, i)
      ensures closedTwice ==> exists i :: ClosesTwice(old(held), old(nextCell), ops, i)
                                          && (held, nextCell) == HeldAfter(old(held), old(nextCell), ops[..i])
                                          && forall j | j < i :: !ClosesTwice(old(held), old(nextCell), ops, j)
    {
      failed, closedTwice := false, false;
      for i := 0 to |ops|
        invariant lost <==> old(lost) || Loses(old(held), old(nextCell), ops[..i])
        invariant Valid() && (held, nextCell) == HeldAfter(old(held), old(nextCell), ops[..i])
        invariant forall j | j < i :: !ClosesTwice(old(held), old(nextCell), ops, j)
      {
        assert ops[..i + 1][..i] == ops[..i];
        assert ClosesTwice(old(held), old(nextCell), ops, i) <==>
          ops[i].Capture? && InStore(ops[i].frame, ops[i].block, ops[i].name) in held
          && InClosure(ops[i].fn, ops[i].name) in held;
        match ops[i] {
          case Declare(f, b, n) =>
            DeclareLocal(f, b, n);
          case DropFrame(f) =>
            DropFrame(f);
          case Capture(g, f, b, n) =>
            if InStore(f, b, n) in held {
              assert held[InStore(f, b, n)] in held.Values;
              var ok := Close(g, n, held[InStore(f, b, n)]);
              if !ok {
                closedTwice := true;
                return;
              }
            }
          case _ =>
            var ok := Release(GivenUp(held, ops[i]));
            if !ok {
              return true, false;
            }
        }
      }
      assert ops[..|ops|] == ops;
      forall f, b, n ensures InStore(f, b, n) in held <==>
          (exists i :: LastDeclared(ops, i, f, b, n)) || (Untouched(ops, f, b, n) && InStore(f, b, n) in old(held))
      {
        StoreHeld(old(held), old(nextCell), ops, f, b, n);
      }
      forall g, n ensures InClosure(g, n) in held <==>
          (exists i :: LastCaptured(old(held), old(nextCell), ops, i, g, n))
          || (ClosureUntouched(old(held), old(nextCell), ops, g, n) && InClosure(g, n) in old(held))
      {
        ClosureHeld(old(held), old(nextCell), ops, g, n);
      }
    }
  }
}
