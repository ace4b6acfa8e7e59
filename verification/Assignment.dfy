/** Multiple assignment and local declarations: the values on the right are adjusted to the targets on
the left (section 3.3.3 of the Lua 5.3 Reference Manual). */
module Assignment {
  import opened Syntax
  import opened Scoping

  datatype Value = Nil | Other(id: int)

  /** The result of an expression: a cell, a value, or the values of a call. */
  datatype Var = LValue(cell: Cell) | RValue(value: Value) | List(values: seq<Value>)

  type Memory = map<Cell, Value>

  function ValueOf(mem: Memory, c: Cell): Value {
    if c in mem then mem[c] else Nil
  }

  /** The single value of an expression: the first one of a list. */
  function Get(mem: Memory, v: Var): Value
    requires v.List? ==> v.values != []
  {
    match v
    case LValue(c) => ValueOf(mem, c)
    case RValue(x) => x
    case List(vs) => vs[0]
  }

  /** A call has at least one value here: a call without results yields nil. */
  ghost predicate Proper(vs: seq<Var>) {
    forall i | 0 <= i < |vs| && vs[i].List? :: vs[i].values != []
  }

  // ----- adjustment -----

  /** The value for target number `i`: one per expression, then the other values of a final list,
      then nil. */
  function Adjusted(mem: Memory, exprs: seq<Var>, i: nat): Value
    requires forall k | 0 <= k < |exprs| && exprs[k].List? :: exprs[k].values != []
  {
    if i < |exprs| then Get(mem, exprs[i])
    else if exprs != [] && exprs[|exprs| - 1].List? && i - |exprs| + 1 < |exprs[|exprs| - 1].values|
      then exprs[|exprs| - 1].values[i - |exprs| + 1]
    else Nil
  }

  function AdjustedTo(mem: Memory, exprs: seq<Var>, n: nat): (r: seq<Value>)
    requires forall k | 0 <= k < |exprs| && exprs[k].List? :: exprs[k].values != []
    ensures |r| == n && forall i | 0 <= i < n :: r[i] == Adjusted(mem, exprs, i)
  {
    seq(n, i requires 0 <= i < n => Adjusted(mem, exprs, i))
  }

  /** The values of a list of expressions: one of each, and all of the last one. */
  function Expanded(mem: Memory, exprs: seq<Var>): seq<Value> {
    if exprs == [] then [] else Firsts(mem, exprs[..|exprs| - 1]) + AllValues(mem, exprs[|exprs| - 1])
  }

  function AllValues(mem: Memory, v: Var): seq<Value> {
    match v
    case LValue(c) => [ValueOf(mem, c)]
    case RValue(x) => [x]
    case List(vs) => vs
  }

  /** The first value of every expression. */
  function Firsts(mem: Memory, exprs: seq<Var>): seq<Value> {
    if exprs == [] then [] else Firsts(mem, exprs[..|exprs| - 1]) + [FirstOf(AllValues(mem, exprs[|exprs| - 1]))]
  }

  function FirstOf(vs: seq<Value>): Value {
    if vs == [] then Nil else vs[0]
  }

  lemma {:induction false} FirstsAt(mem: Memory, exprs: seq<Var>, i: nat)
    requires i < |exprs|
    ensures |Firsts(mem, exprs)| == |exprs|
    ensures Firsts(mem, exprs)[i] == FirstOf(AllValues(mem, exprs[i]))
  {
    var n := |exprs| - 1;
    if n > 0 {
      FirstsAt(mem, exprs[..n], if i < n then i else 0);
    }
  }

  /** The adjustment of section 3.3.3: the list of values is cut to the number of targets, or filled with nil. */
  lemma AdjustedIsExpanded(mem: Memory, exprs: seq<Var>, i: nat)
    requires Proper(exprs)
    ensures Adjusted(mem, exprs, i) == if i < |Expanded(mem, exprs)| then Expanded(mem, exprs)[i] else Nil
  {
    if exprs != [] {
      var n := |exprs| - 1;
      if n > 0 {
        FirstsAt(mem, exprs[..n], if i < n then i else 0);
      }
    }
  }

  /** Values are written to the first `n` targets from left to right. */
  function Written(mem: Memory, targets: seq<Var>, vals: seq<Value>, n: nat): Memory
    requires n <= |targets| && n <= |vals| && forall i | 0 <= i < n :: targets[i].LValue?
  {
    if n == 0 then mem else Written(mem, targets, vals, n - 1)[targets[n - 1].cell := vals[n - 1]]
  }

  /** Target number `i` is the last one for cell `c` among the first `n`; -1 if there is none. */
  ghost predicate LastTarget(targets: seq<Var>, n: nat, c: Cell, i: int) {
    && -1 <= i < n <= |targets|
    && (i >= 0 ==> targets[i] == LValue(c))
    && forall k | i < k < n :: targets[k] != LValue(c)
  }

  /** Afterwards every target holds the value for its last occurrence, and nothing else has changed. */
  lemma {:induction false} WrittenMeaning(mem: Memory, targets: seq<Var>, vals: seq<Value>, n: nat, c: Cell, i: int)
    requires n <= |targets| && n <= |vals| && forall k | 0 <= k < n :: targets[k].LValue?
    requires LastTarget(targets, n, c, i)
    ensures ValueOf(Written(mem, targets, vals, n), c) == if i >= 0 then vals[i] else ValueOf(mem, c)
  {
    if n > 0 && i != n - 1 {
      assert targets[n - 1] != LValue(c);
      WrittenMeaning(mem, targets, vals, n - 1, c, i);
    }
  }

  // ----- declarations -----

  /** Different names of a block have different cells, and all cells have been allocated. */
  ghost predicate Separate(store: map<Name, Cell>, mem: Memory, next: Cell) {
    && (forall n, n' | n in store && n' in store && n != n' :: store[n] != store[n'])
    && (forall n | n in store :: store[n] < next)
    && (forall c | c in mem :: c < next)
  }

  /** Every declared name holds the value for its last occurrence. */
  ghost predicate Bound(store: map<Name, Cell>, mem: Memory, names: seq<Name>, vals: seq<Value>)
    requires |vals| >= |names|
  {
    && (forall i | 0 <= i < |names| :: names[i] in store)
    && (forall i | 0 <= i < |names| && names[i] !in names[i + 1..] :: ValueOf(mem, store[names[i]]) == vals[i])
  }

  /** A name that is not declared keeps its cell and its value. */
  ghost predicate Kept(store: map<Name, Cell>, mem: Memory, store': map<Name, Cell>, mem': Memory, names: seq<Name>) {
    forall n | n !in names :: (n in store' <==> n in store)
      && (n in store ==> store'[n] == store[n] && ValueOf(mem', store[n]) == ValueOf(mem, store[n]))
  }

  /** Cells outside the block are unchanged, and a name keeps its cell or gets a new one. */
  ghost predicate Elsewhere(store: map<Name, Cell>, mem: Memory, next: Cell, store': map<Name, Cell>, mem': Memory) {
    && (forall c | c < next && c !in store.Values :: ValueOf(mem', c) == ValueOf(mem, c))
    && (forall n | n in store' :: store'[n] >= next || (n in store && store'[n] == store[n]))
  }

  ghost predicate DeclaredAs(store: map<Name, Cell>, mem: Memory, next: Cell, store': map<Name, Cell>, mem': Memory,
                             names: seq<Name>, vals: seq<Value>)
    requires |vals| >= |names|
  {
    Bound(store', mem', names, vals) && Kept(store, mem, store', mem', names)
      && Elsewhere(store, mem, next, store', mem')
  }

  lemma SeparateStep(store: map<Name, Cell>, mem: Memory, next: Cell, n: Name, c: Cell, v: Value)
    requires Separate(store, mem, next) && ((n in store && store[n] == c) || c == next)
    ensures Separate(store[n := c], mem[c := v], if c == next then next + 1 else next)
    ensures n in store ==> store[n] < next
  { }

  lemma BoundStep(store: map<Name, Cell>, mem: Memory, next: Cell, names: seq<Name>, vals: seq<Value>, n: Name, c: Cell)
    requires |vals| > |names| && Bound(store, mem, names, vals) && Separate(store, mem, next)
    requires (n in store && store[n] == c) || c == next
    ensures Bound(store[n := c], mem[c := vals[|names|]], names + [n], vals)
  {
    var names' := names + [n];
    forall i | 0 <= i < |names'| && names'[i] !in names'[i + 1..]
      ensures names'[i] in store[n := c] && ValueOf(mem[c := vals[|names|]], store[n := c][names'[i]]) == vals[i]
    {
      if i < |names| {
        assert names'[i + 1..] == names[i + 1..] + [n];
        assert names[i] != n && store[names[i]] != c;
      }
    }
  }

  lemma KeptStep(store: map<Name, Cell>, mem: Memory, store1: map<Name, Cell>, mem1: Memory, next1: Cell,
                 names: seq<Name>, n: Name, c: Cell, v: Value)
    requires Kept(store, mem, store1, mem1, names) && Separate(store1, mem1, next1)
    requires (n in store1 && store1[n] == c) || c == next1
    ensures Kept(store, mem, store1[n := c], mem1[c := v], names + [n])
  {
    forall x | x !in names + [n] ensures x != n && x !in names && (x in store1 ==> store1[x] != c) {
      assert (names + [n])[|names|] == n;
    }
  }

  lemma ElsewhereStep(store: map<Name, Cell>, mem: Memory, next: Cell, store1: map<Name, Cell>, mem1: Memory,
      next1: Cell,
                      n: Name, c: Cell, v: Value)
    requires Elsewhere(store, mem, next, store1, mem1) && next <= next1
    requires (n in store1 && store1[n] == c) || c == next1
    ensures Elsewhere(store, mem, next, store1[n := c], mem1[c := v])
  {
    forall d | d < next && d !in store.Values ensures d != c { }
  }

  lemma DeclaredStep(store: map<Name, Cell>, mem: Memory, next: Cell, store1: map<Name, Cell>, mem1: Memory,
      next1: Cell,
                     names: seq<Name>, vals: seq<Value>, n: Name, c: Cell)
    requires Separate(store1, mem1, next1) && next <= next1 && |vals| > |names|
    requires DeclaredAs(store, mem, next, store1, mem1, names, vals)
    requires (n in store1 && store1[n] == c) || c == next1
    ensures DeclaredAs(store, mem, next, store1[n := c], mem1[c := vals[|names|]], names + [n], vals)
  {
    hide Separate, Bound, Kept, Elsewhere;
    BoundStep(store1, mem1, next1, names, vals, n, c);
    KeptStep(store, mem, store1, mem1, next1, names, n, c, vals[|names|]);
    ElsewhereStep(store, mem, next, store1, mem1, next1, n, c, vals[|names|]);
  }

  lemma NothingDeclared(store: map<Name, Cell>, mem: Memory, next: Cell, vals: seq<Value>)
    ensures DeclaredAs(store, mem, next, store, mem, [], vals)
  { }

  // ----- what a declaration reads -----

  /** The last of the first `i` names that is stored in cell `c`, or -1. */
  function LastWriter(store: map<Name, Cell>, names: seq<Name>, i: nat, c: Cell): (k: int)
    requires i <= |names|
    ensures -1 <= k < i
    ensures k >= 0 ==> names[k] in store && store[names[k]] == c
  {
    if i == 0 then -1
    else if names[i - 1] in store && store[names[i - 1]] == c then i - 1
    else LastWriter(store, names, i - 1, c)
  }

  /** What expression `i` of a declaration stands for.  The right-hand sides are read one by one between
      the writes, so that the cell of a name declared before stands for that name's expression. */
  function Effective(store: map<Name, Cell>, names: seq<Name>, exprs: seq<Var>, i: nat): (r: Var)
    requires i < |exprs| && i <= |names|
    requires forall k | 0 <= k < |exprs| && exprs[k].List? :: exprs[k].values != []
    ensures r.List? ==> r.values != []
  {
    if exprs[i].LValue? && LastWriter(store, names, i, exprs[i].cell) >= 0
      then Effective(store, names, exprs, LastWriter(store, names, i, exprs[i].cell))
      else exprs[i]
  }

  /** The values a declaration gives to its names. */
  function DeclaredValues(mem: Memory, store: map<Name, Cell>, names: seq<Name>, exprs: seq<Var>): (r: seq<Value>)
    requires forall k | 0 <= k < |exprs| && exprs[k].List? :: exprs[k].values != []
    ensures |r| == |names|
    ensures forall i | 0 <= i < |names| ::
              r[i] == if i < |exprs| then Get(mem, Effective(store, names, exprs, i)) else Adjusted(mem, exprs, i)
  {
    seq(|names|, i requires 0 <= i < |names| =>
      if i < |exprs| then Get(mem, Effective(store, names, exprs, i)) else Adjusted(mem, exprs, i))
  }

  /** No expression reads the cell of a name declared before it, unless that name was given this very
      cell's value. */
  ghost predicate ReadsBeforeWrites(store: map<Name, Cell>, names: seq<Name>, exprs: seq<Var>) {
    forall i | 0 <= i < |names| && i < |exprs| && exprs[i].LValue? && LastWriter(store, names, i, exprs[i].cell) >= 0 ::
      exprs[LastWriter(store, names, i, exprs[i].cell)] == exprs[i]
  }

  lemma {:induction false} EffectiveIsItself(store: map<Name, Cell>, names: seq<Name>, exprs: seq<Var>, i: nat)
    requires i < |exprs| && i < |names| && Proper(exprs) && ReadsBeforeWrites(store, names, exprs)
    ensures Effective(store, names, exprs, i) == exprs[i]
  {
    if exprs[i].LValue? && LastWriter(store, names, i, exprs[i].cell) >= 0 {
      EffectiveIsItself(store, names, exprs, LastWriter(store, names, i, exprs[i].cell));
    }
  }

  /** A memory tells a cell from anything that is not this cell. */
  lemma SomeMemoryTells(c: Cell, e: Var)
    requires e != LValue(c) && (e.List? ==> e.values != [])
    ensures exists mem: Memory :: Get(mem, e) != ValueOf(mem, c)
  {
    var v := match e case LValue(d) => Nil case RValue(x) => x case List(vs) => vs[0];
    var other := if v == Nil then Other(0) else Nil;
    var mem: Memory := map[c := other];
    assert Get(mem, e) == v && ValueOf(mem, c) == other;
  }

  /** A declaration gives its names the adjusted values of the state before it, whatever the memory
      holds, exactly when no expression reads a name declared before it. */
  lemma DeclaresSimultaneously(store: map<Name, Cell>, names: seq<Name>, exprs: seq<Var>)
    requires Proper(exprs)
    ensures (forall mem: Memory :: DeclaredValues(mem, store, names, exprs) == AdjustedTo(mem, exprs, |names|))
      <==> ReadsBeforeWrites(store, names, exprs)
  {
    if ReadsBeforeWrites(store, names, exprs) {
      forall mem: Memory ensures DeclaredValues(mem, store, names, exprs) == AdjustedTo(mem, exprs, |names|) {
        forall i | 0 <= i < |names| ensures DeclaredValues(mem, store, names, exprs)[i] == AdjustedTo(mem, exprs,
            |names|)[i] {
          if i < |exprs| { EffectiveIsItself(store, names, exprs, i); }
        }
      }
    } else {
      FirstLateRead(store, names, exprs);
    }
  }

  lemma FirstLateRead(store: map<Name, Cell>, names: seq<Name>, exprs: seq<Var>)
    requires Proper(exprs) && !ReadsBeforeWrites(store, names, exprs)
    ensures exists mem: Memory :: DeclaredValues(mem, store, names, exprs) != AdjustedTo(mem, exprs, |names|)
  {
    var i: int :| 0 <= i < |names| && i < |exprs| && exprs[i].LValue?
                  && LastWriter(store, names, i, exprs[i].cell) >= 0
                  && exprs[LastWriter(store, names, i, exprs[i].cell)] != exprs[i];
    var k := LastWriter(store, names, i, exprs[i].cell);
    var late := if Effective(store, names, exprs, i) != exprs[i] then i else k;
    assert Effective(store, names, exprs, i) == Effective(store, names, exprs, k);
    assert Effective(store, names, exprs, late) != exprs[late];
    assert exprs[late].LValue?;
    SomeMemoryTells(exprs[late].cell, Effective(store, names, exprs, late));
    var mem: Memory :| Get(mem, Effective(store, names, exprs, late)) != ValueOf(mem, exprs[late].cell);
    assert DeclaredValues(mem, store, names, exprs)[late] != AdjustedTo(mem, exprs, |names|)[late];
  }

  /** `local a, b = b, a` for two names of the same block gives both of them the value of `b`. */
  lemma SwapInADeclarationFails(a: Value, b: Value)
    requires a != b
    ensures DeclaredValues(map[1 := a, 2 := b], map["a" := 1, "b" := 2], ["a", "b"], [LValue(2), LValue(1)]) == [b, b]
    ensures AdjustedTo(map[1 := a, 2 := b], [LValue(2), LValue(1)], 2) == [b, a]
  {
    var store: map<Name, Cell>, names, exprs := map["a" := 1, "b" := 2], ["a", "b"], [LValue(2), LValue(1)];
    assert names[0] == "a" && names[1] == "b" && "a" != "b";
    assert LastWriter(store, names, 0, 1) == -1;
    assert LastWriter(store, names, 1, 1) == 0;
    assert LastWriter(store, names, 0, 2) == -1;
    assert Effective(store, names, exprs, 0) == LValue(2);
    assert Effective(store, names, exprs, 1) == LValue(2);
  }

  ghost function Expected(store: map<Name, Cell>, mem: Memory, names: seq<Name>, vals: seq<Value>, i: nat,
      c: Cell): Value
    requires i <= |names| && i <= |vals|
  {
    var k := LastWriter(store, names, i, c);
    if k >= 0 then vals[k] else ValueOf(mem, c)
  }

  /** After the first `i` writes of a declaration a cell holds the value of its last writer. */
  ghost predicate Partly(store: map<Name, Cell>, mem: Memory, next: Cell, mem': Memory, names: seq<Name>,
      vals: seq<Value>, i: nat)
    requires i <= |names| && i <= |vals|
  {
    forall c | c < next :: ValueOf(mem', c) == Expected(store, mem, names, vals, i, c)
  }

  /** So far every name has kept its cell. */
  ghost predicate Reused(store: map<Name, Cell>, next: Cell, store': map<Name, Cell>) {
    && (forall n | n in store :: n in store' && store'[n] == store[n])
    && (forall n | n in store' && n !in store :: store'[n] >= next)
  }

  lemma PartlyStep(store: map<Name, Cell>, mem: Memory, next: Cell, store1: map<Name, Cell>, mem1: Memory, next1: Cell,
                   names: seq<Name>, vals: seq<Value>, i: nat, c: Cell)
    requires i < |names| && i < |vals| && Partly(store, mem, next, mem1, names, vals, i)
    requires Reused(store, next, store1) && next <= next1
    requires c == if names[i] in store1 then store1[names[i]] else next1
    ensures Partly(store, mem, next, mem1[c := vals[i]], names, vals, i + 1)
    ensures Reused(store, next, store1[names[i] := c])
  {
    var mem2, j := mem1[c := vals[i]], i + 1;
    forall d | d < next ensures ValueOf(mem2, d) == Expected(store, mem, names, vals, j, d) {
      assert ValueOf(mem1, d) == Expected(store, mem, names, vals, i, d);
      assert d == c <==> names[i] in store && store[names[i]] == d;
      assert LastWriter(store, names, i + 1, d) == if d == c then i else LastWriter(store, names, i, d);
    }
  }

  lemma ReadNow(store: map<Name, Cell>, mem: Memory, next: Cell, mem': Memory, names: seq<Name>, exprs: seq<Var>,
      i: nat)
    requires i < |names| && i < |exprs| && Proper(exprs)
    requires exprs[i].LValue? ==> exprs[i].cell < next
    requires Partly(store, mem, next, mem', names, DeclaredValues(mem, store, names, exprs), i)
    ensures Get(mem', exprs[i]) == DeclaredValues(mem, store, names, exprs)[i]
  { }

  /** The number of names that get a value of the expressions. */
  function Given(exprs: seq<Var>): nat {
    if exprs != [] && exprs[|exprs| - 1].List? && exprs[|exprs| - 1].values != []
      then |exprs| - 1 + |exprs[|exprs| - 1].values| else |exprs|
  }

  lemma NothingRead(store: map<Name, Cell>, mem: Memory, next: Cell, names: seq<Name>, vals: seq<Value>)
    requires Separate(store, mem, next)
    ensures Partly(store, mem, next, mem, names, vals, 0) && Reused(store, next, store)
  { }

  lemma NoDeclaration(store: map<Name, Cell>, given: nat, next: Cell)
    ensures Declaration(store, [], given, next) == (store, next)
  { }

  /** A declaration without expressions is one with nil for every name. */
  lemma SameWithoutExpressions(mem: Memory, store: map<Name, Cell>, names: seq<Name>)
    ensures DeclaredValues(mem, store, names, seq(|names|, i => RValue(Nil))) == DeclaredValues(mem, store, names, [])
  {
    var nils: seq<Var> := seq(|names|, i => RValue(Nil));
    forall i | 0 <= i < |names| ensures Effective(store, names, nils, i) == RValue(Nil) { }
  }

  /** The list with every cell replaced by its value. */
  ghost predicate Morphed(mem: Memory, exprs: seq<Var>, r: seq<Var>) {
    |r| == |exprs| && forall i | 0 <= i < |exprs| ::
      r[i] == if exprs[i].LValue? then RValue(ValueOf(mem, exprs[i].cell)) else exprs[i]
  }

  /** What is read from the replaced list does not depend on what has been written since. */
  lemma MorphedReads(mem: Memory, exprs: seq<Var>, r: seq<Var>, mem': Memory, i: nat)
    requires Proper(exprs) && Morphed(mem, exprs, r)
    ensures Proper(r) && |r| == |exprs| && Adjusted(mem', r, i) == Adjusted(mem, exprs, i)
  { }

  /** The first `i` targets have been written. */
  ghost predicate WrittenTo(mem: Memory, vars: seq<Var>, vals: seq<Value>, i: nat, mem': Memory) {
    i <= |vars| && i <= |vals| && (forall k | 0 <= k < i :: vars[k].LValue?) && mem' == Written(mem, vars, vals, i)
  }

  lemma NothingWritten(mem: Memory, vars: seq<Var>, vals: seq<Value>)
    ensures WrittenTo(mem, vars, vals, 0, mem)
  { }

  lemma WrittenStep(mem: Memory, vars: seq<Var>, vals: seq<Value>, i: nat, mem': Memory)
    requires WrittenTo(mem, vars, vals, i, mem') && i < |vars| && i < |vals| && vars[i].LValue?
    ensures WrittenTo(mem, vars, vals, i + 1, mem'[vars[i].cell := vals[i]])
  { }

  class Machine {
    var mem: Memory
    var store: map<Name, Cell>      // the store of the current block
    var nextCell: Cell

    /** Replaces every cell on the right by its value, before anything is written. */
    method Morph(exprs: seq<Var>) returns (r: seq<Var>)
      ensures Morphed(mem, exprs, r)
    {
      r := [];
      for i := 0 to |exprs|
        invariant Morphed(mem, exprs[..i], r)
      {
        r := r + [if exprs[i].LValue? then RValue(ValueOf(mem, exprs[i].cell)) else exprs[i]];
      }
    }

    /** An assignment writes the values that the right-hand sides have before it, adjusted to the
        number of targets, from left to right.  It stops at a target that is not a cell. */
    method ProcessStatVarList(vars: seq<Var>, exprs0: seq<Var>) returns (ok: bool, i: nat)
      requires Proper(exprs0)
      modifies this`mem
      ensures WrittenTo(old(mem), vars, AdjustedTo(old(mem), exprs0, |vars|), i, mem)
      ensures if ok then i == |vars| else i < |vars| && !vars[i].LValue?
    {
      hide Morphed, WrittenTo;
      ghost var vals := AdjustedTo(old(mem), exprs0, |vars|);
      var exprs := Morph(exprs0);
      MorphedReads(mem, exprs0, exprs, mem, 0);
      i := 0;
      NothingWritten(mem, vars, vals);
      while i < |vars| && i < |exprs|
        invariant 0 <= i <= |vars| && i <= |exprs|
        invariant WrittenTo(old(mem), vars, vals, i, mem)
      {
        if !vars[i].LValue? {
          return false, i;
        }
        MorphedReads(old(mem), exprs0, exprs, mem, i);
        WrittenStep(old(mem), vars, vals, i, mem);
        mem := mem[vars[i].cell := Get(mem, exprs[i])];
        i := i + 1;
      }
      if |exprs| < |vars| {
        var remains := if |exprs| != 0 && exprs[|exprs| - 1].List? then exprs[|exprs| - 1].values else [];
        var j := 1;
        while j < |remains| && i < |vars|
          invariant 1 <= j && |exprs| <= i <= |vars| && j == i - |exprs| + 1
          invariant j <= |remains| || j == 1
          invariant WrittenTo(old(mem), vars, vals, i, mem)
        {
          if !vars[i].LValue? {
            return false, i;
          }
          MorphedReads(old(mem), exprs0, exprs, mem, i);
          WrittenStep(old(mem), vars, vals, i, mem);
          mem := mem[vars[i].cell := remains[j]];
          i, j := i + 1, j + 1;
        }
        while i < |vars|
          invariant |exprs| <= i <= |vars|
          invariant i == |vars| || i - |exprs| + 1 >= |remains|
          invariant WrittenTo(old(mem), vars, vals, i, mem)
        {
          if !vars[i].LValue? {
            return false, i;
          }
          MorphedReads(old(mem), exprs0, exprs, mem, i);
          WrittenStep(old(mem), vars, vals, i, mem);
          mem := mem[vars[i].cell := Nil];
          i := i + 1;
        }
      }
      ok := true;
    }

    /** Declares one name: with `reuse`, a name that is in the store already keeps its cell. */
    method DeclareOne(n: Name, v: Value, reuse: bool, ghost names: seq<Name>, ghost vals: seq<Value>,
                      ghost store0: map<Name, Cell>, ghost mem0: Memory, ghost next0: Cell) returns (ghost c: Cell)
      requires Separate(store, mem, nextCell) && next0 <= nextCell
      requires |vals| > |names| && vals[|names|] == v && DeclaredAs(store0, mem0, next0, store, mem, names, vals)
      modifies this
      ensures Separate(store, mem, nextCell) && next0 <= nextCell
      ensures DeclaredAs(store0, mem0, next0, store, mem, names + [n], vals)
      ensures c == if reuse && n in old(store) then old(store)[n] else old(nextCell)
      ensures nextCell == if reuse && n in old(store) then old(nextCell) else old(nextCell) + 1
      ensures reuse && n in old(store) ==> store == old(store)
      ensures store == old(store)[n := c] && mem == old(mem)[c := v]
    {
      hide DeclaredAs, Separate;
      var cell := nextCell;
      SeparateStep(store, mem, nextCell, n, if reuse && n in store then store[n] else nextCell, v);
      if reuse && n in store {
        cell := store[n];
      } else {
        nextCell := nextCell + 1;
      }
      DeclaredStep(store0, mem0, next0, store, mem, old(nextCell), names, vals, n, cell);
      store := store[n := cell];
      mem := mem[cell := v];
      c := cell;
    }

    /** A declaration gives its names their values, each name the value for its last occurrence. */
    method ProcessLocalVariables(names: seq<Name>, explist: seq<Var>, hasExplist: bool)
      requires Separate(store, mem, nextCell) && Proper(explist)
      requires forall i | 0 <= i < |explist| && explist[i].LValue? :: explist[i].cell < nextCell
      modifies this
      ensures (store, nextCell)
        == Declaration(old(store), names, if hasExplist then Given(explist) else |names|, old(nextCell))
      ensures Separate(store, mem, nextCell)
      ensures DeclaredAs(old(store), old(mem), old(nextCell), store, mem, names,
                         DeclaredValues(old(mem), old(store), names, if hasExplist then explist else []))
    {
      hide DeclaredAs, Separate, Partly, Reused, Effective, LastWriter, Declaration;
      ghost var store0, mem0, next0 := store, mem, nextCell;
      var values := if hasExplist then explist else seq(|names|, i => RValue(Nil));
      ghost var vals := DeclaredValues(mem, store, names, values);
      SameWithoutExpressions(mem, store, names);
      var i := 0;
      ghost var given := Given(values);
      assert names[..0] == [];
      NoDeclaration(store, given, nextCell);
      NothingDeclared(store, mem, nextCell, vals);
      NothingRead(store, mem, nextCell, names, vals);
      while i < |names| && i < |values|
        invariant 0 <= i <= |names| && i <= |values| && next0 <= nextCell
        invariant (store, nextCell) == Declaration(store0, names[..i], given, next0)
        invariant Separate(store, mem, nextCell) && DeclaredAs(store0, mem0, next0, store, mem, names[..i], vals)
        invariant Partly(store0, mem0, next0, mem, names, vals, i) && Reused(store0, next0, store)
      {
        ReadNow(store0, mem0, next0, mem, names, values, i);
        ghost var store1, mem1, next1 := store, mem, nextCell;
        ghost var c := DeclareOne(names[i], Get(mem, values[i]), true, names[..i], vals, store0, mem0, next0);
        PartlyStep(store0, mem0, next0, store1, mem1, next1, names, vals, i, c);
        DeclarationStep(store0, names, i, given, next0);
        assert names[..i + 1] == names[..i] + [names[i]];
        i := i + 1;
      }
      var remains := if |values| != 0 && values[|values| - 1].List? then values[|values| - 1].values else [];
      var j := 1;
      while j < |remains| && i < |names|
        invariant 1 <= j && i <= |names| && next0 <= nextCell
            && (i < |names| ==> |values| <= i && j == i - |values| + 1)
        invariant j <= |remains| || j == 1
        invariant (store, nextCell) == Declaration(store0, names[..i], given, next0)
        invariant Separate(store, mem, nextCell) && DeclaredAs(store0, mem0, next0, store, mem, names[..i], vals)
      {
        assert vals[i] == remains[j];
        ghost var _ := DeclareOne(names[i], remains[j], true, names[..i], vals, store0, mem0, next0);
        DeclarationStep(store0, names, i, given, next0);
        assert names[..i + 1] == names[..i] + [names[i]];
        i, j := i + 1, j + 1;
      }
      while i < |names|
        invariant 0 <= i <= |names| && next0 <= nextCell
            && (i < |names| ==> |values| <= i && i - |values| + 1 >= |remains|)
        invariant (store, nextCell) == Declaration(store0, names[..i], given, next0)
        invariant Separate(store, mem, nextCell) && DeclaredAs(store0, mem0, next0, store, mem, names[..i], vals)
      {
        assert vals[i] == Nil;
        ghost var _ := DeclareOne(names[i], Nil, false, names[..i], vals, store0, mem0, next0);
        DeclarationStep(store0, names, i, given, next0);
        assert names[..i + 1] == names[..i] + [names[i]];
        i := i + 1;
      }
      assert names[..i] == names;
    }
  }
}
