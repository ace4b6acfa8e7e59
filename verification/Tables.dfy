/** The table: seven maps, one for each type of key, that together behave as a single map with nil as
default, and the border search over the integer keys. */
module Tables {
  import opened Helpers

  datatype Value =
    | Nil
    | Elipsis
    | Bool(b: bool)
    | Int(i: int)
    | Double(d: real)
    | Str(s: string)
    | Function(f: nat)
    | Tab(t: nat)
    | Userdata(u: nat)

  predicate IsKey(k: Value) {
    !k.Nil? && !k.Elipsis?
  }

  /** What a getter returns a reference to: a slot of the table, the shared nil, or an error. */
  datatype Place = Slot(key: Value) | SharedNil | Failed

  function FieldOf<K>(fields: map<K, Value>, k: K): Value {
    if k in fields then fields[k] else Nil
  }

  // ----- operations and their meaning on a single map -----

  /** `Put` and `AddField` set a field; `Store` and `StoreDot` assign through the reference of a getter;
      `Subscript` and `Dot` read, and insert a nil entry on demand. */
  datatype Op =
    | Put(key: Value, value: Value)
    | AddField(name: string, value: Value)
    | Subscript(key: Value, setNil: bool)
    | Dot(name: string, setNil: bool)
    | Store(key: Value, value: Value)
    | StoreDot(name: string, value: Value)

  datatype Reply = Done | Got(value: Value) | Error

  type Model = map<Value, Value>

  function Updated(m: Model, op: Op): Model {
    match op
    case Put(k, v) => if IsKey(k) then m[k := v] else m
    case AddField(s, v) => m[Str(s) := v]
    case Store(k, v) => if IsKey(k) then m[k := v] else m
    case StoreDot(s, v) => m[Str(s) := v]
    case _ => m
  }

  function Answer(m: Model, op: Op): Reply {
    match op
    case Subscript(k, _) => if IsKey(k) then Got(FieldOf(m, k)) else Error
    case Dot(s, _) => Got(FieldOf(m, Str(s)))
    case Store(k, _) => if IsKey(k) then Done else Error
    case _ => Done
  }

  function ModelAfter(m: Model, ops: seq<Op>): Model {
    if ops == [] then m else Updated(ModelAfter(m, ops[..|ops| - 1]), ops[|ops| - 1])
  }

  function Answers(m: Model, ops: seq<Op>): seq<Reply> {
    if ops == [] then []
    else Answers(m, ops[..|ops| - 1]) + [Answer(ModelAfter(m, ops[..|ops| - 1]), ops[|ops| - 1])]
  }

  /** The value that an operation writes under a key, if it does. */
  function WrittenTo(op: Op, k: Value): Option<Value> {
    match op
    case Put(k', v) => if IsKey(k') && k' == k then Some(v) else None
    case Store(k', v) => if IsKey(k') && k' == k then Some(v) else None
    case AddField(s, v) => if Str(s) == k then Some(v) else None
    case StoreDot(s, v) => if Str(s) == k then Some(v) else None
    case _ => None
  }

  /** Operation `j` is the last one that writes the key; -1 if there is none. */
  ghost predicate LastWrite(ops: seq<Op>, k: Value, j: int) {
    && -1 <= j < |ops| && (j >= 0 ==> WrittenTo(ops[j], k).Some?)
    && forall i | j < i < |ops| :: WrittenTo(ops[i], k).None?
  }

  /** After any operations a key reads back as the value that was written last, and a key that none of them
      wrote as before. */
  lemma {:induction false} ReadsLastWrite(m: Model, ops: seq<Op>, k: Value, j: int, setNil: bool)
    requires IsKey(k) && LastWrite(ops, k, j)
    ensures Answer(ModelAfter(m, ops), Subscript(k, setNil))
         == Got(if j >= 0 then WrittenTo(ops[j], k).value else FieldOf(m, k))
    ensures k.Str? ==>
              Answer(ModelAfter(m, ops), Dot(k.s, setNil)) == Answer(ModelAfter(m, ops), Subscript(k, setNil))
  {
    if ops != [] && j != |ops| - 1 {
      ReadsLastWrite(m, ops[..|ops| - 1], k, j, setNil);
    }
  }

  /** Exactly the keys nil and the ellipsis are errors, and writing under them changes nothing. */
  lemma NilKeysFail(m: Model, k: Value, v: Value, setNil: bool)
    ensures Answer(m, Subscript(k, setNil)) == Error <==> k == Nil || k == Elipsis
    ensures Answer(m, Store(k, v)) == Error <==> k == Nil || k == Elipsis
    ensures k == Nil || k == Elipsis ==> Updated(m, Store(k, v)) == m == Updated(m, Put(k, v))
  {
  }

  /** The operation neither stores nil under an integer nor inserts a nil entry there. */
  predicate KeepsIntegers(op: Op) {
    match op
    case Put(k, v) => k.Int? ==> v != Nil
    case Store(k, v) => k.Int? ==> v != Nil
    case Subscript(k, setNil) => k.Int? ==> !setNil
    case _ => true
  }

  // ----- borders -----

  /** A border (section 3.4.7 of the Lua 5.3 Reference Manual). */
  predicate IsBorder(ints: map<int, Value>, r: int) {
    r >= 0 && (r == 0 || FieldOf(ints, r) != Nil) && FieldOf(ints, r + 1) == Nil
  }

  /** `r` ends the first run of consecutive positive keys; it is 0 without positive keys. */
  ghost predicate EndsFirstRun(keys: set<int>, r: int) {
    if forall k | k in keys :: k <= 0 then r == 0
    else exists first :: RunFrom(keys, first, r)
  }

  ghost predicate RunFrom(keys: set<int>, first: int, r: int) {
    && 0 < first <= r && r + 1 !in keys
    && (forall k | first <= k <= r :: k in keys)
    && (forall k | 0 < k < first :: k !in keys)
  }

  lemma OneFirstRun(keys: set<int>, first: int, r: int, first': int, r': int)
    requires RunFrom(keys, first, r) && RunFrom(keys, first', r')
    ensures first == first' && r == r'
  {
    assert first in keys && first' in keys;
    assert r + 1 !in keys && r' + 1 !in keys;
  }

  /** The last key of the first run holds nil. */
  ghost predicate NilEndsFirstRun(ints: map<int, Value>) {
    exists first, last :: RunFrom(ints.Keys, first, last) && ints[last] == Nil
  }

  /** The end of the first run is a border exactly when the last key of that run does not hold nil. */
  lemma EndIsBorder(ints: map<int, Value>, r: int)
    requires EndsFirstRun(ints.Keys, r)
    ensures IsBorder(ints, r) <==> !NilEndsFirstRun(ints)
    ensures (forall k | k in ints :: ints[k] != Nil) ==> IsBorder(ints, r)
  {
    if k :| k in ints.Keys && k > 0 {
      var first :| RunFrom(ints.Keys, first, r);
      assert r in ints.Keys;
      forall first', last | RunFrom(ints.Keys, first', last) ensures last == r {
        OneFirstRun(ints.Keys, first, r, first', last);
      }
    } else {
      forall first, last ensures !RunFrom(ints.Keys, first, last) {
        assert first > 0 ==> first !in ints.Keys;
      }
    }
  }

  ghost predicate Ascending(keys: seq<int>) {
    forall i, j | 0 <= i < j < |keys| :: keys[i] < keys[j]
  }

  lemma NotEmpty(rest: set<int>)
    ensures rest == {} || exists k :: k in rest
  {
    if forall k: int :: k !in rest { }
  }

  function Inserted(keys: seq<int>, n: nat, k: int): seq<int>
    requires n <= |keys|
  {
    keys[..n] + [k] + keys[n..]
  }

  lemma InsertedMembers(keys: seq<int>, n: nat, k: int, j: int)
    requires n <= |keys|
    ensures j in Inserted(keys, n, k) <==> j in keys || j == k
  {
    assert keys == keys[..n] + keys[n..];
  }

  lemma InsertedAscends(keys: seq<int>, n: nat, k: int)
    requires n <= |keys| && Ascending(keys) && k !in keys
    requires (n < |keys| ==> keys[n] > k) && (n > 0 ==> keys[n - 1] <= k)
    ensures Ascending(Inserted(keys, n, k))
  {
    var r := Inserted(keys, n, k);
    assert n > 0 ==> keys[n - 1] in keys;
    forall i | 0 <= i < |keys| ensures keys[i] < k <==> i < n { }
    forall i | 0 <= i < |r| ensures r[i] == if i < n then keys[i] else if i == n then k else keys[i - 1] { }
  }

  /** The first `n + 1` keys are consecutive and the next one, if any, is not: the run ends there. */
  lemma FoundEnd(all: set<int>, keys: seq<int>, n: nat)
    requires Ascending(keys) && forall k: int :: k in keys <==> k in all && k > 0
    requires n < |keys| && (forall i | 0 <= i <= n :: keys[i] == keys[0] + i)
    requires n + 1 < |keys| ==> keys[n] != keys[n + 1] - 1
    ensures EndsFirstRun(all, keys[n])
  {
    assert keys[0] in keys;
    forall k | keys[0] <= k <= keys[n] ensures k in all {
      assert keys[k - keys[0]] == k;
      assert k in keys;
    }
    forall i | 0 <= i < |keys| ensures keys[0] <= keys[i] != keys[n] + 1 { }
    forall k | k in keys ensures keys[0] <= k != keys[n] + 1 { }
    assert RunFrom(all, keys[0], keys[n]);
  }

  lemma NoEnd(all: set<int>, keys: seq<int>)
    requires keys == [] && forall k: int :: k in keys <==> k in all && k > 0
    ensures EndsFirstRun(all, 0)
  { }

  /** Two tables with the same fields can have different results: an entry that holds nil counts. */
  lemma NilEntriesCount(ints: map<int, Value>, none: map<int, Value>)
    requires ints == map[1 := Nil] && none == map[]
    ensures EndsFirstRun(ints.Keys, 1) && !IsBorder(ints, 1) && IsBorder(ints, 0)
    ensures forall i: int :: FieldOf(ints, i) == FieldOf(none, i)
    ensures EndsFirstRun(none.Keys, 0)
  {
    assert 1 in ints.Keys;
    assert RunFrom(ints.Keys, 1, 1);
  }

  // ----- the table constructor -----

  /** A field of a table constructor: `[k] = v` and `name = v` have a key, a positional field has none. */
  datatype Field = Field(key: Option<Value>, value: Value)

  function Positional(fields: seq<Field>): nat {
    if fields == [] then 0
    else Positional(fields[..|fields| - 1]) + (if fields[|fields| - 1].key.None? then 1 else 0)
  }

  /** The key that field number `j` is stored under, if any: a positional field counts the positional
      fields up to itself, and nothing is stored for a nil key or a positional nil. */
  function KeyOf(fields: seq<Field>, j: nat): Option<Value>
    requires j < |fields|
  {
    match fields[j].key
    case Some(k) => if IsKey(k) then Some(k) else None
    case None => if fields[j].value == Nil then None else Some(Int(Positional(fields[..j]) + 1))
  }

  /** The table holds `v` under `k`: the value of the last field with that key. */
  ghost predicate LastField(fields: seq<Field>, k: Value, j: int) {
    && -1 <= j < |fields|
    && (j >= 0 ==> KeyOf(fields, j) == Some(k))
    && forall i | j < i < |fields| :: KeyOf(fields, i) != Some(k)
  }

  function Pairs(fields: seq<Field>): (r: seq<(Value, Value)>) {
    if fields == [] then []
    else
      var n := |fields| - 1;
      var before := Pairs(fields[..n]);
      match fields[n].key
      case Some(k) => if k == Nil then before else before + [(k, fields[n].value)]
      case None => if fields[n].value == Nil then before
                   else before + [(Int(Positional(fields[..n]) + 1), fields[n].value)]
  }

  /** Visits the fields of a constructor in order. */
  method VisitFieldlist(fields: seq<Field>) returns (values: seq<(Value, Value)>)
    ensures values == Pairs(fields)
  {
    values := [];
    var index := 1;
    for n := 0 to |fields|
      invariant values == Pairs(fields[..n]) && index == Positional(fields[..n]) + 1
    {
      assert fields[..n + 1][..n] == fields[..n];
      if fields[n].key == Some(Nil) {
        continue;
      }
      if fields[n].key.None? {
        if fields[n].value == Nil {
          index := index + 1;
          continue;
        }
        values := values + [(Int(index), fields[n].value)];
        index := index + 1;
      } else {
        values := values + [(fields[n].key.value, fields[n].value)];
      }
    }
    assert fields[..|fields|] == fields;
  }

  /** The pairs set one after the other. */
  function PairsModel(pairs: seq<(Value, Value)>): Model {
    if pairs == [] then map[]
    else
      var n := |pairs| - 1;
      Updated(PairsModel(pairs[..n]), Put(pairs[n].0, pairs[n].1))
  }

  /** A constructor gives every key the value of the last field for it. */
  lemma {:induction false} ConstructorMeaning(fields: seq<Field>, k: Value, j: int)
    requires IsKey(k) && LastField(fields, k, j)
    ensures k in PairsModel(Pairs(fields)) <==> j >= 0
    ensures j >= 0 ==> PairsModel(Pairs(fields))[k] == fields[j].value
  {
    if fields != [] {
      var n := |fields| - 1;
      var front := fields[..n];
      forall i | 0 <= i < n ensures KeyOf(front, i) == KeyOf(fields, i) {
        assert front[..i] == fields[..i];
      }
      LastPair(front, fields[n]);
      assert front + [fields[n]] == fields;
      if j < n {
        assert KeyOf(fields, n) != Some(k);
        ConstructorMeaning(front, k, j);
      }
    }
  }

  lemma LastPut(pairs: seq<(Value, Value)>, p: (Value, Value))
    ensures PairsModel(pairs + [p]) == Updated(PairsModel(pairs), Put(p.0, p.1))
  {
    assert (pairs + [p])[..|pairs|] == pairs;
  }

  lemma LastVisited(front: seq<Field>, f: Field)
    ensures Pairs(front + [f]) == match f.key
      case Some(k) => if k == Nil then Pairs(front) else Pairs(front) + [(k, f.value)]
      case None => if f.value == Nil then Pairs(front) else Pairs(front) + [(Int(Positional(front) + 1), f.value)]
  {
    assert (front + [f])[..|front|] == front;
  }

  lemma LastPair(front: seq<Field>, f: Field)
    ensures PairsModel(Pairs(front + [f])) == match KeyOf(front + [f], |front|)
      case Some(k) => PairsModel(Pairs(front))[k := f.value]
      case None => PairsModel(Pairs(front))
  {
    hide Pairs, PairsModel, Positional;
    assert (front + [f])[..|front|] == front;
    LastVisited(front, f);
    LastPut(Pairs(front), (Int(Positional(front) + 1), f.value));
    if f.key.Some? {
      LastPut(Pairs(front), (f.key.value, f.value));
    }
  }

  // ----- positional constructors -----

  ghost predicate AllPositional(fields: seq<Field>) {
    forall i | 0 <= i < |fields| :: fields[i].key.None?
  }

  /** The number of leading fields that are not nil. */
  function Prefix(fields: seq<Field>): (n: nat)
    ensures n <= |fields| && (n < |fields| ==> fields[n].value == Nil)
    ensures forall i | 0 <= i < n :: fields[i].value != Nil
  {
    if fields == [] || fields[0].value == Nil then 0 else 1 + Prefix(fields[1..])
  }

  lemma {:induction false} PositionalAll(fields: seq<Field>)
    requires AllPositional(fields)
    ensures Positional(fields) == |fields|
  {
    if fields != [] { PositionalAll(fields[..|fields| - 1]); }
  }

  /** A positional constructor stores exactly its values that are not nil, each under its position. */
  lemma PositionalKeys(fields: seq<Field>, i: int)
    requires AllPositional(fields)
    ensures Int(i) in PairsModel(Pairs(fields)) <==> 1 <= i <= |fields| && fields[i - 1].value != Nil
    ensures Int(i) in PairsModel(Pairs(fields)) ==> PairsModel(Pairs(fields))[Int(i)] == fields[i - 1].value
  {
    forall j | 0 <= j < |fields|
      ensures KeyOf(fields, j) == if fields[j].value == Nil then None else Some(Int(j + 1))
    {
      PositionalAll(fields[..j]);
    }
    ConstructorMeaning(fields, Int(i), if 1 <= i <= |fields| && fields[i - 1].value != Nil then i - 1 else -1);
  }

  /** For a purely positional constructor the end of the first run is the length of the leading part
      without nil exactly when the first value is not nil or there are only nils. */
  lemma {:induction false} PositionalBorder(fields: seq<Field>, keys: set<int>, r: int)
    requires AllPositional(fields) && EndsFirstRun(keys, r)
    requires forall i: int :: i in keys <==> Int(i) in PairsModel(Pairs(fields))
    ensures r == Prefix(fields)
      <==> (fields != [] && fields[0].value != Nil) || forall i | 0 <= i < |fields| :: fields[i].value == Nil
  {
    forall i: int ensures i in keys <==> 1 <= i <= |fields| && fields[i - 1].value != Nil {
      PositionalKeys(fields, i);
    }
    var n := Prefix(fields);
    if n > 0 {
      assert 1 in keys;
      assert RunFrom(keys, 1, n);
      var first :| RunFrom(keys, first, r);
      OneFirstRun(keys, 1, n, first, r);
    } else if j :| 0 <= j < |fields| && fields[j].value != Nil {
      assert j + 1 in keys;
    }
  }

  class Table {
    var intFields: map<int, Value>
    var doubleFields: map<real, Value>
    var boolFields: seq<Value>
    var stringFields: map<string, Value>
    var functionFields: map<nat, Value>
    var tableFields: map<nat, Value>
    var userdataFields: map<nat, Value>

    ghost predicate Valid() reads this {
      |boolFields| == 2
    }

    /** The value under a key. */
    ghost function Lookup(k: Value): Value
      reads this
      requires Valid()
    {
      match k
      case Nil => Nil
      case Elipsis => Nil
      case Bool(b) => boolFields[if b then 1 else 0]
      case Int(i) => FieldOf(intFields, i)
      case Double(d) => FieldOf(doubleFields, d)
      case Str(s) => FieldOf(stringFields, s)
      case Function(f) => FieldOf(functionFields, f)
      case Tab(t) => FieldOf(tableFields, t)
      case Userdata(u) => FieldOf(userdataFields, u)
    }

    /** There is an entry under the key, possibly one that holds nil. */
    ghost predicate Has(k: Value)
      reads this
    {
      match k
      case Nil => false
      case Elipsis => false
      case Bool(b) => true
      case Int(i) => i in intFields
      case Double(d) => d in doubleFields
      case Str(s) => s in stringFields
      case Function(f) => f in functionFields
      case Tab(t) => t in tableFields
      case Userdata(u) => u in userdataFields
    }

    ghost predicate Represents(m: Model)
      reads this
      requires Valid()
    {
      forall k: Value :: IsKey(k) ==> Lookup(k) == FieldOf(m, k)
    }

    /** No integer field holds nil. */
    ghost predicate NoNilIntegers()
      reads this
      requires Valid()
    {
      forall i: int :: Has(Int(i)) ==> Lookup(Int(i)) != Nil
    }

    ghost function ReadAt(p: Place): Value
      reads this
      requires Valid()
    {
      if p.Slot? then Lookup(p.key) else Nil
    }

    constructor (values: seq<(Value, Value)>)
      ensures Valid() && Represents(PairsModel(values))
      ensures forall i: int :: i in intFields <==> Int(i) in PairsModel(values)
    {
      boolFields := [Nil, Nil];
      intFields, doubleFields, stringFields := map[], map[], map[];
      functionFields, tableFields, userdataFields := map[], map[], map[];
      new;
      for n := 0 to |values|
        invariant Valid() && Represents(PairsModel(values[..n]))
        invariant forall i: int :: Has(Int(i)) <==> Int(i) in PairsModel(values[..n])
      {
        SetField(values[n].0, values[n].1);
        assert values[..n + 1][..n] == values[..n];
      }
      assert values[..|values|] == values;
      assert forall i: int :: Has(Int(i)) <==> i in intFields;
    }

    /** Sets a field; nil and the ellipsis are no keys and change nothing. */
    method SetField(k: Value, v: Value)
      requires Valid()
      modifies this
      ensures Valid()
      ensures forall k': Value :: Lookup(k') == if k' == k && IsKey(k) then v else old(Lookup(k'))
      ensures forall k': Value :: Has(k') <==> old(Has(k')) || (k' == k && IsKey(k))
    {
      match k
      case Nil =>
      case Elipsis =>
      case Bool(b) => boolFields := boolFields[(if b then 1 else 0) := v];
      case Int(i) => intFields := intFields[i := v];
      case Double(d) => doubleFields := doubleFields[d := v];
      case Str(s) => stringFields := stringFields[s := v];
      case Function(f) => functionFields := functionFields[f := v];
      case Tab(t) => tableFields := tableFields[t := v];
      case Userdata(u) => userdataFields := userdataFields[u := v];
    }

    /** The entry of one typed map: the slot, a new nil slot, or the shared nil. */
    static method Find<K(==)>(fields: map<K, Value>, k: K, setNil: bool, key: Value)
      returns (fields': map<K, Value>, p: Place)
      ensures p == if k in fields || setNil then Slot(key) else SharedNil
      ensures fields' == if k !in fields && setNil then fields[k := Nil] else fields
    {
      fields' := fields;
      if k !in fields {
        if !setNil {
          return fields, SharedNil;
        }
        fields' := fields[k := Nil];
      }
      p := Slot(key);
    }

    /** Finds a field; no value is changed, also where a nil entry is inserted. */
    method Subscript(k: Value, setNil: bool) returns (p: Place)
      requires Valid()
      modifies this
      ensures Valid()
      ensures forall k': Value :: Lookup(k') == old(Lookup(k'))
      ensures forall k': Value :: Has(k') <==> old(Has(k')) || (k' == k && IsKey(k) && setNil)
      ensures p == if !IsKey(k) then Failed else if old(Has(k)) || setNil then Slot(k) else SharedNil
      ensures IsKey(k) ==> ReadAt(p) == Lookup(k)
    {
      match k
      case Nil => p := Failed;
      case Elipsis => p := Failed;
      case Bool(b) => p := Slot(k);
      case Int(i) => intFields, p := Find(intFields, i, setNil, k);
      case Double(d) => doubleFields, p := Find(doubleFields, d, setNil, k);
      case Str(s) => stringFields, p := Find(stringFields, s, setNil, k);
      case Function(f) => functionFields, p := Find(functionFields, f, setNil, k);
      case Tab(t) => tableFields, p := Find(tableFields, t, setNil, k);
      case Userdata(u) => userdataFields, p := Find(userdataFields, u, setNil, k);
    }

    /** `t.name` is the subscript by the string. */
    method Dot(name: string, setNil: bool) returns (p: Place)
      requires Valid()
      modifies this
      ensures Valid()
      ensures forall k': Value :: Lookup(k') == old(Lookup(k'))
      ensures forall k': Value :: Has(k') <==> old(Has(k')) || (k' == Str(name) && setNil)
      ensures p == if old(Has(Str(name))) || setNil then Slot(Str(name)) else SharedNil
      ensures ReadAt(p) == Lookup(Str(name))
    {
      if name in stringFields {
        p := Slot(Str(name));
      } else if setNil {
        stringFields := stringFields[name := Nil];
        p := Slot(Str(name));
      } else {
        p := SharedNil;
      }
    }

    method AddField(name: string, v: Value)
      requires Valid()
      modifies this
      ensures Valid()
      ensures forall k': Value :: Lookup(k') == if k' == Str(name) then v else old(Lookup(k'))
      ensures forall k': Value :: Has(k') <==> old(Has(k')) || k' == Str(name)
    {
      stringFields := stringFields[name := v];
    }

    /** One operation as the interpreter performs it. */
    method Step(op: Op, ghost m: Model) returns (reply: Reply)
      requires Valid() && Represents(m)
      modifies this
      ensures Valid() && Represents(Updated(m, op)) && reply == Answer(m, op)
      ensures old(NoNilIntegers()) && KeepsIntegers(op) ==> NoNilIntegers()
    {
      reply := Done;
      match op
      case Put(k, v) => SetField(k, v);
      case AddField(s, v) => AddField(s, v);
      case Subscript(k, setNil) =>
        var p := Subscript(k, setNil);
        reply := if p.Failed? then Error else Got(Current(p));
      case Dot(s, setNil) =>
        var p := Dot(s, setNil);
        reply := Got(Current(p));
      case Store(k, v) =>
        var p := Subscript(k, true);
        if p.Failed? {
          reply := Error;
        } else {
          SetField(p.key, v);
        }
      case StoreDot(s, v) =>
        var p := Dot(s, true);
        SetField(p.key, v);
    }

    function Current(p: Place): (v: Value)
      reads this
      requires Valid()
      ensures v == ReadAt(p)
    {
      match p
      case Failed => Nil
      case SharedNil => Nil
      case Slot(k) =>
        match k
        case Nil => Nil
        case Elipsis => Nil
        case Bool(b) => boolFields[if b then 1 else 0]
        case Int(i) => FieldOf(intFields, i)
        case Double(d) => FieldOf(doubleFields, d)
        case Str(s) => FieldOf(stringFields, s)
        case Function(f) => FieldOf(functionFields, f)
        case Tab(t) => FieldOf(tableFields, t)
        case Userdata(u) => FieldOf(userdataFields, u)
    }

    /** Over every sequence of operations the seven maps answer as one map with nil as default. */
    method Run(ops: seq<Op>, ghost m: Model) returns (replies: seq<Reply>)
      requires Valid() && Represents(m)
      modifies this
      ensures Valid() && Represents(ModelAfter(m, ops)) && replies == Answers(m, ops)
      ensures old(NoNilIntegers()) && (forall i | 0 <= i < |ops| :: KeepsIntegers(ops[i])) ==> NoNilIntegers()
    {
      replies := [];
      for n := 0 to |ops|
        invariant Valid() && Represents(ModelAfter(m, ops[..n])) && replies == Answers(m, ops[..n])
        invariant old(NoNilIntegers()) && (forall i | 0 <= i < n :: KeepsIntegers(ops[i])) ==> NoNilIntegers()
      {
        assert ops[..n + 1][..n] == ops[..n];
        var reply := Step(ops[n], ModelAfter(m, ops[..n]));
        replies := replies + [reply];
      }
      assert ops[..|ops|] == ops;
    }

    /** Inserts a key into the ordered set. */
    static method Insert(keys: seq<int>, k: int) returns (r: seq<int>)
      requires Ascending(keys) && k !in keys
      ensures Ascending(r) && forall j: int :: j in r <==> j in keys || j == k
    {
      var n := |keys|;
      while n > 0 && keys[n - 1] > k
        invariant 0 <= n <= |keys| && forall i | n <= i < |keys| :: keys[i] > k
      {
        n := n - 1;
      }
      r := Inserted(keys, n, k);
      InsertedAscends(keys, n, k);
      forall j: int ensures j in r <==> j in keys || j == k {
        InsertedMembers(keys, n, k, j);
      }
    }

    /** The positive integer keys in ascending order. */
    method PositiveKeys() returns (keys: seq<int>)
      ensures Ascending(keys) && forall k: int :: k in keys <==> k in intFields && k > 0
    {
      keys := [];
      var rest := intFields.Keys;
      while rest != {}
        invariant Ascending(keys) && rest <= intFields.Keys
        invariant forall k: int :: k in keys <==> k in intFields && k > 0 && k !in rest
        decreases |rest|
      {
        NotEmpty(rest);
        var k :| k in rest;
        if k > 0 {
          keys := Insert(keys, k);
        }
        rest := rest - {k};
      }
    }

    /** Walks the positive keys in order up to the first gap. */
    method Border() returns (r: int)
      ensures EndsFirstRun(intFields.Keys, r)
    {
      var keys := PositiveKeys();
      for n := 0 to |keys|
        invariant n == 0 || n < |keys|
        invariant forall i | 0 <= i <= n && i < |keys| :: keys[i] == keys[0] + i
      {
        if n + 1 < |keys| {
          if keys[n] == keys[n + 1] - 1 {
            continue;
          }
          FoundEnd(intFields.Keys, keys, n);
          return keys[n];
        }
        FoundEnd(intFields.Keys, keys, n);
        return keys[n];
      }
      NoEnd(intFields.Keys, keys);
      r := 0;
    }

    /** The result is a border exactly when the first run of keys does not end with a nil field; so it
        always is without nil-valued integer fields. */
    method Length() returns (r: int)
      requires Valid()
      ensures IsBorder(intFields, r) <==> !NilEndsFirstRun(intFields)
      ensures NoNilIntegers() ==> IsBorder(intFields, r)
    {
      r := Border();
      EndIsBorder(intFields, r);
      if NoNilIntegers() {
        assert forall i: int :: i in intFields ==> Has(Int(i)) && Lookup(Int(i)) == intFields[i];
      }
    }
  }

  /** A table made by a positional constructor. */
  method ConstructPositional(fields: seq<Field>) returns (t: Table, r: int)
    requires AllPositional(fields)
    ensures t.Valid() && forall i: int :: t.Lookup(Int(i)) == if 1 <= i <= |fields| then fields[i - 1].value else Nil
    ensures r == Prefix(fields)
      <==> (fields != [] && fields[0].value != Nil) || forall i | 0 <= i < |fields| :: fields[i].value == Nil
    ensures IsBorder(t.intFields, r)
  {
    var values := VisitFieldlist(fields);
    t := new Table(values);
    r := t.Border();
    forall i: int ensures t.Lookup(Int(i)) == (if 1 <= i <= |fields| then fields[i - 1].value else Nil)
      ensures i in t.intFields ==> t.intFields[i] != Nil
    {
      PositionalKeys(fields, i);
      assert t.Lookup(Int(i)) == FieldOf(PairsModel(values), Int(i));
    }
    PositionalBorder(fields, t.intFields.Keys, r);
    EndIsBorder(t.intFields, r);
  }
}
