/** Functions of the host program: the arguments of a call are converted and bound one by one along a
chain of stages, one per parameter, and the last stage runs the function. */
module Curried {
  import opened Helpers

  /** A Lua value, by its type and its contents. */
  datatype Value = Value(tag: nat, contents: int)

  /** What a conversion gives to the host function; a variant also records the alternative. */
  datatype Converted = Plainly(contents: int) | Alternative(tag: nat, contents: int)

  /** The type of a parameter.  Parameters of optional type are never converted. */
  datatype Param = Plain(tag: nat) | Variant(alternatives: seq<nat>) | Optional

  /** The registered conversions; one that yields nothing has thrown. */
  type Converter = map<nat, Value -> Option<int>>

  // ----- conversion of one argument -----

  function PlainConversion(conv: Converter, tag: nat, v: Value): Option<int> {
    if tag in conv then conv[tag](v) else None
  }

  /** The first alternative of the value's own type. */
  function ConvertVariant(conv: Converter, alternatives: seq<nat>, v: Value): Option<Converted> {
    if alternatives == [] then None
    else if v.tag == alternatives[0] then
      match PlainConversion(conv, alternatives[0], v)
      case Some(x) => Some(Alternative(alternatives[0], x))
      case None => None
    else ConvertVariant(conv, alternatives[1..], v)
  }

  function Convert(conv: Converter, p: Param, v: Value): Option<Converted> {
    match p
    case Plain(t) =>
      (match PlainConversion(conv, t, v)
       case Some(x) => Some(Plainly(x))
       case None => None)
    case Variant(alternatives) => ConvertVariant(conv, alternatives, v)
    case Optional => None
  }

  /** A variant takes a value exactly when the value's own type is an alternative and converts, and the
      order of the alternatives does not matter. */
  lemma {:induction false} VariantTakesOwnType(conv: Converter, alternatives: seq<nat>, v: Value)
    ensures Convert(conv, Variant(alternatives), v)
      == if v.tag in alternatives && PlainConversion(conv, v.tag, v).Some?
         then Some(Alternative(v.tag, PlainConversion(conv, v.tag, v).value)) else None
  {
    if alternatives != [] && v.tag != alternatives[0] {
      VariantTakesOwnType(conv, alternatives[1..], v);
      assert Convert(conv, Variant(alternatives), v) == Convert(conv, Variant(alternatives[1..]), v);
    }
  }

  /** A plain parameter takes a value exactly when a conversion is registered for its own type and yields
      something, which it then receives; an optional one never takes a value. */
  lemma PlainTakesRegistered(conv: Converter, tag: nat, v: Value, c: Converted)
    ensures Convert(conv, Plain(tag), v) == Some(c) <==>
              tag in conv && c.Plainly? && conv[tag](v) == Some(c.contents)
    ensures Convert(conv, Optional, v).None?
  {
  }

  // ----- outcomes of a call -----

  datatype Outcome =
    | Invoked(args: seq<Converted>)
    | ConversionError(argument: nat)
    | BindOverflow
    | UnboundedCall
    | BadFunctionCall

  /** The first `n` arguments have been converted, in order. */
  ghost predicate Converts(conv: Converter, params: seq<Param>, values: seq<Value>, n: nat, args: seq<Converted>)
    requires n <= |params| && n <= |values|
  {
    |args| == n && forall i | 0 <= i < n :: Convert(conv, params[i], values[i]) == Some(args[i])
  }

  /** Argument number `i` is the first that does not convert. */
  ghost predicate FirstFailure(conv: Converter, params: seq<Param>, values: seq<Value>, i: nat) {
    && i < |params| && i < |values| && Convert(conv, params[i], values[i]).None?
    && forall j | 0 <= j < i :: Convert(conv, params[j], values[j]).Some?
  }

  ghost predicate AllConvert(conv: Converter, params: seq<Param>, values: seq<Value>) {
    forall i | 0 <= i < |params| && i < |values| :: Convert(conv, params[i], values[i]).Some?
  }

  /** A function object: empty, the host function itself, or one with its next argument filled in. */
  datatype Function = Empty | Host | Bound(target: Function, arg: Converted)

  /** The arguments a function object runs the host function with; none if there is nothing to run. */
  function Arguments(f: Function): Option<seq<Converted>> {
    match f
    case Empty => None
    case Host => Some([])
    case Bound(g, x) =>
      match Arguments(g)
      case None => None
      case Some(args) => Some(args + [x])
  }

  class CurriedFunction {
    const conv: Converter
    const params: seq<Param>
    var bound: seq<bool>             // one per parameter
    var functions: seq<Function>     // one per parameter and one for the end of the chain
    var invocations: seq<seq<Converted>>

    /** The first `|args|` stages are bound, and each stage holds the function of the arguments before. */
    ghost predicate Holds(args: seq<Converted>) reads this {
      && |bound| == |params| && |functions| == |params| + 1 && |args| <= |params|
      && (forall i | 0 <= i < |params| :: bound[i] <==> i < |args|)
      && (forall i | 0 <= i <= |args| :: Arguments(functions[i]) == Some(args[..i]))
    }

    /** Builds the chain and gives its first stage the host function. */
    constructor (conv: Converter, params: seq<Param>)
      ensures this.conv == conv && this.params == params && Holds([]) && invocations == []
    {
      this.conv, this.params, invocations := conv, params, [];
      bound := seq(|params|, _ => false);
      functions := [Host] + seq(|params|, _ => Empty);
    }

    /** Binds a value in stage `i` or passes it on.  A failed conversion changes nothing. */
    method BindNext(i: nat, v: Value, ghost args: seq<Converted>)
        returns (failure: Option<Outcome>, ghost args': seq<Converted>)
      requires Holds(args) && i <= |args|
      modifies this`bound, this`functions
      ensures Holds(args')
      ensures |args| == |params| ==> failure == Some(BindOverflow) && args' == args
      ensures |args| < |params| && Convert(conv, params[|args|], v).None? ==>
                failure == Some(ConversionError(|args|)) && args' == args
      ensures |args| < |params| && Convert(conv, params[|args|], v).Some? ==>
                failure == None && args' == args + [Convert(conv, params[|args|], v).value]
      decreases |params| - i
    {
      args' := args;
      if i == |params| {
        return Some(BindOverflow), args;
      }
      if bound[i] {
        failure, args' := BindNext(i + 1, v, args);
        return;
      }
      var result := Convert(conv, params[i], v);
      if result.None? {
        return Some(ConversionError(i)), args;
      }
      args' := args + [result.value];
      assert args'[..i + 1] == args[..i] + [result.value];
      assert forall k | 0 <= k <= i :: args'[..k] == args[..k];
      functions := functions[i + 1 := Bound(functions[i], result.value)];
      bound := bound[i := true];
      failure := None;
    }

    /** Goes along the chain to its end, as long as every stage is bound, and runs the function there. */
    method Call(i: nat, ghost args: seq<Converted>) returns (r: Outcome)
      requires Holds(args) && i <= |args|
      modifies this`invocations
      ensures |args| < |params| ==> r == UnboundedCall && invocations == old(invocations)
      ensures |args| == |params| ==> r == Invoked(args) && invocations == old(invocations) + [args]
      decreases |params| - i
    {
      if i == |params| {
        var all := Arguments(functions[i]);
        assert args[..i] == args;
        invocations := invocations + [all.value];
        return Invoked(all.value);
      }
      if !bound[i] {
        return UnboundedCall;
      }
      r := Call(i + 1, args);
    }
  }

  /** Calls a host function.  Its base class forwards to handlers that a function without parameters
      never installs. */
  method CallCFunction(conv: Converter, params: seq<Param>, values: seq<Value>)
    returns (r: Outcome, invocations: seq<seq<Converted>>)
    ensures invocations == if r.Invoked? then [r.args] else []
    ensures r.BadFunctionCall? <==> params == []
    ensures r.Invoked? <==> params != [] && |values| == |params| && AllConvert(conv, params, values)
    ensures r.Invoked? ==> Converts(conv, params, values, |params|, r.args)
    ensures r.BindOverflow? <==> params != [] && |values| > |params| && AllConvert(conv, params, values)
    ensures r.UnboundedCall? <==> params != [] && |values| < |params| && AllConvert(conv, params, values)
    ensures forall i: nat :: r == ConversionError(i) <==> params != [] && FirstFailure(conv, params, values, i)
  {
    if params == [] {
      return BadFunctionCall, [];
    }
    var f := new CurriedFunction(conv, params);
    ghost var args: seq<Converted> := [];
    for n := 0 to |values|
      invariant fresh(f) && f.Holds(args) && f.invocations == []
      invariant n <= |params| && Converts(conv, params, values, n, args)
    {
      var failure;
      failure, args := f.BindNext(0, values[n], args);
      if failure.Some? {
        if n < |params| {
          assert FirstFailure(conv, params, values, n);
        }
        return failure.value, f.invocations;
      }
    }
    r := f.Call(0, args);
    invocations := f.invocations;
  }
}
