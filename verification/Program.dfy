/** A program from its parse tree to its end: the analyser walks it, its gotos are validated, and
the interpreter runs it with the analyser's tables. */
module Program {
  import opened Syntax
  import opened Scoping
  import opened Scopes
  import opened Forest
  import opened GotoRules
  import opened TreeRules
  import opened Analysis
  import opened Control
  import opened Flow
  import opened Traces
  import opened Interpretation

  datatype Result =
    | LonelyBreak
    | Invalid(verdict: Verdict)
    | Ran(outcome: Outcome)

  /** The text of the program gives the reason of a rejection. */
  ghost predicate TextRejects(chunk: Block, v: Verdict) {
    exists f :: f in Roots(chunk) && FunctionRejects(f, v)
  }

  ghost predicate FunctionRejects(f: Block, v: Verdict) {
    || (v.LabelAlreadyDefined? && RepeatsLabel(f, v.mark))
    || exists w: seq<Spot>, l: Name :: GotoAt(f, w, l) && RejectedGoto(w, l, v)
  }

  /** The analysis of a program, whatever the program is.  It is accepted exactly when its text is legal: the walk
      meets no break outside all loops, no block holds a label twice, and every goto of every function has its
      label before it, or ahead with no declaration in between. */
  method Launch(chunk: Block) returns (r: Result, analyzer: SyntacticAnalyzer)
    requires WellFormed(chunk) && Distinct(chunk)
    ensures fresh(analyzer)
    ensures r.LonelyBreak? <==> !Passes(chunk, false)
    ensures r.Ran? <==> Passes(chunk, false) && forall f | f in Roots(chunk) :: TextLegal(f)
    ensures r.Invalid? ==> Passes(chunk, false) && TextRejects(chunk, r.verdict)
    ensures r.Invalid? ==>
              && ScopesOf(analyzer.scopes, Roots(chunk))
              && exists k | 0 <= k < |analyzer.scopes| ::
                   || (r.verdict.LabelAlreadyDefined?
                       && SomeRepeated(Roots(chunk)[k], analyzer.scopes[k].elements, r.verdict.mark))
                   || SomeRejected(analyzer.scopes[k].elements, [], Roots(chunk)[k].id, r.verdict)
    ensures r.Ran? ==>
              && r.outcome.Normal?
              && Analyzed(chunk, map[], [chunk.id], analyzer.T())
              && ScopesOf(analyzer.scopes, Roots(chunk))
              && (forall k | 0 <= k < |analyzer.scopes| :: ScopeLegal(analyzer.scopes[k], Roots(chunk)[k]))
    ensures r.Ran? ==> forall f | f in Roots(chunk) :: Escaping(f) == {}
  {
    hide Analyzed, Ids, Own, WellFormed, Distinct, Passes, ScopeLegal, Roots, ScopeOf, SomeRejected, SomeRepeated,
      TextLegal, TextRejects;
    analyzer := new SyntacticAnalyzer();
    var ok := analyzer.WalkChunk(chunk);
    if !ok {
      return LonelyBreak, analyzer;
    }
    var v := analyzer.ValidateGotos(chunk);
    ScopesAgree(chunk, analyzer.scopes);
    if !v.Accepted? {
      VerdictAgrees(chunk, analyzer.scopes, v);
      return Invalid(v), analyzer;
    }
    forall f | f in Roots(chunk) ensures Escaping(f) == {} {
      var k :| 0 <= k < |Roots(chunk)| && Roots(chunk)[k] == f;
      AcceptedStays(analyzer.scopes[k], f);
    }
    r := Ran(Normal);
  }

  /** Functions of a well-formed program are well formed. */
  lemma {:induction false} FuncsWellFormed(b: Block, i: nat)
    requires WellFormed(b) && i <= |b.stats|
    ensures forall f | f in FuncsUpTo(b, i) :: WellFormed(f)
    decreases b, 0, i
  {
    if i > 0 {
      FuncsWellFormed(b, i - 1);
      assert WellFormedStat(b.stats[i - 1]);
      StatFuncsWellFormed(b.stats[i - 1], |b.stats[i - 1].nodes|);
    }
  }

  lemma {:induction false} StatFuncsWellFormed(s: Stat, j: nat)
    requires WellFormedStat(s) && j <= |s.nodes|
    ensures forall f | f in StatFuncs(s, j) :: WellFormed(f)
    decreases s, 0, j
  {
    if j > 0 {
      StatFuncsWellFormed(s, j - 1);
      var b := s.nodes[j - 1].block;
      FuncsWellFormed(b, |b.stats|);
    }
  }

  lemma RootWellFormed(chunk: Block, k: nat)
    requires WellFormed(chunk) && k < |Roots(chunk)|
    ensures WellFormed(Roots(chunk)[k])
  {
    hide WellFormed, FuncsUpTo;
    FuncsWellFormed(chunk, |chunk.stats|);
    if k > 0 {
      assert Roots(chunk)[k] == Funcs(chunk)[k - 1];
    }
  }

  /** The scopes are legal exactly when the text of every function is. */
  lemma ScopesAgree(chunk: Block, scopes: seq<Scope>)
    requires WellFormed(chunk) && ScopesOf(scopes, Roots(chunk))
    ensures (forall k | 0 <= k < |scopes| :: ScopeLegal(scopes[k], Roots(chunk)[k]))
      <==> forall f | f in Roots(chunk) :: TextLegal(f)
  {
    hide WellFormed, TextLegal, Roots, Tabled, AllUnique, AllLegal, Own;
    var roots := Roots(chunk);
    forall k | 0 <= k < |scopes| ensures ScopeLegal(scopes[k], roots[k]) <==> TextLegal(roots[k]) {
      assert ScopeOf(scopes[k], roots[k]);
      RootWellFormed(chunk, k);
      TextAgrees(roots[k], scopes[k].elements);
    }
    if forall k | 0 <= k < |scopes| :: ScopeLegal(scopes[k], roots[k]) {
      forall f | f in roots ensures TextLegal(f) {
        var k :| 0 <= k < |roots| && roots[k] == f;
        assert ScopeLegal(scopes[k], roots[k]);
      }
    }
  }

  lemma VerdictAgrees(chunk: Block, scopes: seq<Scope>, v: Verdict)
    requires WellFormed(chunk) && ScopesOf(scopes, Roots(chunk))
    requires exists k | 0 <= k < |scopes| ::
               || (v.LabelAlreadyDefined? && SomeRepeated(Roots(chunk)[k], scopes[k].elements, v.mark))
               || SomeRejected(scopes[k].elements, [], Roots(chunk)[k].id, v)
    ensures TextRejects(chunk, v)
  {
    hide WellFormed, Roots, Tabled, Own, SomeRejected, SomeRepeated, GotoAt, RejectedGoto, RepeatsLabel;
    var k :| 0 <= k < |scopes| &&
             ((v.LabelAlreadyDefined? && SomeRepeated(Roots(chunk)[k], scopes[k].elements, v.mark))
              || SomeRejected(scopes[k].elements, [], Roots(chunk)[k].id, v));
    var f := Roots(chunk)[k];
    assert ScopeOf(scopes[k], f);
    RootWellFormed(chunk, k);
    if v.LabelAlreadyDefined? && SomeRepeated(f, scopes[k].elements, v.mark) {
      RepeatsAgree(f, scopes[k].elements, v.mark);
    } else {
      RejectedText(f, scopes[k].elements, v);
    }
    assert FunctionRejects(f, v);
  }

  /** Static and dynamic checks together.  In every run of a program whose breaks have enclosing loops in
      their own functions, no break and no goto leaves a function or the program, and the program ends in a
      way its text allows.  Only a function called from one of its own blocks can lead to a stack that is
      found unbalanced; and every goto that was caught in an activation without such leftovers was caught by
      the innermost block of the activation that holds the label. */
  method Interpret(chunk: Block, depth: nat)
      returns (r: Result, ghost run: Visit, ghost jumps: seq<Jump>, ghost t: Tables, ghost selfCalled: bool)
    requires WellFormed(chunk) && Distinct(chunk)
    requires BreaksEnclosed(chunk)
    ensures !r.LonelyBreak?
    ensures r.Ran? <==> forall f | f in Roots(chunk) :: TextLegal(f)
    ensures r.Ran? ==> r.outcome.Normal? || r.outcome.Return? || Fatal(r.outcome)
    ensures r == Ran(Outcome.Unbalanced) ==> selfCalled
    ensures r.Ran? ==> forall f, o: Outcome | f in Roots(chunk) && BlockCan(f, 0, o) :: !o.Goto? && !o.Break?
    ensures r.Ran? ==> Fatal(r.outcome) || BlockCan(chunk, 0, r.outcome)
    ensures r.Ran? ==> Fatal(r.outcome) || (BlockRan(chunk, t, run) && run.outcome == r.outcome)
    ensures r.Ran? ==> Fatal(r.outcome) || run.start == Memory(map[], [], map[], 0)
    ensures t.plain == NoShadow(chunk, map[], [chunk.id])
    ensures r.Ran? ==> Analyzed(chunk, map[], [chunk.id], t) && forall j | j in jumps :: JumpOk(j, t)
  {
    hide Analyzed, Ids, Own, WellFormed, Distinct, Passes, ScopeLegal, ScopeOf, Ready, NoShadow, JumpOk, GoodFunction,
      BlockCan, BlockRan, TextLegal;
    BreaksPass(chunk);
    ghost var none := Memory(map[], [], map[], 0);
    run := Visit(Normal, none, none, []);
    var analyzer;
    r, analyzer := Launch(chunk);
    var plain := NoShadow(chunk, map[], [chunk.id]);
    var tables := Tables(analyzer.labelToContext, analyzer.localsPerBlock, analyzer.functionsParents, plain);
    jumps, t, selfCalled := [], tables, false;
    if !r.Ran? {
      return;
    }
    AnalyzedStable(chunk, map[], [chunk.id], analyzer.T(), t);
    RunIsReady(chunk, t);
    NothingLeaves(chunk);
    var interpreter := new Interpreter(tables);
    var o;
    o, run := interpreter.VisitChunk(chunk, depth);
    jumps, selfCalled := interpreter.jumps, interpreter.selfCalled;
    r := Ran(o);
  }

  lemma BreaksPass(chunk: Block)
    requires WellFormed(chunk) && BreaksEnclosed(chunk)
    ensures Passes(chunk, false)
  {
    EnclosedBreaksPass(chunk, false);
  }

  lemma {:induction false} RunIsReady(chunk: Block, t: Tables)
    requires WellFormed(chunk) && Distinct(chunk) && BreaksEnclosed(chunk)
    requires t.plain ==> NoShadow(chunk, map[], [chunk.id])
    requires Analyzed(chunk, map[], [chunk.id], t) && forall f | f in Roots(chunk) :: Escaping(f) == {}
    ensures Ready(chunk, map[], [chunk.id], [chunk.id], t) && Contained(chunk)
  {
    hide Analyzed, Ids, WellFormed, Distinct, Ready, NoShadow, Funcs, FreeBreak, Escaping, Contained, BreaksEnclosed,
      Roots;
    RootsContained(chunk);
    AnalyzedIsReady(chunk, map[], [chunk.id], [chunk.id], t);
  }

  /** What the text of an accepted program allows its functions to end with. */
  lemma NothingLeaves(chunk: Block)
    requires BreaksEnclosed(chunk) && forall f | f in Roots(chunk) :: Escaping(f) == {}
    ensures forall f, o: Outcome | f in Roots(chunk) && BlockCan(f, 0, o) :: !o.Goto? && !o.Break?
  {
    hide BreaksEnclosed, Funcs, Contained, BlockCan, Escaping;
    RootsContained(chunk);
    forall f, o: Outcome | f in Roots(chunk) && BlockCan(f, 0, o) ensures !o.Goto? && !o.Break? {
      ContainedEnds(f, o);
    }
  }

  lemma {:induction false} RootsContained(chunk: Block)
    requires BreaksEnclosed(chunk) && forall f | f in Roots(chunk) :: Escaping(f) == {}
    ensures Contained(chunk) && forall f | f in Funcs(chunk) :: Contained(f)
  {
    hide Funcs, FreeBreak, Escaping;
    assert Roots(chunk)[0] == chunk;
    forall f | f in Funcs(chunk) ensures Contained(f) {
      assert f in Roots(chunk);
    }
  }
}
