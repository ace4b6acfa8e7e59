/** The control flow of a program without any stack: how blocks and statements can end.  Conditions are
open, so these are the ends that the text of a program allows. */
module Flow {
  import opened Syntax
  import opened Scoping
  import opened Control

  /** The text of a label statement, as the search for the target of a goto reads it. */
  function LabelText(l: Name): string {
    "::" + l + "::"
  }

  predicate IsTarget(s: Stat, l: Name) {
    s.kind.Label? && LabelText(s.kind.mark) == l
  }

  /** Where a caught goto continues: the first statement from `from` on that is its target, or the end. */
  function Target(b: Block, from: nat, l: Name): (i: nat)
    requires from <= StatCount(b)
    ensures from <= i <= StatCount(b)
    decreases StatCount(b) - from
  {
    if from == StatCount(b) || IsTarget(b.stats[from], l) then from else Target(b, from + 1, l)
  }

  /** The label's text has colons and the name of a goto has none, so that the search never succeeds:
      after a goto is caught, the rest of the block is skipped up to its return statement. */
  lemma {:induction false} TargetIsNeverFound(b: Block, from: nat, l: Name)
    requires from <= StatCount(b) && (l == "" || l[0] != ':')
    ensures Target(b, from, l) == StatCount(b)
    decreases StatCount(b) - from
  {
    if from < StatCount(b) {
      if b.stats[from].kind.Label? {
        var text := LabelText(b.stats[from].kind.mark);
        assert text[0] == ':' && |text| >= 4;
      }
      TargetIsNeverFound(b, from + 1, l);
    }
  }

  function Left(b: Block, i: nat): nat {
    if i <= |b.stats| then |b.stats| - i else 0
  }

  /** Block `b`, from its statement `i` on, can end with `o`. */
  ghost predicate BlockCan(b: Block, i: nat, o: Outcome)
    decreases b, Left(b, i), 1
  {
    if i < StatCount(b) then
      exists first: Outcome :: StatCan(b.stats[i], first) && StepsTo(b, i, first, o)
    else if StatCount(b) < |b.stats| then
      StatCan(b.stats[StatCount(b)], o)
    else
      o.Normal?
  }

  /** When statement `i` has ended with `first`, the block can end with `o`. */
  ghost predicate StepsTo(b: Block, i: nat, first: Outcome, o: Outcome)
    requires i < StatCount(b)
    decreases b, Left(b, i), 0
  {
    match first
    case Normal => BlockCan(b, i + 1, o)
    case Goto(l) => if l in LabelNames(b) then BlockCan(b, Target(b, i + 1, l) + 1, o) else o == first
    case _ => o == first
  }

  /** Statement `s` can end with `o`. */
  ghost predicate StatCan(s: Stat, o: Outcome)
    decreases s, 0, 0
  {
    match s.kind
    case Break => o.Break?
    case Goto(l) => o == Outcome.Goto(l)
    case Return => o.Return?
    case Do => s.nodes != [] && s.nodes[0].Sub? && BlockCan(s.nodes[0].block, 0, o)
    case If(otherwise) =>
      || (!otherwise && o.Normal?)
      || exists j :: 0 <= j < |s.nodes| && s.nodes[j].Sub? && BlockCan(s.nodes[j].block, 0, o)
    case Repeat =>
      s.nodes != [] && s.nodes[0].Sub? && var body := s.nodes[0].block;
      if o.Normal? then BlockCan(body, 0, Normal) || BlockCan(body, 0, Outcome.Break)
      else (o.Goto? || o.Return?) && BlockCan(body, 0, o)
    case While | NumFor(_) | ForIn(_) =>
      s.nodes != [] && s.nodes[|s.nodes| - 1].Sub?
          && (o.Normal? || ((o.Goto? || o.Return?) && BlockCan(s.nodes[|s.nodes| - 1].block, 0, o)))
    case _ => o.Normal?
  }

  /** The body of a loop can end with a break. */
  ghost predicate BodyBreaks(s: Stat) {
    && IsLoop(s.kind) && 0 <= BodyIndex(s) < |s.nodes|
    && BlockCan(s.nodes[BodyIndex(s)].block, 0, Outcome.Break)
  }

  // ----- the static view -----

  /** A goto that ends a block is one that no block on the way up holds, and a break is one that no loop
      encloses. */
  lemma {:induction false} BlockEndsAreStatic(b: Block, i: nat, o: Outcome)
    requires BlockCan(b, i, o)
    ensures o.Goto? ==> o.target in Escaping(b)
    ensures o.Break? ==> FreeBreak(b)
    decreases b, Left(b, i)
  {
    if i < StatCount(b) {
      var first: Outcome :| StatCan(b.stats[i], first) && StepsTo(b, i, first, o);
      match first
      case Normal =>
        BlockEndsAreStatic(b, i + 1, o);
      case Goto(l) =>
        if l in LabelNames(b) {
          BlockEndsAreStatic(b, Target(b, i + 1, l) + 1, o);
        } else {
          StatEndsAreStatic(b.stats[i], first);
        }
      case _ =>
        StatEndsAreStatic(b.stats[i], first);
    } else if StatCount(b) < |b.stats| {
      StatEndsAreStatic(b.stats[StatCount(b)], o);
    }
  }

  lemma {:induction false} StatEndsAreStatic(s: Stat, o: Outcome)
    requires StatCan(s, o)
    ensures o.Goto? ==> o.target in StatGotos(s)
    ensures o.Break? ==> FreeBreakStat(s)
    decreases s, 0
  {
    forall j | 0 <= j < |s.nodes| && s.nodes[j].Sub? && BlockCan(s.nodes[j].block, 0, o)
      ensures o.Goto? ==> o.target in Escaping(s.nodes[j].block)
      ensures o.Break? ==> FreeBreak(s.nodes[j].block)
    {
      BlockEndsAreStatic(s.nodes[j].block, 0, o);
    }
  }

  /** What a function body that contains its jumps can end with. */
  lemma ContainedEnds(b: Block, o: Outcome)
    requires Contained(b) && BlockCan(b, 0, o)
    ensures !o.Goto? && !o.Break?
  {
    BlockEndsAreStatic(b, 0, o);
  }

  /** Neither a break nor a goto leaves a function. */
  lemma FunctionEnds(f: Closure, c: Ctx, t: Tables, o: Outcome)
    requires FunctionAt(f, c, t) && BlockCan(f.body, 0, o) && !Fatal(o)
    ensures o.Normal? || o.Return?
  {
    hide StaticOk, Ready, BlockCan;
    ContainedEnds(f.body, o);
  }
}
