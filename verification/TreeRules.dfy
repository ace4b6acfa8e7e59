/** The rules for gotos and labels stated over the parse tree: what the lists of a scope say about a goto is what
its statements say.  Nothing here looks at a list, except the lemmas that connect the two. */
module TreeRules {
  import opened Syntax
  import opened Scoping
  import opened Scopes
  import opened Forest
  import opened GotoRules

  // ----- what a statement declares -----

  /** The names that a statement makes local for the rules; a function statement counts. */
  function ScopedNames(k: Kind): seq<Name> {
    match k
    case Local(ns) => ns
    case LocalFunction(n) => [n]
    case Function(n) => [n]
    case _ => []
  }

  /** The names that statements `i` to `j` of a block declare, in their order. */
  function NamesBetween(b: Block, i: nat, j: nat): seq<Name>
    requires j <= |b.stats|
  {
    if j <= i then [] else NamesBetween(b, i, j - 1) + ScopedNames(b.stats[j - 1].kind)
  }

  lemma {:induction false} NothingBetween(b: Block, i: nat, j: nat)
    requires j <= |b.stats|
    ensures NamesBetween(b, i, j) == [] <==> forall k | i <= k < j :: ScopedNames(b.stats[k].kind) == []
  {
    if i < j {
      NothingBetween(b, i, j - 1);
    }
  }

  // ----- ways down the tree -----

  /** Child `node` of statement `at` of a block; in front of a goto only the statement counts. */
  datatype Spot = Spot(block: Block, at: nat, node: nat)

  ghost predicate LeadsTo(s: Spot, b: Block) {
    && s.at < |s.block.stats| && s.node < |s.block.stats[s.at].nodes|
    && s.block.stats[s.at].nodes[s.node] == Sub(b)
  }

  ghost predicate IsWay(root: Block, w: seq<Spot>) {
    && w != [] && w[0].block == root
    && (forall k | 0 <= k < |w| :: w[k].at < |w[k].block.stats|)
    && (forall k | 0 <= k < |w| - 1 :: LeadsTo(w[k], w[k + 1].block))
  }

  /** A goto of a function, with the blocks around it. */
  ghost predicate GotoAt(root: Block, w: seq<Spot>, l: Name) {
    IsWay(root, w) && w[|w| - 1].block.stats[w[|w| - 1].at].kind == Kind.Goto(l)
  }

  predicate LabelAt(s: Spot, i: nat, l: Name) {
    i < |s.block.stats| && s.block.stats[i].kind == Kind.Label(l)
  }

  /** The label stands before the goto, in a block around it. */
  ghost predicate LabelBefore(w: seq<Spot>, l: Name) {
    exists k: nat, i: nat :: k < |w| && i < w[k].at && LabelAt(w[k], i, l)
  }

  /** The label stands ahead of the goto in one of the blocks around it. */
  ghost predicate LabelAhead(w: seq<Spot>, l: Name) {
    exists k: nat, i: nat :: k < |w| && w[k].at < i && LabelAt(w[k], i, l)
  }

  /** The nearest label ahead: the first one of the innermost block that has one. */
  ghost predicate NearestAhead(w: seq<Spot>, l: Name, k: nat, i: nat) {
    && k < |w| && w[k].at < i && LabelAt(w[k], i, l)
    && (forall i': nat | w[k].at < i' < i :: !LabelAt(w[k], i', l))
    && (forall k': nat, i': nat | k < k' < |w| && w[k'].at < i' :: !LabelAt(w[k'], i', l))
  }

  /** A goto is legal when its label stands before it, or no name is declared between the goto and the nearest
      label ahead. */
  ghost predicate LegalGoto(w: seq<Spot>, l: Name) {
    || LabelBefore(w, l)
    || exists k: nat, i: nat :: NearestAhead(w, l, k, i) && NamesBetween(w[k].block, w[k].at + 1, i) == []
  }

  /** Why a goto is rejected. */
  ghost predicate RejectedGoto(w: seq<Spot>, l: Name, v: Verdict) {
    && !LabelBefore(w, l)
    && match v
       case InvisibleLabel(l') => l' == l && !LabelAhead(w, l)
       case CrossedLocal(l', crossed) =>
         && l' == l && crossed != []
         && exists k: nat, i: nat :: NearestAhead(w, l, k, i) && crossed == NamesBetween(w[k].block, w[k].at + 1, i)
       case _ => false
  }

  ghost predicate GotosLegal(root: Block) {
    forall w: seq<Spot>, l: Name | GotoAt(root, w, l) :: LegalGoto(w, l)
  }

  /** A block of the function holds the label twice. */
  ghost predicate RepeatsLabel(b: Block, l: Name) {
    || (exists i, j :: 0 <= i < j < |b.stats| && b.stats[i].kind == Kind.Label(l) && b.stats[j].kind == Kind.Label(l))
    || exists i, j :: 0 <= i < |b.stats| && 0 <= j < |b.stats[i].nodes| && b.stats[i].nodes[j].Sub?
                      && RepeatsLabel(b.stats[i].nodes[j].block, l)
  }

  /** The text of a function keeps the rules. */
  ghost predicate TextLegal(root: Block) {
    GotosLegal(root) && LabelsUnique(root)
  }

  ghost predicate LabelsUnique(root: Block) {
    forall l: Name :: !RepeatsLabel(root, l)
  }

  // ----- the part of a list that belongs to a statement -----

  /** Where the part of statement `i` begins. */
  function Base(b: Block, i: nat): nat
    requires i <= |b.stats|
  {
    |ElementsUpTo(b, i)|
  }

  function Part(s: Stat): seq<Element> {
    StatElements(s, |s.nodes|)
  }

  /** The parts follow each other in the order of the statements. */
  lemma PartPlace(b: Block, i: nat)
    requires i < |b.stats|
    ensures Base(b, i) + |Part(b.stats[i])| == Base(b, i + 1) <= |ElementsOf(b)|
    ensures ElementsOf(b)[Base(b, i)..Base(b, i + 1)] == Part(b.stats[i])
    ensures forall o | 0 <= o < |Part(b.stats[i])| :: ElementsOf(b)[Base(b, i) + o] == Part(b.stats[i])[o]
  {
    Prefix(b, i + 1, |b.stats|);
    var es := ElementsUpTo(b, i + 1);
    assert es == ElementsUpTo(b, i) + Part(b.stats[i]);
    assert ElementsOf(b)[..Base(b, i + 1)] == es;
    assert ElementsOf(b)[Base(b, i)..Base(b, i + 1)] == es[Base(b, i)..];
  }

  lemma {:induction false} PartOf(b: Block, n: nat, pos: nat) returns (i: nat)
    requires n <= |b.stats| && pos < Base(b, n)
    ensures i < n && Base(b, i) <= pos < Base(b, i + 1)
  {
    if pos < Base(b, n - 1) {
      i := PartOf(b, n - 1, pos);
    } else {
      i := n - 1;
    }
  }

  lemma BaseGrows(b: Block, i: nat, j: nat)
    requires i <= j <= |b.stats|
    ensures Base(b, i) <= Base(b, j)
  {
    Prefix(b, i, j);
  }

  /** What a statement itself contributes stands at the front of its part, its blocks behind. */
  lemma {:induction false} PartElements(s: Stat, n: nat, o: nat)
    requires n <= |s.nodes| && o < |StatElements(s, n)|
    ensures |KindElements(s.kind)| <= |StatElements(s, n)|
    ensures if o < |KindElements(s.kind)| then StatElements(s, n)[o] == KindElements(s.kind)[o]
            else StatElements(s, n)[o].BlockE?
  {
    if n > 0 {
      StatPrefix(s, 0, n - 1);
      StatPrefix(s, 0, n);
      if o < |StatElements(s, n - 1)| {
        PartElements(s, n - 1, o);
      }
    }
  }

  /** In the part of a statement a name stands as a local exactly when the statement declares it, and in the
      order in which it declares it; a label or a goto exactly when the statement is one, and then first. */
  lemma {:induction false} PartMeaning(s: Stat, o: nat)
    requires o < |Part(s)|
    ensures Part(s)[o].LocalE? <==> o < |ScopedNames(s.kind)|
    ensures Part(s)[o].LocalE? ==> Part(s)[o].name == ScopedNames(s.kind)[o]
    ensures forall l: Name :: Part(s)[o] == LabelE(l) <==> o == 0 && s.kind == Kind.Label(l)
    ensures forall l: Name :: Part(s)[o] == GotoE(l) <==> o == 0 && s.kind == Kind.Goto(l)
  {
    PartElements(s, |s.nodes|, o);
  }

  lemma PartLength(s: Stat)
    ensures |ScopedNames(s.kind)| <= |Part(s)|
    ensures s.kind.Label? || s.kind.Goto? ==> |Part(s)| > 0
  {
    StatPrefix(s, 0, |s.nodes|);
    assert |StatElements(s, 0)| <= |Part(s)|;
  }

  /** The locals of a block's list: between the beginnings of two consecutive parts stands `LocalE(x)` exactly
      when the statement there declares `x`. */
  lemma LocalsListed(b: Block, i: nat, x: Name)
    requires i < |b.stats|
    ensures Base(b, i) <= Base(b, i + 1) <= |ElementsOf(b)|
    ensures LocalE(x) in ElementsOf(b)[Base(b, i)..Base(b, i + 1)] <==> x in ScopedNames(b.stats[i].kind)
  {
    hide StatElements, ElementsUpTo;
    var s := b.stats[i];
    PartPlace(b, i);
    PartLength(s);
    if LocalE(x) in Part(s) {
      var o :| 0 <= o < |Part(s)| && Part(s)[o] == LocalE(x);
      PartMeaning(s, o);
    }
    if x in ScopedNames(s.kind) {
      var o :| 0 <= o < |ScopedNames(s.kind)| && ScopedNames(s.kind)[o] == x;
      PartMeaning(s, o);
      assert Part(s)[o] == LocalE(x);
    }
  }

  // ----- labels at positions -----

  /** A label stands in the list exactly where its statement's part begins. */
  lemma LabelPlace(b: Block, pos: nat, l: Name) returns (i: nat)
    requires pos < |ElementsOf(b)| && ElementsOf(b)[pos] == LabelE(l)
    ensures i < |b.stats| && b.stats[i].kind == Kind.Label(l) && pos == Base(b, i)
  {
    hide StatElements, ElementsUpTo;
    i := PartOf(b, |b.stats|, pos);
    PartPlace(b, i);
    PartMeaning(b.stats[i], pos - Base(b, i));
    assert ElementsOf(b)[Base(b, i) + (pos - Base(b, i))] == Part(b.stats[i])[pos - Base(b, i)];
  }

  lemma LabelStands(b: Block, i: nat, l: Name)
    requires i < |b.stats| && b.stats[i].kind == Kind.Label(l)
    ensures Base(b, i) < Base(b, i + 1) <= |ElementsOf(b)| && ElementsOf(b)[Base(b, i)] == LabelE(l)
  {
    hide StatElements, ElementsUpTo;
    PartPlace(b, i);
    PartLength(b.stats[i]);
    PartMeaning(b.stats[i], 0);
  }

  lemma GotoPlace(b: Block, pos: nat, l: Name) returns (i: nat)
    requires pos < |ElementsOf(b)| && ElementsOf(b)[pos] == GotoE(l)
    ensures i < |b.stats| && b.stats[i].kind == Kind.Goto(l) && pos == Base(b, i)
  {
    hide StatElements, ElementsUpTo;
    i := PartOf(b, |b.stats|, pos);
    PartPlace(b, i);
    PartMeaning(b.stats[i], pos - Base(b, i));
    assert ElementsOf(b)[Base(b, i) + (pos - Base(b, i))] == Part(b.stats[i])[pos - Base(b, i)];
  }

  // ----- names between positions -----

  lemma {:induction false} NamesAppend(es: seq<Element>, fs: seq<Element>)
    ensures LocalNames(es + fs) == LocalNames(es) + LocalNames(fs)
  {
    if fs == [] {
      assert es + fs == es;
    } else {
      NamesAppend(es, fs[..|fs| - 1]);
      assert (es + fs)[..|es + fs| - 1] == es + fs[..|fs| - 1];
    }
  }

  lemma {:induction false} NamesOfLocals(ns: seq<Name>)
    ensures LocalNames(Locals(ns)) == ns
  {
    if ns != [] {
      NamesOfLocals(ns[..|ns| - 1]);
      assert Locals(ns)[..|ns| - 1] == Locals(ns[..|ns| - 1]);
      assert ns == ns[..|ns| - 1] + [ns[|ns| - 1]];
    }
  }

  lemma {:induction false} NamesOfPart(s: Stat, n: nat)
    requires n <= |s.nodes|
    ensures LocalNames(StatElements(s, n)) == ScopedNames(s.kind)
  {
    if n == 0 {
      match s.kind
      case Local(ns) => NamesOfLocals(ns);
      case Goto(l) => assert [GotoE(l)][..0] == [];
      case Label(l) => assert [LabelE(l)][..0] == [];
      case Function(f) => assert [LocalE(f)][..0] == [];
      case LocalFunction(f) => assert [LocalE(f)][..0] == [];
      case _ =>
    } else {
      NamesOfPart(s, n - 1);
      var last := if s.nodes[n - 1].Sub? then [BlockE(s.nodes[n - 1].block.id)] else [];
      NamesAppend(StatElements(s, n - 1), last);
      assert last != [] ==> last[..0] == [];
    }
  }

  lemma SliceSplit<T>(s: seq<T>, i: nat, j: nat, k: nat)
    requires i <= j <= k <= |s|
    ensures s[i..k] == s[i..j] + s[j..k]
  {
  }

  lemma NoNames(es: seq<Element>, i: nat)
    requires i <= |es|
    ensures LocalNames(es[i..i]) == []
  {
  }

  lemma {:induction false} NamesOfParts(b: Block, i: nat, j: nat)
    requires i <= j <= |b.stats|
    ensures Base(b, i) <= Base(b, j) <= |ElementsOf(b)|
    ensures LocalNames(ElementsOf(b)[Base(b, i)..Base(b, j)]) == NamesBetween(b, i, j)
  {
    hide StatElements, ElementsUpTo, LocalNames, ScopedNames;
    BaseGrows(b, i, j);
    BaseGrows(b, j, |b.stats|);
    if i == j {
      NoNames(ElementsOf(b), Base(b, i));
    } else {
      NamesOfParts(b, i, j - 1);
      PartPlace(b, j - 1);
      NamesOfPart(b.stats[j - 1], |b.stats[j - 1].nodes|);
      var es := ElementsOf(b);
      NamesAppend(es[Base(b, i)..Base(b, j - 1)], Part(b.stats[j - 1]));
      SliceSplit(es, Base(b, i), Base(b, j - 1), Base(b, j));
    }
  }

  /** From inside the part of a statement that declares nothing. */
  lemma NamesFrom(b: Block, at: nat, pos: nat, i: nat)
    requires at < i <= |b.stats| && Base(b, at) <= pos < Base(b, at + 1) && ScopedNames(b.stats[at].kind) == []
    ensures pos <= Base(b, i) <= |ElementsOf(b)|
    ensures LocalNames(ElementsOf(b)[pos..Base(b, i)]) == NamesBetween(b, at + 1, i)
  {
    hide StatElements, ElementsUpTo, LocalNames;
    var es := ElementsOf(b);
    NamesOfParts(b, at + 1, i);
    PartPlace(b, at);
    NamesOfPart(b.stats[at], |b.stats[at].nodes|);
    SliceSplit(es, Base(b, at), pos, Base(b, at + 1));
    NamesAppend(es[Base(b, at)..pos], es[pos..Base(b, at + 1)]);
    SliceSplit(es, pos, Base(b, at + 1), Base(b, i));
    NamesAppend(es[pos..Base(b, at + 1)], es[Base(b, at + 1)..Base(b, i)]);
  }

  // ----- ways down the tree and ways down the lists -----

  /** The position in the list: that of the child, or of the goto at the end of the way. */
  function SpotPos(s: Spot, inner: bool): nat
    requires s.at < |s.block.stats|
  {
    Base(s.block, s.at)
    + if inner && s.node < |s.block.stats[s.at].nodes| then |StatElements(s.block.stats[s.at], s.node)| else 0
  }

  function PlaceAt(w: seq<Spot>, k: nat): Place
    requires k < |w| && w[k].at < |w[k].block.stats|
  {
    Place(w[k].block.id, SpotPos(w[k], k < |w| - 1))
  }

  function Places(w: seq<Spot>): (q: seq<Place>)
    requires forall k | 0 <= k < |w| :: w[k].at < |w[k].block.stats|
    ensures |q| == |w|
  {
    seq(|w|, k requires 0 <= k < |w| => PlaceAt(w, k))
  }

  lemma {:induction false} WayTabled(root: Block, m: Elements, w: seq<Spot>, k: nat)
    requires IsWay(root, w) && Tabled(root, m) && WellFormed(root) && k < |w|
    ensures Tabled(w[k].block, m) && WellFormed(w[k].block)
  {
    if k > 0 {
      WayTabled(root, m, w, k - 1);
      var s := w[k - 1];
      assert LeadsTo(s, w[k - 1 + 1].block);
      TabledChild(s.block, m, s.at, s.node);
      assert WellFormedStat(s.block.stats[s.at]);
    }
  }

  /** One spot of the way to a goto: its position lies in the part of its statement, which is neither a label nor
      a declaration. */
  lemma SpotFacts(root: Block, m: Elements, w: seq<Spot>, l: Name, k: nat)
    requires GotoAt(root, w, l) && Tabled(root, m) && WellFormed(root) && k < |w|
    ensures var b, at, pos := w[k].block, w[k].at, PlaceAt(w, k).pos;
            && b.id in m && m[b.id] == ElementsOf(b)
            && Base(b, at) <= pos < Base(b, at + 1) <= |ElementsOf(b)|
            && ScopedNames(b.stats[at].kind) == [] && !b.stats[at].kind.Label?
            && (k < |w| - 1 ==> m[b.id][pos] == BlockE(w[k + 1].block.id))
            && (k == |w| - 1 ==> m[b.id][pos] == GotoE(l))
  {
    hide StatElements, ElementsUpTo;
    var b, at := w[k].block, w[k].at;
    WayTabled(root, m, w, k);
    TabledRoot(b, m);
    PartPlace(b, at);
    if k < |w| - 1 {
      assert LeadsTo(w[k], w[k + 1].block);
      assert WellFormedStat(b.stats[at]);
      PosListed(b, at, w[k].node);
      StatPrefix(b.stats[at], w[k].node + 1, |b.stats[at].nodes|);
      ChildLength(b.stats[at], w[k].node);
    } else {
      PartLength(b.stats[at]);
      PartMeaning(b.stats[at], 0);
    }
  }

  lemma ChildLength(s: Stat, j: nat)
    requires j < |s.nodes| && s.nodes[j].Sub?
    ensures |StatElements(s, j + 1)| == |StatElements(s, j)| + 1
  {
  }

  lemma PlacesInBounds(root: Block, m: Elements, w: seq<Spot>, l: Name)
    requires GotoAt(root, w, l) && Tabled(root, m) && WellFormed(root)
    ensures InBounds(m, Places(w))
  {
    hide StatElements, ElementsUpTo;
    forall k | 0 <= k < |w| ensures w[k].block.id in m && PlaceAt(w, k).pos < |m[w[k].block.id]| {
      SpotFacts(root, m, w, l, k);
    }
  }

  /** Every goto of the text is a goto of the lists. */
  lemma SiteOfWay(root: Block, m: Elements, w: seq<Spot>, l: Name)
    requires GotoAt(root, w, l) && Tabled(root, m) && WellFormed(root)
    ensures IsSite(m, root.id, Places(w), l)
  {
    hide StatElements, ElementsUpTo;
    PlacesInBounds(root, m, w, l);
    forall k | 0 <= k < |w| - 1 ensures m[Places(w)[k].block][Places(w)[k].pos] == BlockE(Places(w)[k + 1].block) {
      SpotFacts(root, m, w, l, k);
    }
    SpotFacts(root, m, w, l, |w| - 1);
  }

  /** And every goto of the lists is one of the text. */
  lemma {:induction false} WayOfSite(root: Block, m: Elements, q: seq<Place>, l: Name) returns (w: seq<Spot>)
    requires IsSite(m, root.id, q, l) && Tabled(root, m)
    ensures GotoAt(root, w, l) && Places(w) == q
    decreases |q|
  {
    hide StatElements, ElementsUpTo, Tabled;
    TabledRoot(root, m);
    PathSteps(m, root.id, q, l);
    if |q| == 1 {
      var i := GotoPlace(root, q[0].pos, l);
      w := [Spot(root, i, 0)];
    } else {
      var i, j := ChildAt(root, |root.stats|, q[0].pos);
      TabledChild(root, m, i, j);
      var child := Child(root, i, j);
      var w' := WayOfSite(child, m, q[1..], l);
      w := [Spot(root, i, j)] + w';
      assert forall k | 1 <= k < |w| :: w[k] == w'[k - 1];
      assert LeadsTo(w[0], w[1].block);
      forall k | 0 <= k < |w| - 1 ensures LeadsTo(w[k], w[k + 1].block) {
        if k > 0 {
          assert LeadsTo(w'[k - 1], w'[k - 1 + 1].block);
        }
      }
      forall k | 0 <= k < |w| ensures PlaceAt(w, k) == q[k] {
        if k > 0 {
          assert PlaceAt(w', k - 1) == Places(w')[k - 1] == q[1..][k - 1];
        }
      }
    }
  }

  // ----- the rules agree -----

  /** A label statement other than statement `at` stands before or behind every position of its part. */
  lemma LabelSide(b: Block, at: nat, pos: nat, i: nat, l: Name)
    requires at < |b.stats| && Base(b, at) <= pos < Base(b, at + 1)
    requires i < |b.stats| && i != at && b.stats[i].kind == Kind.Label(l)
    ensures Base(b, i) < |ElementsOf(b)| && ElementsOf(b)[Base(b, i)] == LabelE(l)
    ensures i < at <==> Base(b, i) < pos
    ensures i > at <==> Base(b, i) > pos
  {
    hide StatElements, ElementsUpTo;
    LabelStands(b, i, l);
    if i < at {
      BaseGrows(b, i + 1, at);
    } else {
      BaseGrows(b, at + 1, i);
    }
  }

  lemma BeforeAgrees(root: Block, m: Elements, w: seq<Spot>, l: Name, x: Name)
    requires GotoAt(root, w, l) && Tabled(root, m) && WellFormed(root)
    ensures InBounds(m, Places(w)) && (EarlierLabel(m, Places(w), x) <==> LabelBefore(w, x))
  {
    hide StatElements, ElementsUpTo, Tabled, WellFormed;
    PlacesInBounds(root, m, w, l);
    var q := Places(w);
    if LabelBefore(w, x) {
      var k: nat, i: nat :| k < |w| && i < w[k].at && LabelAt(w[k], i, x);
      SpotFacts(root, m, w, l, k);
      LabelSide(w[k].block, w[k].at, q[k].pos, i, x);
      assert m[q[k].block][Base(w[k].block, i)] == LabelE(x);
    }
    if EarlierLabel(m, q, x) {
      var k, j :| 0 <= k < |q| && 0 <= j < q[k].pos && m[q[k].block][j] == LabelE(x);
      LabelOfPlace(root, m, w, l, x, k, j);
    }
  }

  lemma LabelOfPlace(root: Block, m: Elements, w: seq<Spot>, l: Name, x: Name, k: nat, j: nat)
    requires GotoAt(root, w, l) && Tabled(root, m) && WellFormed(root) && k < |w|
    requires w[k].block.id in m && j < Places(w)[k].pos && j < |m[w[k].block.id]| && m[w[k].block.id][j] == LabelE(x)
    ensures LabelBefore(w, x)
  {
    hide StatElements, ElementsUpTo, Tabled, WellFormed;
    SpotFacts(root, m, w, l, k);
    var i := LabelPlace(w[k].block, j, x);
    LabelSide(w[k].block, w[k].at, Places(w)[k].pos, i, x);
    assert LabelAt(w[k], i, x);
  }

  /** A level of the lists has the label ahead exactly where the text has it. */
  lemma LevelAgrees(root: Block, m: Elements, w: seq<Spot>, l: Name, k: nat, i: nat)
    requires GotoAt(root, w, l) && Tabled(root, m) && WellFormed(root) && k < |w|
    requires w[k].at < i && LabelAt(w[k], i, l)
    ensures InBounds(m, Places(w)) && Places(w)[k].pos <= Base(w[k].block, i)
    ensures var n := Base(w[k].block, i) - Places(w)[k].pos;
            n < |Slices(m, Places(w))[k]| && Slices(m, Places(w))[k][n] == LabelE(l)
  {
    hide StatElements, ElementsUpTo, Tabled;
    PlacesInBounds(root, m, w, l);
    SpotFacts(root, m, w, l, k);
    LabelSide(w[k].block, w[k].at, Places(w)[k].pos, i, l);
  }

  lemma AheadOfSlice(root: Block, m: Elements, w: seq<Spot>, l: Name, k: nat, n: nat) returns (i: nat)
    requires GotoAt(root, w, l) && Tabled(root, m) && WellFormed(root) && k < |w|
    requires InBounds(m, Places(w)) && n < |Slices(m, Places(w))[k]| && Slices(m, Places(w))[k][n] == LabelE(l)
    ensures w[k].at < i && LabelAt(w[k], i, l) && Base(w[k].block, i) == Places(w)[k].pos + n
  {
    hide StatElements, ElementsUpTo, Tabled;
    SpotFacts(root, m, w, l, k);
    i := LabelPlace(w[k].block, Places(w)[k].pos + n, l);
    LabelSide(w[k].block, w[k].at, Places(w)[k].pos, i, l);
  }

  lemma NearestOfTree(root: Block, m: Elements, w: seq<Spot>, l: Name, k: nat, i: nat)
    requires GotoAt(root, w, l) && Tabled(root, m) && WellFormed(root) && NearestAhead(w, l, k, i)
    ensures InBounds(m, Places(w)) && Places(w)[k].pos <= Base(w[k].block, i)
    ensures Nearest(Slices(m, Places(w)), l, k, Base(w[k].block, i) - Places(w)[k].pos)
  {
    hide StatElements, ElementsUpTo, Tabled;
    LevelAgrees(root, m, w, l, k, i);
    var slices, n := Slices(m, Places(w)), Base(w[k].block, i) - Places(w)[k].pos;
    if LabelE(l) in slices[k][..n] {
      var n' :| 0 <= n' < n && slices[k][n'] == LabelE(l);
      var i' := AheadOfSlice(root, m, w, l, k, n');
      BaseOrder(w[k].block, i', i);
      assert false;
    }
    forall k' | k < k' < |slices| ensures LabelE(l) !in slices[k'] {
      if LabelE(l) in slices[k'] {
        var n' :| 0 <= n' < |slices[k']| && slices[k'][n'] == LabelE(l);
        var i' := AheadOfSlice(root, m, w, l, k', n');
        assert false;
      }
    }
  }

  lemma BaseOrder(b: Block, i: nat, j: nat)
    requires i < |b.stats| && j < |b.stats| && Base(b, i) < Base(b, j)
    ensures i < j
  {
    hide StatElements, ElementsUpTo;
    if j <= i {
      BaseGrows(b, j, i);
    }
  }

  lemma NearestOfLists(root: Block, m: Elements, w: seq<Spot>, l: Name, k: int, n: int) returns (i: nat)
    requires GotoAt(root, w, l) && Tabled(root, m) && WellFormed(root) && InBounds(m, Places(w))
    requires Nearest(Slices(m, Places(w)), l, k, n)
    ensures 0 <= k < |w| && NearestAhead(w, l, k, i) && Base(w[k].block, i) == Places(w)[k].pos + n
  {
    hide StatElements, ElementsUpTo, Tabled;
    var slices := Slices(m, Places(w));
    i := AheadOfSlice(root, m, w, l, k, n);
    forall i': nat | w[k].at < i' < i ensures !LabelAt(w[k], i', l) {
      if LabelAt(w[k], i', l) {
        StandsInFront(root, m, w, l, k, i', i);
        assert false;
      }
    }
    forall k': nat, i': nat | k < k' < |w| && w[k'].at < i' ensures !LabelAt(w[k'], i', l) {
      if LabelAt(w[k'], i', l) {
        LevelAgrees(root, m, w, l, k', i');
        assert false;
      }
    }
  }

  lemma StandsInFront(root: Block, m: Elements, w: seq<Spot>, l: Name, k: nat, i: nat, j: nat)
    requires GotoAt(root, w, l) && Tabled(root, m) && WellFormed(root) && k < |w|
    requires w[k].at < i < j && LabelAt(w[k], i, l) && LabelAt(w[k], j, l)
    ensures InBounds(m, Places(w)) && 0 <= Base(w[k].block, j) - Places(w)[k].pos <= |Slices(m, Places(w))[k]|
    ensures LabelE(l) in Slices(m, Places(w))[k][..Base(w[k].block, j) - Places(w)[k].pos]
  {
    hide StatElements, ElementsUpTo, Tabled;
    LevelAgrees(root, m, w, l, k, i);
    LevelAgrees(root, m, w, l, k, j);
    LabelStands(w[k].block, i, l);
    BaseGrows(w[k].block, i + 1, j);
    var n := Base(w[k].block, j) - Places(w)[k].pos;
    assert Slices(m, Places(w))[k][..n][Base(w[k].block, i) - Places(w)[k].pos] == LabelE(l);
  }

  lemma CrossedAgree(root: Block, m: Elements, w: seq<Spot>, l: Name, k: nat, i: nat)
    requires GotoAt(root, w, l) && Tabled(root, m) && WellFormed(root) && NearestAhead(w, l, k, i)
    ensures InBounds(m, Places(w)) && 0 <= Base(w[k].block, i) - Places(w)[k].pos <= |Slices(m, Places(w))[k]|
    ensures LocalNames(Slices(m, Places(w))[k][..Base(w[k].block, i) - Places(w)[k].pos])
         == NamesBetween(w[k].block, w[k].at + 1, i)
  {
    hide StatElements, ElementsUpTo, Tabled, LocalNames;
    PlacesInBounds(root, m, w, l);
    SpotFacts(root, m, w, l, k);
    var b, pos := w[k].block, Places(w)[k].pos;
    NamesFrom(b, w[k].at, pos, i);
    assert Slices(m, Places(w))[k] == m[b.id][pos..];
    assert m[b.id][pos..][..Base(b, i) - pos] == m[b.id][pos..Base(b, i)];
  }

  /** A goto is legal by the lists of its scope exactly when it is legal by the text of its function. */
  lemma LegalAgrees(root: Block, m: Elements, w: seq<Spot>, l: Name)
    requires GotoAt(root, w, l) && Tabled(root, m) && WellFormed(root)
    ensures InBounds(m, Places(w)) && (Legal(m, Places(w), l) <==> LegalGoto(w, l))
  {
    hide StatElements, ElementsUpTo, Tabled, LocalNames, LabelBefore, EarlierLabel;
    BeforeAgrees(root, m, w, l, l);
    if k: nat, i: nat :| NearestAhead(w, l, k, i) && NamesBetween(w[k].block, w[k].at + 1, i) == [] {
      NearestOfTree(root, m, w, l, k, i);
      CrossedAgree(root, m, w, l, k, i);
    }
    if k, n :| Nearest(Slices(m, Places(w)), l, k, n) && LocalNames(Slices(m, Places(w))[k][..n]) == [] {
      var i := NearestOfLists(root, m, w, l, k, n);
      CrossedAgree(root, m, w, l, k, i);
    }
  }

  /** A reason for a rejection is one that the text gives. */
  lemma RejectedAgrees(root: Block, m: Elements, w: seq<Spot>, l: Name, v: Verdict)
    requires GotoAt(root, w, l) && Tabled(root, m) && WellFormed(root) && InBounds(m, Places(w))
    requires Rejected(m, Places(w), l, v)
    ensures RejectedGoto(w, l, v)
  {
    hide StatElements, ElementsUpTo, Tabled, LocalNames, LabelAt, LabelBefore, EarlierLabel;
    BeforeAgrees(root, m, w, l, l);
    if v.InvisibleLabel? {
      if LabelAhead(w, l) {
        var k: nat, i: nat :| k < |w| && w[k].at < i && LabelAt(w[k], i, l);
        InvisibleIsAhead(root, m, w, l, k, i);
        assert false;
      }
    } else {
      var k, n :| Nearest(Slices(m, Places(w)), l, k, n) && v.crossed == LocalNames(Slices(m, Places(w))[k][..n]);
      var i := NearestOfLists(root, m, w, l, k, n);
      CrossedAgree(root, m, w, l, k, i);
    }
  }

  lemma InvisibleIsAhead(root: Block, m: Elements, w: seq<Spot>, l: Name, k: nat, i: nat)
    requires GotoAt(root, w, l) && Tabled(root, m) && WellFormed(root) && k < |w|
    requires w[k].at < i && LabelAt(w[k], i, l)
    ensures InBounds(m, Places(w)) && LabelE(l) in m[Places(w)[k].block][Places(w)[k].pos..]
  {
    hide StatElements, ElementsUpTo, Tabled;
    LevelAgrees(root, m, w, l, k, i);
  }

  // ----- repeated labels -----

  lemma {:induction false} RepeatsAgree(b: Block, m: Elements, l: Name)
    requires Tabled(b, m)
    ensures SomeRepeated(b, m, l) <==> RepeatsLabel(b, l)
  {
    hide StatElements, ElementsUpTo, Tabled, Own;
    TabledRoot(b, m);
    RootIn(b);
    if SomeRepeated(b, m, l) {
      var id, i, j :| id in Own(b) && id in m && 0 <= i < j < |m[id]| && m[id][i] == LabelE(l) && m[id][j] == LabelE(l);
      if id == b.id {
        var i' := LabelPlace(b, i, l);
        var j' := LabelPlace(b, j, l);
        BaseOrder(b, i', j');
      } else {
        var k, n := OwnerChild(b, id);
        TabledChild(b, m, k, n);
        RepeatsAgree(Child(b, k, n), m, l);
        assert RepeatsLabel(b.stats[k].nodes[n].block, l);
      }
    }
    if i, j :| 0 <= i < j < |b.stats| && b.stats[i].kind == Kind.Label(l) && b.stats[j].kind == Kind.Label(l) {
      LabelStands(b, i, l);
      LabelStands(b, j, l);
      BaseGrows(b, i + 1, j);
      assert m[b.id][Base(b, i)] == LabelE(l) && m[b.id][Base(b, j)] == LabelE(l);
    }
    if k, n :| 0 <= k < |b.stats| && 0 <= n < |b.stats[k].nodes|
               && b.stats[k].nodes[n].Sub? && RepeatsLabel(b.stats[k].nodes[n].block, l) {
      TabledChild(b, m, k, n);
      RepeatsAgree(Child(b, k, n), m, l);
      RepeatedBelow(b, m, k, n, l);
    }
  }

  /** The lists of a function are legal exactly when its text is. */
  lemma TextAgrees(root: Block, m: Elements)
    requires Tabled(root, m) && WellFormed(root)
    ensures root.id in m
    ensures AllUnique(root, m) && AllLegal(m, [], root.id, |m[root.id]|) <==> TextLegal(root)
  {
    hide Tabled, AllUnique, AllLegal, GotosLegal, LabelsUnique, WellFormed;
    TabledRoot(root, m);
    UniqueAgrees(root, m);
    if AllLegal(m, [], root.id, |m[root.id]|) {
      ListsLegal(root, m);
    }
    if GotosLegal(root) {
      LegalTexts(root, m);
    }
  }

  lemma ListsLegal(root: Block, m: Elements)
    requires Tabled(root, m) && WellFormed(root)
    requires root.id in m && AllLegal(m, [], root.id, |m[root.id]|)
    ensures GotosLegal(root)
  {
    hide Tabled, WellFormed, GotoAt, LegalGoto, AllLegal;
    forall w: seq<Spot>, l: Name | GotoAt(root, w, l) ensures LegalGoto(w, l) {
      LegalListGoto(root, m, w, l);
    }
  }

  lemma UniqueAgrees(root: Block, m: Elements)
    requires Tabled(root, m)
    ensures AllUnique(root, m) <==> LabelsUnique(root)
  {
    hide Tabled, Own, RepeatsLabel;
    if !AllUnique(root, m) {
      var id :| id in Own(root) && id in m && !UniqueLabels(m[id]);
      var i, j :| 0 <= i < j < |m[id]| && m[id][i].LabelE? && m[id][i] == m[id][j];
      var l := m[id][i].name;
      assert m[id][i] == LabelE(l) && m[id][j] == LabelE(l);
      RepeatsAgree(root, m, l);
    }
    if l: Name :| RepeatsLabel(root, l) {
      RepeatsAgree(root, m, l);
      RepeatedIsNotUnique(root, m, l);
    }
  }

  lemma LegalListGoto(root: Block, m: Elements, w: seq<Spot>, l: Name)
    requires Tabled(root, m) && WellFormed(root) && GotoAt(root, w, l)
    requires root.id in m && AllLegal(m, [], root.id, |m[root.id]|)
    ensures LegalGoto(w, l)
  {
    hide Tabled, Legal, LegalGoto, WellFormed;
    SiteOfWay(root, m, w, l);
    LegalAgrees(root, m, w, l);
    PathSteps(m, root.id, Places(w), l);
    assert [] + Places(w) == Places(w);
  }

  lemma LegalTextGoto(root: Block, m: Elements, q: seq<Place>, l: Name)
    requires Tabled(root, m) && WellFormed(root) && GotosLegal(root) && IsSite(m, root.id, q, l)
    ensures InBounds(m, [] + q) && Legal(m, [] + q, l)
  {
    hide Tabled, Legal, LegalGoto, WellFormed, GotoAt;
    var w := WayOfSite(root, m, q, l);
    LegalAgrees(root, m, w, l);
    assert [] + q == q;
  }

  lemma LegalTexts(root: Block, m: Elements)
    requires Tabled(root, m) && WellFormed(root) && GotosLegal(root)
    ensures root.id in m && AllLegal(m, [], root.id, |m[root.id]|)
  {
    hide Tabled, Legal, LegalGoto, WellFormed, GotosLegal, IsPath;
    TabledRoot(root, m);
    forall q: seq<Place>, l: Name | IsSite(m, root.id, q, l) && q[0].pos < |m[root.id]|
      ensures InBounds(m, [] + q) && Legal(m, [] + q, l)
    {
      LegalTextGoto(root, m, q, l);
    }
  }

  /** A rejection by the lists of a function points at its text. */
  lemma RejectedText(root: Block, m: Elements, v: Verdict)
    requires Tabled(root, m) && WellFormed(root) && SomeRejected(m, [], root.id, v)
    ensures exists w: seq<Spot>, l: Name :: GotoAt(root, w, l) && RejectedGoto(w, l, v)
  {
    hide Tabled, WellFormed, GotoAt, RejectedGoto, Rejected;
    var q, l :| IsSite(m, root.id, q, l) && InBounds(m, [] + q) && Rejected(m, [] + q, l, v);
    assert [] + q == q;
    var w := WayOfSite(root, m, q, l);
    RejectedAgrees(root, m, w, l, v);
  }

  // ----- what acceptance means -----

  /** The innermost block around the goto that holds the label, which is the one that catches it. */
  ghost predicate CaughtAt(w: seq<Spot>, l: Name, k: nat, i: nat) {
    && k < |w| && LabelAt(w[k], i, l)
    && (forall i': nat | i' != i :: !LabelAt(w[k], i', l))
    && (forall k': nat, i': nat | k < k' < |w| :: !LabelAt(w[k'], i', l))
  }

  /** Some statement from the goto on, before statement `i` of the block, declares a name. */
  ghost predicate DeclaredBetween(s: Spot, i: nat) {
    exists j: nat :: s.at <= j < i && j < |s.block.stats| && ScopedNames(s.block.stats[j].kind) != []
  }

  /** At some label of its name a legal goto enters the scope of no local: no statement between the way to the
      goto and the label declares a name. */
  lemma LegalEntersNoLocal(root: Block, w: seq<Spot>, l: Name) returns (k: nat, i: nat)
    requires GotoAt(root, w, l) && LegalGoto(w, l) && WellFormed(root)
    ensures k < |w| && LabelAt(w[k], i, l) && !DeclaredBetween(w[k], i)
  {
    hide WellFormed, IsWay, NamesBetween, ScopedNames;
    if LabelBefore(w, l) {
      k, i :| k < |w| && i < w[k].at && LabelAt(w[k], i, l);
    } else {
      k, i :| NearestAhead(w, l, k, i) && NamesBetween(w[k].block, w[k].at + 1, i) == [];
      NothingBetween(w[k].block, w[k].at + 1, i);
      WayDeclaresNothing(root, w, l, k);
    }
  }

  lemma {:induction false} WayWellFormed(root: Block, w: seq<Spot>, k: nat)
    requires IsWay(root, w) && WellFormed(root) && k < |w|
    ensures WellFormed(w[k].block)
  {
    if k > 0 {
      WayWellFormed(root, w, k - 1);
      var s := w[k - 1];
      assert LeadsTo(s, w[k - 1 + 1].block);
      assert WellFormedStat(s.block.stats[s.at]);
    }
  }

  lemma WayDeclaresNothing(root: Block, w: seq<Spot>, l: Name, k: nat)
    requires GotoAt(root, w, l) && WellFormed(root) && k < |w|
    ensures ScopedNames(w[k].block.stats[w[k].at].kind) == [] && !w[k].block.stats[w[k].at].kind.Label?
  {
    WayWellFormed(root, w, k);
    if k < |w| - 1 {
      assert LeadsTo(w[k], w[k + 1].block);
      assert WellFormedStat(w[k].block.stats[w[k].at]);
    }
  }

  /** At the label that catches it a legal goto enters the scope of no local, unless an earlier label has hidden
      a declaration in between. */
  lemma CaughtEntersNoLocal(root: Block, w: seq<Spot>, l: Name, k: nat, i: nat)
    requires GotoAt(root, w, l) && LegalGoto(w, l) && WellFormed(root) && CaughtAt(w, l, k, i)
    ensures DeclaredBetween(w[k], i) ==> LabelBefore(w, l)
  {
    hide WellFormed, IsWay, NamesBetween, ScopedNames;
    WayDeclaresNothing(root, w, l, k);
    if !LabelBefore(w, l) {
      var k': nat, i': nat :| NearestAhead(w, l, k', i') && NamesBetween(w[k'].block, w[k'].at + 1, i') == [];
      assert i != w[k].at && !(i < w[k].at);
      assert k' == k && i' == i;
      NothingBetween(w[k].block, w[k].at + 1, i);
    }
  }
}
