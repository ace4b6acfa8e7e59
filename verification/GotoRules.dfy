/** The check of gotos and labels over a scope, and what it means for a goto to be accepted. */
module GotoRules {
  import opened Syntax
  import opened Scoping
  import opened Scopes
  import opened Forest

  datatype Verdict =
    | Accepted
    | CrossedLocal(target: Name, crossed: seq<Name>)
    | InvisibleLabel(target: Name)
    | LabelAlreadyDefined(mark: Name)

  // ----- places of gotos -----

  /** A position in the list of a block. */
  datatype Place = Place(block: BlockId, pos: nat)

  /** A way down from block `root` through nested blocks. */
  ghost predicate IsPath(m: Elements, root: BlockId, p: seq<Place>) {
    && p != [] && p[0].block == root
    && (forall k | 0 <= k < |p| :: p[k].block in m && p[k].pos < |m[p[k].block]|)
    && (forall k | 0 <= k < |p| - 1 :: m[p[k].block][p[k].pos] == BlockE(p[k + 1].block))
  }

  /** A goto below block `root`, with the chain of blocks that enclose it. */
  ghost predicate IsSite(m: Elements, root: BlockId, p: seq<Place>, l: Name) {
    p != [] && IsPath(m, root, p) && m[p[|p| - 1].block][p[|p| - 1].pos] == GotoE(l)
  }

  ghost predicate InBounds(m: Elements, p: seq<Place>) {
    forall k | 0 <= k < |p| :: p[k].block in m && p[k].pos < |m[p[k].block]|
  }

  /** The label stands before the goto in one of the enclosing blocks. */
  ghost predicate EarlierLabel(m: Elements, p: seq<Place>, l: Name)
    requires InBounds(m, p)
  {
    exists k, j {:trigger m[p[k].block][j]} :: 0 <= k < |p| && 0 <= j < p[k].pos && m[p[k].block][j] == LabelE(l)
  }

  /** From each enclosing block, outermost first, what follows the way down. */
  ghost function Slices(m: Elements, p: seq<Place>): (r: seq<seq<Element>>)
    requires InBounds(m, p)
    ensures |r| == |p|
  {
    seq(|p|, k requires 0 <= k < |p| => m[p[k].block][p[k].pos..])
  }

  /** The nearest level that has the label ahead is `k`, and `n` is the first such label there. */
  ghost predicate Nearest(slices: seq<seq<Element>>, l: Name, k: int, n: int) {
    && 0 <= k < |slices| && 0 <= n < |slices[k]| && slices[k][n] == LabelE(l)
    && LabelE(l) !in slices[k][..n]
    && forall k' | k < k' < |slices| :: LabelE(l) !in slices[k']
  }

  function LocalNames(es: seq<Element>): seq<Name> {
    if es == [] then []
    else LocalNames(es[..|es| - 1]) + (if es[|es| - 1].LocalE? then [es[|es| - 1].name] else [])
  }

  /** The goto at the end of the path is legal. */
  ghost predicate Legal(m: Elements, p: seq<Place>, l: Name)
    requires InBounds(m, p)
  {
    || EarlierLabel(m, p, l)
    || exists k, n :: Nearest(Slices(m, p), l, k, n) && LocalNames(Slices(m, p)[k][..n]) == []
  }

  /** Why the goto at the end of the path is rejected. */
  ghost predicate Rejected(m: Elements, p: seq<Place>, l: Name, v: Verdict)
    requires InBounds(m, p)
  {
    && !EarlierLabel(m, p, l)
    && match v
       case InvisibleLabel(l') =>
         l' == l && forall k | 0 <= k < |p| :: LabelE(l) !in m[p[k].block][p[k].pos..]
       case CrossedLocal(l', crossed) =>
         && l' == l && crossed != []
         && exists k, n :: Nearest(Slices(m, p), l, k, n) && crossed == LocalNames(Slices(m, p)[k][..n])
       case _ => false
  }

  lemma NearestUnique(slices: seq<seq<Element>>, l: Name, k: int, n: int, k': int, n': int)
    requires Nearest(slices, l, k, n) && Nearest(slices, l, k', n')
    ensures k == k' && n == n'
  {
    assert slices[k][n] in slices[k] && slices[k'][n'] in slices[k'];
    assert k == k';
    assert forall i | 0 <= i < n :: slices[k][i] == slices[k][..n][i] && slices[k][i] != LabelE(l);
    assert forall i | 0 <= i < n' :: slices[k][i] == slices[k][..n'][i] && slices[k][i] != LabelE(l);
  }

  lemma NoNearest(slices: seq<seq<Element>>, l: Name)
    requires forall k | 0 <= k < |slices| :: LabelE(l) !in slices[k]
    ensures forall k, n :: !Nearest(slices, l, k, n)
  {
    forall k, n ensures !Nearest(slices, l, k, n) {
      if 0 <= k < |slices| && 0 <= n < |slices[k]| {
        assert slices[k][n] in slices[k];
      }
    }
  }

  /** A goto is either legal or rejected, not both. */
  lemma RejectedIsNotLegal(m: Elements, p: seq<Place>, l: Name, v: Verdict)
    requires InBounds(m, p) && Rejected(m, p, l, v)
    ensures !Legal(m, p, l)
  {
    var slices := Slices(m, p);
    if k, n :| Nearest(slices, l, k, n) && LocalNames(slices[k][..n]) == [] {
      assert slices[k][n] in m[p[k].block][p[k].pos..];
      var k', n' :| Nearest(slices, l, k', n') && v.crossed == LocalNames(slices[k'][..n']);
      NearestUnique(slices, l, k, n, k', n');
    }
  }

  // ----- the validator -----

  /** Scans one level for a label and collects the locals in front of it. */
  method ScanLevel(es: seq<Element>, search: Name) returns (found: bool, n: nat, crossed: seq<Name>)
    ensures found <==> LabelE(search) in es
    ensures found ==>
              && n < |es| && es[n] == LabelE(search) && LabelE(search) !in es[..n]
              && crossed == LocalNames(es[..n])
  {
    crossed := [];
    n := 0;
    while n < |es|
      invariant 0 <= n <= |es| && LabelE(search) !in es[..n] && crossed == LocalNames(es[..n])
    {
      match es[n] {
        case LocalE(x) =>
          crossed := crossed + [x];
        case LabelE(x) =>
          if x == search {
            return true, n, crossed;
          }
        case _ =>
      }
      assert es[..n + 1][..n] == es[..n];
      n := n + 1;
    }
    assert es[..n] == es;
    found := false;
  }

  /** Looks for a label ahead, innermost level first. */
  method ValidateGoto(previous: seq<seq<Element>>, search: Name) returns (v: Verdict)
    ensures v.Accepted? <==> exists k, n :: Nearest(previous, search, k, n) && LocalNames(previous[k][..n]) == []
    ensures v.InvisibleLabel? <==> forall k | 0 <= k < |previous| :: LabelE(search) !in previous[k]
    ensures v.InvisibleLabel? ==> v.target == search
    ensures v.CrossedLocal? ==>
              && v.target == search && v.crossed != []
              && exists k, n :: Nearest(previous, search, k, n) && v.crossed == LocalNames(previous[k][..n])
    ensures !v.LabelAlreadyDefined?
  {
    var i := |previous|;
    while i > 0
      invariant 0 <= i <= |previous|
      invariant forall k | i <= k < |previous| :: LabelE(search) !in previous[k]
    {
      i := i - 1;
      var found, n, crossed := ScanLevel(previous[i], search);
      if found {
        assert Nearest(previous, search, i, n);
        forall k', n' | Nearest(previous, search, k', n') ensures k' == i && n' == n {
          NearestUnique(previous, search, i, n, k', n');
        }
        return if crossed != [] then CrossedLocal(search, crossed) else Accepted;
      }
    }
    NoNearest(previous, search);
    v := InvisibleLabel(search);
  }

  // ----- extending a path -----

  lemma EarlierExtends(m: Elements, p: seq<Place>, at: Place, l: Name)
    requires InBounds(m, p) && at.block in m && at.pos < |m[at.block]|
    ensures InBounds(m, p + [at])
    ensures EarlierLabel(m, p + [at], l) <==> EarlierLabel(m, p, l) || LabelE(l) in m[at.block][..at.pos]
    ensures Slices(m, p + [at]) == Slices(m, p) + [m[at.block][at.pos..]]
  {
    var q := p + [at];
    assert forall k | 0 <= k < |p| :: q[k] == p[k];
    assert q[|p|] == at;
    if EarlierLabel(m, p, l) {
      var k, j :| 0 <= k < |p| && 0 <= j < p[k].pos && m[p[k].block][j] == LabelE(l);
      assert m[q[k].block][j] == LabelE(l);
    }
    if LabelE(l) in m[at.block][..at.pos] {
      var j :| 0 <= j < at.pos && m[at.block][..at.pos][j] == LabelE(l);
      assert m[q[|p|].block][j] == LabelE(l);
    }
    if EarlierLabel(m, q, l) {
      var k, j :| 0 <= k < |q| && 0 <= j < q[k].pos && m[q[k].block][j] == LabelE(l);
      if k == |p| {
        assert m[at.block][..at.pos][j] == LabelE(l);
      } else {
        assert m[p[k].block][j] == LabelE(l);
      }
    }
  }

  /** A way down starts with a goto, or with a nested block and a way down from there. */
  lemma PathSteps(m: Elements, ctx: BlockId, q: seq<Place>, l: Name)
    requires IsSite(m, ctx, q, l)
    ensures q[0].block == ctx && ctx in m && q[0].pos < |m[ctx]|
    ensures |q| == 1 ==> m[ctx][q[0].pos] == GotoE(l)
    ensures |q| > 1 ==> m[ctx][q[0].pos] == BlockE(q[1].block) && IsSite(m, q[1].block, q[1..], l)
    ensures q == [q[0]] + q[1..] && InBounds(m, q)
  {
    if |q| > 1 {
      var q' := q[1..];
      assert m[q[0].block][q[0].pos] == BlockE(q[0 + 1].block);
      assert forall k | 0 <= k < |q'| :: q'[k] == q[k + 1];
    }
  }

  lemma SiteBelow(m: Elements, ctx: BlockId, i: nat, q: seq<Place>, l: Name)
    requires ctx in m && i < |m[ctx]| && m[ctx][i].BlockE? && IsSite(m, m[ctx][i].id, q, l)
    ensures IsSite(m, ctx, [Place(ctx, i)] + q, l)
  {
    var q' := [Place(ctx, i)] + q;
    assert forall k | 1 <= k < |q'| :: q'[k] == q[k - 1];
  }

  // ----- the exploration of a function -----

  /** All gotos below `ctx` that lie before position `i` of its list are legal. */
  ghost predicate AllLegal(m: Elements, p: seq<Place>, ctx: BlockId, i: nat)
    requires InBounds(m, p)
  {
    forall q: seq<Place>, l: Name | IsSite(m, ctx, q, l) && q[0].pos < i :: InBounds(m, p + q) && Legal(m, p + q, l)
  }

  ghost predicate SomeRejected(m: Elements, p: seq<Place>, ctx: BlockId, v: Verdict)
    requires InBounds(m, p)
  {
    exists q: seq<Place>, l: Name :: IsSite(m, ctx, q, l) && InBounds(m, p + q) && Rejected(m, p + q, l, v)
  }

  /** Checks the gotos below a block of a scope.  `p` is the way to the block, `labels` the labels
      before it and `iters` what follows it, level by level. */
  method ExploreContext(scope: Scope, ctx: BlockId, labels0: seq<Name>, iters: seq<seq<Element>>, ghost p: seq<Place>,
      ghost b: Block)
      returns (v: Verdict)
    requires b.id == ctx && Tabled(b, scope.elements)
    requires InBounds(scope.elements, p) && iters == Slices(scope.elements, p)
    requires forall l: Name :: l in labels0 <==> EarlierLabel(scope.elements, p, l)
    ensures v.Accepted? ==> AllLegal(scope.elements, p, ctx, |scope.elements[ctx]|)
    ensures !v.Accepted? ==> SomeRejected(scope.elements, p, ctx, v)
    decreases b
  {
    hide AllLegal, SomeRejected, EarlierLabel, Slices, Nearest, LocalNames, Tabled, ElementsUpTo, InBounds;
    TabledRoot(b, scope.elements);
    NoneBefore(scope.elements, p, ctx);
    var labels := labels0;
    var vec := scope.elements[ctx];
    var i := 0;
    while i < |vec|
      invariant 0 <= i <= |vec|
      invariant forall l: Name :: l in labels <==> EarlierLabel(scope.elements, p, l) || LabelE(l) in vec[..i]
      invariant AllLegal(scope.elements, p, ctx, i)
    {
      ghost var m, at := scope.elements, Place(ctx, i);
      assert vec[..i + 1] == vec[..i] + [vec[i]];
      EarlierExtends(m, p, at, "");
      forall l: Name ensures EarlierLabel(m, p + [at], l) <==> l in labels {
        EarlierExtends(m, p, at, l);
      }
      match vec[i] {
        case GotoE(l) =>
          if l !in labels {
            v := ValidateGoto(iters + [vec[i..]], l);
            if !v.Accepted? {
              GotoRejected(m, p, ctx, i, l, v);
              return;
            }
          }
          GotoLegal(m, p, ctx, i, l);
        case LabelE(l) =>
          labels := labels + [l];
          OthersLegal(m, p, ctx, i);
        case BlockE(c) =>
          ghost var k, j := ChildAt(b, |b.stats|, i);
          TabledChild(b, m, k, j);
          v := ExploreContext(scope, c, labels, iters + [vec[i..]], p + [at], Child(b, k, j));
          if !v.Accepted? {
            BelowRejected(m, p, ctx, i, v);
            return;
          }
          BelowLegal(m, p, ctx, i);
        case LocalE(_) =>
          OthersLegal(m, p, ctx, i);
      }
      i := i + 1;
    }
    v := Accepted;
  }

  lemma NoneBefore(m: Elements, p: seq<Place>, ctx: BlockId)
    requires InBounds(m, p)
    ensures AllLegal(m, p, ctx, 0)
  {
  }

  lemma GotoRejected(m: Elements, p: seq<Place>, ctx: BlockId, i: nat, l: Name, v: Verdict)
    requires InBounds(m, p) && ctx in m && i < |m[ctx]| && m[ctx][i] == GotoE(l)
    requires InBounds(m, p + [Place(ctx, i)]) && !EarlierLabel(m, p + [Place(ctx, i)], l)
    requires v.InvisibleLabel? || v.CrossedLocal?
    requires v.InvisibleLabel? ==>
              && v.target == l
              && forall k | 0 <= k <= |p| :: LabelE(l) !in Slices(m, p + [Place(ctx, i)])[k]
    requires v.CrossedLocal? ==>
               && v.target == l && v.crossed != []
               && exists k, n :: Nearest(Slices(m, p + [Place(ctx, i)]), l, k, n)
                                 && v.crossed == LocalNames(Slices(m, p + [Place(ctx, i)])[k][..n])
    ensures SomeRejected(m, p, ctx, v)
  {
    var q := p + [Place(ctx, i)];
    assert IsSite(m, ctx, [Place(ctx, i)], l);
    if v.InvisibleLabel? {
      forall k | 0 <= k < |q| ensures LabelE(l) !in m[q[k].block][q[k].pos..] {
        assert Slices(m, q)[k] == m[q[k].block][q[k].pos..];
      }
    }
    assert Rejected(m, q, l, v);
  }

  lemma GotoLegal(m: Elements, p: seq<Place>, ctx: BlockId, i: nat, l: Name)
    requires InBounds(m, p) && ctx in m && i < |m[ctx]| && m[ctx][i] == GotoE(l)
    requires InBounds(m, p + [Place(ctx, i)]) && Legal(m, p + [Place(ctx, i)], l) && AllLegal(m, p, ctx, i)
    ensures AllLegal(m, p, ctx, i + 1)
  {
    forall q: seq<Place>, l': Name | IsSite(m, ctx, q, l') && q[0].pos < i + 1 ensures InBounds(m, p + q)
        && Legal(m, p + q, l') {
      PathSteps(m, ctx, q, l');
      if q[0].pos == i {
        assert q == [Place(ctx, i)];
      }
    }
  }

  lemma OthersLegal(m: Elements, p: seq<Place>, ctx: BlockId, i: nat)
    requires InBounds(m, p) && ctx in m && i < |m[ctx]| && (m[ctx][i].LabelE? || m[ctx][i].LocalE?)
        && AllLegal(m, p, ctx, i)
    ensures AllLegal(m, p, ctx, i + 1)
  {
    forall q: seq<Place>, l: Name | IsSite(m, ctx, q, l) && q[0].pos < i + 1 ensures InBounds(m, p + q)
        && Legal(m, p + q, l) {
      PathSteps(m, ctx, q, l);
    }
  }

  lemma BelowRejected(m: Elements, p: seq<Place>, ctx: BlockId, i: nat, v: Verdict)
    requires InBounds(m, p) && ctx in m && i < |m[ctx]| && m[ctx][i].BlockE? && InBounds(m, p + [Place(ctx, i)])
    requires SomeRejected(m, p + [Place(ctx, i)], m[ctx][i].id, v)
    ensures SomeRejected(m, p, ctx, v)
  {
    var at := Place(ctx, i);
    var q, l :| IsSite(m, m[ctx][i].id, q, l) && InBounds(m, p + [at] + q) && Rejected(m, p + [at] + q, l, v);
    SiteBelow(m, ctx, i, q, l);
    assert p + ([at] + q) == p + [at] + q;
  }

  lemma BelowLegal(m: Elements, p: seq<Place>, ctx: BlockId, i: nat)
    requires InBounds(m, p) && ctx in m && i < |m[ctx]| && m[ctx][i].BlockE? && InBounds(m, p + [Place(ctx, i)])
    requires m[ctx][i].id in m && AllLegal(m, p + [Place(ctx, i)], m[ctx][i].id, |m[m[ctx][i].id]|)
    requires AllLegal(m, p, ctx, i)
    ensures AllLegal(m, p, ctx, i + 1)
  {
    hide Legal, EarlierLabel, Slices, IsPath, InBounds;
    forall q: seq<Place>, l: Name | IsSite(m, ctx, q, l) && q[0].pos < i + 1 ensures InBounds(m, p + q)
        && Legal(m, p + q, l) {
      if q[0].pos == i {
        BelowLegalOne(m, p, ctx, i, q, l);
      }
    }
  }

  lemma BelowLegalOne(m: Elements, p: seq<Place>, ctx: BlockId, i: nat, q: seq<Place>, l: Name)
    requires InBounds(m, p) && ctx in m && i < |m[ctx]| && m[ctx][i].BlockE? && InBounds(m, p + [Place(ctx, i)])
    requires m[ctx][i].id in m && AllLegal(m, p + [Place(ctx, i)], m[ctx][i].id, |m[m[ctx][i].id]|)
    requires IsSite(m, ctx, q, l) && q[0].pos == i
    ensures InBounds(m, p + q) && Legal(m, p + q, l)
  {
    hide Legal, EarlierLabel, Slices, IsPath, InBounds;
    PathSteps(m, ctx, q, l);
    var q' := q[1..];
    PathSteps(m, m[ctx][i].id, q', l);
    assert p + q == p + [Place(ctx, i)] + q';
  }

  // ----- labels -----

  ghost predicate UniqueLabels(es: seq<Element>) {
    forall i, j | 0 <= i < j < |es| && es[i].LabelE? :: es[i] != es[j]
  }

  ghost predicate AllUnique(b: Block, m: Elements) {
    forall id | id in Own(b) && id in m :: UniqueLabels(m[id])
  }

  /** Some block below `b` repeats the label. */
  ghost predicate SomeRepeated(b: Block, m: Elements, l: Name) {
    exists id, i, j :: id in Own(b) && id in m && 0 <= i < j < |m[id]| && m[id][i] == LabelE(l) && m[id][j] == LabelE(l)
  }

  /** While the list of `b` is scanned: the children before position `i` are done, the others untouched. */
  ghost predicate LabelsScanned(b: Block, m: Elements, seen0: set<BlockId>, seen: set<BlockId>, i: nat) {
    && seen0 + {b.id} <= seen <= seen0 + Own(b)
    && (forall k, j | 0 <= k < |b.stats| && 0 <= j < |b.stats[k].nodes| && b.stats[k].nodes[j].Sub? ::
          if Pos(b, k, j) < i then Own(Child(b, k, j)) <= seen && AllUnique(Child(b, k, j), m)
          else Own(Child(b, k, j)) !! seen)
  }

  /** Rejects a block that repeats a label.  `seen` grows by the blocks of `b`, so each is scanned once. */
  method ValidateLabels(scope: Scope, ctx: BlockId, seen0: set<BlockId>, ghost b: Block)
      returns (v: Verdict, seen: set<BlockId>)
    requires b.id == ctx && Tabled(b, scope.elements) && Distinct(b) && Own(b) !! seen0
    ensures v.Accepted? || v.LabelAlreadyDefined?
    ensures v.Accepted? ==> AllUnique(b, scope.elements) && seen == seen0 + Own(b)
    ensures v.LabelAlreadyDefined? ==> SomeRepeated(b, scope.elements, v.mark)
    decreases b
  {
    hide Own, Tabled, Distinct, ElementsUpTo, AllUnique, LabelsScanned, SomeRepeated, StatElements;
    TabledRoot(b, scope.elements);
    ScanStarts(b, scope.elements, seen0);
    seen := seen0 + {ctx};
    var elements := scope.elements[ctx];
    var labels: set<Name> := {};
    var i := 0;
    while i < |elements|
      invariant 0 <= i <= |elements| && LabelsScanned(b, scope.elements, seen0, seen, i)
      invariant forall l: Name :: l in labels <==> LabelE(l) in elements[..i]
      invariant UniqueLabels(elements[..i])
    {
      assert elements[..i + 1] == elements[..i] + [elements[i]];
      if elements[i].LabelE? {
        if elements[i].name in labels {
          Repeated(b, scope.elements, i);
          return LabelAlreadyDefined(elements[i].name), seen;
        }
        labels := labels + {elements[i].name};
      }
      if elements[i].BlockE? {
        ghost var k, j := ChildAt(b, |b.stats|, i);
        ghost var before := seen;
        ScanChild(b, scope.elements, seen0, seen, k, j);
        if elements[i].id !in seen {
          v, seen := ValidateLabels(scope, elements[i].id, seen, Child(b, k, j));
          if !v.Accepted? {
            RepeatedBelow(b, scope.elements, k, j, v.mark);
            return;
          }
        }
        ScanNext(b, scope.elements, seen0, before, seen, k, j);
      } else {
        ScanSkip(b, scope.elements, seen0, seen, i);
      }
      i := i + 1;
    }
    assert elements[..i] == elements;
    ScanEnds(b, scope.elements, seen0, seen);
    v := Accepted;
  }

  lemma ScanStarts(b: Block, m: Elements, seen0: set<BlockId>)
    requires Tabled(b, m) && Distinct(b) && Own(b) !! seen0
    ensures LabelsScanned(b, m, seen0, seen0 + {b.id}, 0)
  {
    hide Own, Tabled, Distinct, ElementsUpTo, StatElements, AllUnique;
    RootIn(b);
    forall k, j | 0 <= k < |b.stats| && 0 <= j < |b.stats[k].nodes| && b.stats[k].nodes[j].Sub?
      ensures Own(Child(b, k, j)) !! seen0 + {b.id}
    {
      ChildIds(b, k, j, k, j);
      TabledChild(b, m, k, j);
    }
  }

  lemma ScanChild(b: Block, m: Elements, seen0: set<BlockId>, seen: set<BlockId>, k: nat, j: nat)
    requires Tabled(b, m) && Distinct(b) && k < |b.stats| && j < |b.stats[k].nodes| && b.stats[k].nodes[j].Sub?
    requires LabelsScanned(b, m, seen0, seen, Pos(b, k, j))
    ensures Tabled(Child(b, k, j), m) && Distinct(Child(b, k, j)) && Own(Child(b, k, j)) !! seen
    ensures Child(b, k, j).id !in seen
  {
    hide Own, Tabled, Distinct, ElementsUpTo, StatElements, AllUnique;
    ChildIds(b, k, j, k, j);
    TabledChild(b, m, k, j);
  }

  lemma ScanNext(b: Block, m: Elements, seen0: set<BlockId>, before: set<BlockId>, seen: set<BlockId>, k: nat, j: nat)
    requires Tabled(b, m) && Distinct(b) && k < |b.stats| && j < |b.stats[k].nodes| && b.stats[k].nodes[j].Sub?
    requires LabelsScanned(b, m, seen0, before, Pos(b, k, j))
    requires seen == before + Own(Child(b, k, j)) && AllUnique(Child(b, k, j), m)
    ensures LabelsScanned(b, m, seen0, seen, Pos(b, k, j) + 1)
  {
    hide Own, Tabled, Distinct, ElementsUpTo, StatElements, AllUnique;
    TabledChild(b, m, k, j);
    forall k', j' | 0 <= k' < |b.stats| && 0 <= j' < |b.stats[k'].nodes| && b.stats[k'].nodes[j'].Sub?
      ensures if Pos(b, k', j') < Pos(b, k, j) + 1 then Own(Child(b, k', j')) <= seen && AllUnique(Child(b, k', j'), m)
              else Own(Child(b, k', j')) !! seen
    {
      ChildIds(b, k, j, k', j');
      if Pos(b, k', j') == Pos(b, k, j) {
        PosInjective(b, k, j, k', j');
      }
    }
  }

  lemma ScanSkip(b: Block, m: Elements, seen0: set<BlockId>, seen: set<BlockId>, i: nat)
    requires LabelsScanned(b, m, seen0, seen, i) && i < |ElementsOf(b)| && !ElementsOf(b)[i].BlockE?
    ensures LabelsScanned(b, m, seen0, seen, i + 1)
  {
    hide Own, ElementsUpTo, StatElements, AllUnique;
    forall k, j | 0 <= k < |b.stats| && 0 <= j < |b.stats[k].nodes| && b.stats[k].nodes[j].Sub?
      ensures Pos(b, k, j) != i
    {
      PosListed(b, k, j);
    }
  }

  lemma ScanEnds(b: Block, m: Elements, seen0: set<BlockId>, seen: set<BlockId>)
    requires Tabled(b, m) && LabelsScanned(b, m, seen0, seen, |ElementsOf(b)|) && UniqueLabels(ElementsOf(b))
    ensures seen == seen0 + Own(b) && AllUnique(b, m)
  {
    hide Own, Tabled, ElementsUpTo, StatElements;
    TabledRoot(b, m);
    RootIn(b);
    forall id | id in Own(b) ensures id in seen && (id in m ==> UniqueLabels(m[id])) {
      if id != b.id {
        var k, j := OwnerChild(b, id);
        PosListed(b, k, j);
      }
    }
  }

  lemma Repeated(b: Block, m: Elements, i: nat)
    requires Tabled(b, m) && i < |ElementsOf(b)| && ElementsOf(b)[i].LabelE? && ElementsOf(b)[i] in ElementsOf(b)[..i]
    ensures SomeRepeated(b, m, ElementsOf(b)[i].name)
  {
    hide Own, Tabled, ElementsUpTo;
    TabledRoot(b, m);
    RootIn(b);
    var k :| 0 <= k < i && ElementsOf(b)[..i][k] == ElementsOf(b)[i];
    assert m[b.id][k] == m[b.id][i];
  }

  lemma RepeatedBelow(b: Block, m: Elements, k: nat, j: nat, l: Name)
    requires Tabled(b, m) && k < |b.stats| && j < |b.stats[k].nodes| && b.stats[k].nodes[j].Sub?
    requires SomeRepeated(Child(b, k, j), m, l)
    ensures SomeRepeated(b, m, l)
  {
    TabledChild(b, m, k, j);
  }

  /** A repeated label is what the uniqueness of labels rules out. */
  lemma RepeatedIsNotUnique(b: Block, m: Elements, l: Name)
    requires SomeRepeated(b, m, l)
    ensures !AllUnique(b, m)
  {
    var id, i, j :| id in Own(b) && id in m && 0 <= i < j < |m[id]| && m[id][i] == LabelE(l) && m[id][j] == LabelE(l);
    assert !UniqueLabels(m[id]);
  }

  // ----- what acceptance means -----

  /** The local declared at `d` is in scope at the end of the path. */
  ghost predicate InScope(m: Elements, p: seq<Place>, d: Place)
    requires InBounds(m, p)
  {
    exists k :: 0 <= k < |p| && p[k].block == d.block && d.pos < p[k].pos && m[d.block][d.pos].LocalE?
  }

  /** For every accepted goto there is a visible label at which no local is in scope that was not
      in scope at the goto already. */
  lemma AcceptedEntersNoLocal(m: Elements, p: seq<Place>, l: Name) returns (k: nat, j: nat)
    requires InBounds(m, p) && Legal(m, p, l) && p != [] && m[p[|p| - 1].block][p[|p| - 1].pos] == GotoE(l)
    requires forall i | 0 <= i < |p| - 1 :: m[p[i].block][p[i].pos].BlockE?
    ensures k < |p| && j < |m[p[k].block]| && m[p[k].block][j] == LabelE(l)
    ensures InBounds(m, p[..k] + [Place(p[k].block, j)])
    ensures forall d :: InScope(m, p[..k] + [Place(p[k].block, j)], d) ==> InScope(m, p, d)
  {
    if EarlierLabel(m, p, l) {
      k, j :| 0 <= k < |p| && 0 <= j < p[k].pos && m[p[k].block][j] == LabelE(l);
      ScopeShrinks(m, p, k, j);
    } else {
      var slices := Slices(m, p);
      var n;
      k, n :| Nearest(slices, l, k, n) && LocalNames(slices[k][..n]) == [];
      j := p[k].pos + n;
      assert slices[k][n] == m[p[k].block][j];
      forall i | p[k].pos <= i < j ensures !m[p[k].block][i].LocalE? {
        NoLocalsIn(slices[k][..n], i - p[k].pos);
      }
      ScopeShrinks(m, p, k, j);
    }
  }

  lemma {:induction false} NoLocalsIn(es: seq<Element>, i: nat)
    requires LocalNames(es) == [] && i < |es|
    ensures !es[i].LocalE?
  {
    if i < |es| - 1 {
      NoLocalsIn(es[..|es| - 1], i);
    }
  }

  lemma ScopeShrinks(m: Elements, p: seq<Place>, k: nat, j: nat)
    requires InBounds(m, p) && k < |p| && j < |m[p[k].block]|
    requires forall i | p[k].pos <= i < j :: !m[p[k].block][i].LocalE?
    ensures InBounds(m, p[..k] + [Place(p[k].block, j)])
    ensures forall d :: InScope(m, p[..k] + [Place(p[k].block, j)], d) ==> InScope(m, p, d)
  {
    var q := p[..k] + [Place(p[k].block, j)];
    assert forall i | 0 <= i < k :: q[i] == p[i];
    forall d | InScope(m, q, d) ensures InScope(m, p, d) {
      var i :| 0 <= i < |q| && q[i].block == d.block && d.pos < q[i].pos && m[d.block][d.pos].LocalE?;
      assert p[i].block == d.block;
    }
  }

  /** The innermost block on the path that holds the label, which is the one that catches the goto. */
  ghost predicate Catches(m: Elements, p: seq<Place>, l: Name, k: nat, j: nat)
    requires InBounds(m, p)
  {
    && k < |p| && j < |m[p[k].block]| && m[p[k].block][j] == LabelE(l)
    && (forall i | 0 <= i < |m[p[k].block]| && i != j :: m[p[k].block][i] != LabelE(l))
    && (forall k' | k < k' < |p| :: LabelE(l) !in m[p[k'].block])
  }

  ghost predicate LocalBetween(m: Elements, at: Place, j: nat)
    requires at.block in m && at.pos < |m[at.block]| && j <= |m[at.block]|
  {
    exists i :: at.pos <= i < j && m[at.block][i].LocalE?
  }

  /** An accepted goto enters the scope of no local at the label that catches it, except when a label
      that stands earlier on the chain has hidden the locals in front of the catching one. */
  lemma CatchingLabelEntersNoLocal(m: Elements, p: seq<Place>, l: Name, k: nat, j: nat)
    requires InBounds(m, p) && Legal(m, p, l) && Catches(m, p, l, k, j)
    requires forall a, b | 0 <= a < b < |p| :: p[a].block != p[b].block
    ensures InBounds(m, p[..k] + [Place(p[k].block, j)])
    ensures (forall d :: InScope(m, p[..k] + [Place(p[k].block, j)], d) ==> InScope(m, p, d))
      <==> !(EarlierLabel(m, p, l) && LocalBetween(m, p[k], j))
  {
    var q := p[..k] + [Place(p[k].block, j)];
    if !LocalBetween(m, p[k], j) {
      ScopeShrinks(m, p, k, j);
    } else {
      if !EarlierLabel(m, p, l) {
        CaughtIsNearest(m, p, l, k, j);
        assert false;
      }
      var i: int :| p[k].pos <= i < j && m[p[k].block][i].LocalE?;
      var d := Place(p[k].block, i);
      assert q[k] == Place(p[k].block, j);
      assert InScope(m, q, d) && !InScope(m, p, d);
    }
  }

  /** The blocks on a way down belong to the function and are all different. */
  lemma {:induction false} PathBlocks(b: Block, m: Elements, q: seq<Place>)
    requires Tabled(b, m) && Distinct(b) && IsPath(m, b.id, q)
    ensures InBounds(m, q) && forall k | 0 <= k < |q| :: q[k].block in Own(b)
    ensures forall i, j | 0 <= i < j < |q| :: q[i].block != q[j].block
  {
    hide Tabled, Distinct, Own, ElementsUpTo, StatElements;
    TabledRoot(b, m);
    RootIn(b);
    if |q| > 1 {
      assert m[q[0].block][q[0].pos] == BlockE(q[0 + 1].block);
      var k, j := ChildAt(b, |b.stats|, q[0].pos);
      TabledChild(b, m, k, j);
      ChildIds(b, k, j, k, j);
      var q' := q[1..];
      assert forall i | 0 <= i < |q'| :: q'[i] == q[i + 1];
      PathBlocks(Child(b, k, j), m, q');
      assert forall i | 1 <= i < |q| :: q[i] == q'[i - 1] && q[i].block in Own(Child(b, k, j));
    }
  }

  /** The same for every goto of a function whose table is complete. */
  lemma FunctionGotosEnterNoLocal(b: Block, m: Elements, p: seq<Place>, l: Name, k: nat, j: nat)
    requires Tabled(b, m) && Distinct(b) && IsSite(m, b.id, p, l) && AllLegal(m, [], b.id, |m[b.id]|)
    requires InBounds(m, p) && Catches(m, p, l, k, j)
    ensures InBounds(m, p[..k] + [Place(p[k].block, j)])
    ensures (forall d :: InScope(m, p[..k] + [Place(p[k].block, j)], d) ==> InScope(m, p, d))
      <==> !(EarlierLabel(m, p, l) && LocalBetween(m, p[k], j))
  {
    hide Tabled, Distinct, InScope, EarlierLabel, LocalBetween, Legal, Catches, IsPath, InBounds, Own, ElementsUpTo;
    PathSteps(m, b.id, p, l);
    assert [] + p == p;
    PathBlocks(b, m, p);
    CatchingLabelEntersNoLocal(m, p, l, k, j);
  }

  lemma CaughtIsNearest(m: Elements, p: seq<Place>, l: Name, k: nat, j: nat)
    requires InBounds(m, p) && Legal(m, p, l) && !EarlierLabel(m, p, l) && Catches(m, p, l, k, j)
    ensures !LocalBetween(m, p[k], j)
  {
    hide LocalNames;
    var slices := Slices(m, p);
    var k', n :| Nearest(slices, l, k', n) && LocalNames(slices[k'][..n]) == [];
    CaughtAhead(m, p, l, k, j, k', n);
    forall i | p[k].pos <= i < j ensures !m[p[k].block][i].LocalE? {
      NoLocalsIn(slices[k][..n], i - p[k].pos);
    }
  }

  lemma CaughtAhead(m: Elements, p: seq<Place>, l: Name, k: nat, j: nat, k': nat, n: nat)
    requires InBounds(m, p) && !EarlierLabel(m, p, l) && Catches(m, p, l, k, j) && Nearest(Slices(m, p), l, k', n)
    ensures k' == k && p[k].pos + n == j
  {
    hide Legal, LocalNames;
    var slice := m[p[k'].block][p[k'].pos..];
    assert Slices(m, p)[k'] == slice && slice[n] == m[p[k'].block][p[k'].pos + n];
    assert m[p[k'].block][p[k'].pos + n] in m[p[k'].block];
    assert j >= p[k].pos by {
      assert m[p[k].block][j] == LabelE(l);
    }
    assert Slices(m, p)[k][j - p[k].pos] == m[p[k].block][j];
  }

  /** `::l:: do goto l; local x; ::l:: end` is accepted, and the inner label is the one that catches. */
  lemma HiddenLocalIsEntered(m: Elements, p: seq<Place>)
    requires m == map[0 := [LabelE("l"), BlockE(1)], 1 := [GotoE("l"), LocalE("x"), LabelE("l")]]
    requires p == [Place(0, 1), Place(1, 0)]
    ensures InBounds(m, p) && Legal(m, p, "l") && Catches(m, p, "l", 1, 2)
    ensures InBounds(m, p[..1] + [Place(1, 2)])
    ensures InScope(m, p[..1] + [Place(1, 2)], Place(1, 1)) && !InScope(m, p, Place(1, 1))
  {
    assert m[p[0].block][0] == LabelE("l");
    assert EarlierLabel(m, p, "l");
    assert (p[..1] + [Place(1, 2)])[1] == Place(1, 2);
  }

  /** A goto that would leave its function has no label on its chain. */
  lemma {:induction false} EscapingSite(b: Block, m: Elements, l: Name) returns (q: seq<Place>)
    requires Tabled(b, m) && l in Escaping(b)
    ensures IsSite(m, b.id, q, l) && forall k | 0 <= k < |q| :: LabelE(l) !in m[q[k].block]
  {
    var i :| 0 <= i < |b.stats| && l in StatGotos(b.stats[i]);
    LabelsListed(b, l);
    var s := b.stats[i];
    if s.kind.Goto? {
      KindPosition(b, i);
      q := [Place(b.id, |ElementsUpTo(b, i)|)];
    } else {
      var j :| 0 <= j < |s.nodes| && s.nodes[j].Sub? && l in Escaping(s.nodes[j].block);
      TabledChild(b, m, i, j);
      PosListed(b, i, j);
      var q' := EscapingSite(s.nodes[j].block, m, l);
      SiteBelow(m, b.id, Pos(b, i, j), q', l);
      q := [Place(b.id, Pos(b, i, j))] + q';
    }
  }

  /** Static soundness: no goto leaves a function whose gotos are all legal. */
  lemma LegalGotosStay(b: Block, m: Elements)
    requires Tabled(b, m) && AllLegal(m, [], b.id, |m[b.id]|)
    ensures Escaping(b) == {}
  {
    if l :| l in Escaping(b) {
      var q := EscapingSite(b, m, l);
      PathSteps(m, b.id, q, l);
      assert [] + q == q;
      NoLabelNotLegal(m, q, l);
    }
  }

  lemma NoLabelNotLegal(m: Elements, q: seq<Place>, l: Name)
    requires InBounds(m, q) && forall k | 0 <= k < |q| :: LabelE(l) !in m[q[k].block]
    ensures !Legal(m, q, l)
  {
    var slices := Slices(m, q);
    forall k, n ensures !Nearest(slices, l, k, n) {
      if 0 <= k < |slices| && 0 <= n < |slices[k]| {
        assert slices[k][n] == m[q[k].block][q[k].pos + n];
      }
    }
    forall k, j | 0 <= k < |q| && 0 <= j < q[k].pos ensures m[q[k].block][j] != LabelE(l) {
      assert m[q[k].block][j] in m[q[k].block];
    }
  }
}
