/** The stack of blocks under recursion.  A return cuts the stack at the topmost occurrence of the calling
block, which may be a block of the callee when a function is entered again.  This module follows the stack
beyond that point: what is left over, when it goes away, and when the interpreter notices. */
module Recursion {
  import opened Syntax
  import opened Control

  /** The enclosing block of each block, inside one function; function bodies have none. */
  type Parents = map<BlockId, BlockId>

  /** What is in progress in an activation: the visit of a block, or a loop, which remembers the block that
      was on top of the stack when it began. */
  datatype Mark = Visit(id: BlockId) | Loop(id: BlockId)

  /** The stack; for every activation, the program first, what is in progress, outermost first; and for
      every call the block that was on top of the stack when it was made. */
  datatype State = State(blocks: seq<BlockId>, owns: seq<seq<Mark>>, callers: seq<BlockId>)

  /** What the interpreter does: it enters a block or leaves it normally, begins or ends a loop, catches a
      goto or a break in number `n` of what is in progress, calls a function, or catches a return. */
  datatype Event =
    | Enter(id: BlockId)
    | Leave
    | Begin
    | End
    | Catch(n: nat)
    | Call(root: BlockId)
    | Return

  datatype Next = Running(s: State) | Unbalanced

  /** The blocks that are being visited. */
  function Ids(own: seq<Mark>): seq<BlockId> {
    if own == [] then [] else Ids(Pop(own)) + (if Top(own).Visit? then [Top(own).id] else [])
  }

  predicate Enabled(up: Parents, s: State, e: Event) {
    && s.owns != [] && Top(s.owns) != [] && Top(s.owns)[0].Visit?
    && match e
       case Enter(id) => id in up && Ids(Top(s.owns)) != [] && up[id] == Top(Ids(Top(s.owns)))
       case Leave => Top(Top(s.owns)).Visit?
       case Begin => true
       case End => Top(Top(s.owns)).Loop?
       case Catch(n) => n < |Top(s.owns)|
       case Call(root) => root !in up
       case Return => |s.owns| > 1 && s.callers != []
  }

  /** The stack is cut at the topmost occurrence of a block, as in `Stabilized`. */
  function Cut(blocks: seq<BlockId>, x: BlockId): seq<BlockId> {
    if x in blocks then blocks[..LastIndex(blocks, x) + 1] else blocks
  }

  lemma CutIsStabilized(v: View, x: BlockId)
    requires v.frames != [] && x in v.blocks
    ensures Stabilized(v, x).blocks == Cut(v.blocks, x)
  {
  }

  /** A return in this machine does to the stack what the end of a call does in the interpreter. */
  lemma ReturnIsEnded(up: Parents, s: State, v: View)
    requires Enabled(up, s, Event.Return) && s.blocks == v.blocks && Top(s.callers) in v.blocks
    requires v.frames != [] && v.functions != [] && v.bases != []
    ensures Step(up, s, Event.Return).Running?
    ensures Step(up, s, Event.Return).s.blocks == Ended(v, Outcome.Return, Top(s.callers)).blocks
  {
    CutIsStabilized(v, Top(s.callers));
  }

  /** The block on top of the stack. */
  function Current(blocks: seq<BlockId>): BlockId {
    if blocks == [] then 0 else Top(blocks)
  }

  /** What is in progress after an exit has been caught: a block goes on, and a loop is over. */
  function Caught(own: seq<Mark>, n: nat): seq<Mark>
    requires n < |own|
  {
    if own[n].Visit? then own[..n + 1] else own[..n]
  }

  /** One event.  Only the normal end of a block looks at the top of the stack. */
  function Step(up: Parents, s: State, e: Event): Next
    requires Enabled(up, s, e)
  {
    var own := Top(s.owns);
    match e
    case Enter(id) => Running(s.(blocks := s.blocks + [id], owns := Pop(s.owns) + [own + [Visit(id)]]))
    case Begin => Running(s.(owns := Pop(s.owns) + [own + [Loop(Current(s.blocks))]]))
    case End => Running(s.(owns := Pop(s.owns) + [Pop(own)]))
    case Leave =>
      if s.blocks == [] || Top(s.blocks) != Top(own).id then Next.Unbalanced
      else if |own| > 1 then Running(s.(blocks := Pop(s.blocks), owns := Pop(s.owns) + [Pop(own)]))
      else Running(State(Pop(s.blocks), Pop(s.owns), if s.callers == [] then [] else Pop(s.callers)))
    case Catch(n) => Running(s.(blocks := Cut(s.blocks, own[n].id), owns := Pop(s.owns) + [Caught(own, n)]))
    case Call(root) =>
      Running(State(s.blocks + [root], s.owns + [[Visit(root)]], s.callers + [Current(s.blocks)]))
    case Return => Running(State(Cut(s.blocks, Top(s.callers)), Pop(s.owns), Pop(s.callers)))
  }

  /** The program has ended. */
  predicate Over(s: State, e: Event) {
    e.Leave? && |s.owns| == 1 && |Top(s.owns)| == 1
  }

  // ----- the segments of the stack -----

  function Flat(rs: seq<seq<BlockId>>): seq<BlockId> {
    if rs == [] then [] else Flat(Pop(rs)) + Top(rs)
  }

  function Upto(r: seq<BlockId>, x: BlockId): seq<BlockId> {
    if x in r then r[..LastIndex(r, x) + 1] else []
  }

  /** What an event does to the segments of the stack, one for each activation.  What a callee leaves over
      is added to the segment of its caller: after a return, everything up to the last occurrence of the
      calling block. */
  function Segments(s: State, rs: seq<seq<BlockId>>, e: Event): seq<seq<BlockId>>
    requires rs != [] && |rs| == |s.owns| && Top(s.owns) != [] && (e.Catch? ==> e.n < |Top(s.owns)|)
    requires e.Return? ==> |rs| > 1 && s.callers != []
    requires e.Leave? ==> Top(rs) != []
  {
    match e
    case Enter(id) => Pop(rs) + [Top(rs) + [id]]
    case Begin => rs
    case End => rs
    case Leave =>
      if |Top(s.owns)| > 1 then Pop(rs) + [Pop(Top(rs))]
      else if |rs| > 1 then Pop(Pop(rs)) + [Top(Pop(rs)) + Pop(Top(rs))]
      else []
    case Catch(n) => Pop(rs) + [Cut(Top(rs), Top(s.owns)[n].id)]
    case Call(root) => rs + [[root]]
    case Return => Pop(Pop(rs)) + [Top(Pop(rs)) + Upto(Top(rs), Top(s.callers))]
  }

  /** What is in progress stands in the segment, in order. */
  ghost predicate Fits(own: seq<Mark>, r: seq<BlockId>)
    decreases |own|, 1
  {
    own == [] || exists j :: FitsAt(own, r, j)
  }

  ghost predicate FitsAt(own: seq<Mark>, r: seq<BlockId>, j: int)
    requires own != []
    decreases |own|, 0
  {
    && 0 <= j < |r| && r[j] == Top(own).id
    && Fits(Pop(own), if Top(own).Visit? then r[..j] else r[..j + 1])
  }

  /** The stack is made of one segment for each activation, and the top of a caller's segment is the block
      that made the call. */
  ghost predicate Held(s: State, rs: seq<seq<BlockId>>) {
    && s.owns != [] && |rs| == |s.owns| && s.blocks == Flat(rs)
    && (forall i | 0 <= i < |rs| :: Fits(s.owns[i], rs[i]))
    && (forall i | 0 <= i < |s.owns| :: s.owns[i] != [] && s.owns[i][0].Visit?)
    && |s.callers| == |s.owns| - 1
    && (forall i | 0 <= i < |s.callers| :: rs[i] != [] && s.callers[i] == Top(rs[i]))
  }

  lemma FitsLonger(own: seq<Mark>, r: seq<BlockId>, more: seq<BlockId>)
    requires Fits(own, r)
    ensures Fits(own, r + more)
  {
    if own != [] {
      var j :| FitsAt(own, r, j);
      assert (r + more)[..j] == r[..j] && (r + more)[..j + 1] == r[..j + 1];
      assert FitsAt(own, r + more, j);
    }
  }

  lemma {:induction false} FitsFewer(own: seq<Mark>, r: seq<BlockId>, n: nat)
    requires Fits(own, r) && n <= |own|
    ensures Fits(own[..n], r)
    decreases |own|
  {
    if n < |own| {
      var j :| FitsAt(own, r, j);
      var r' := if Top(own).Visit? then r[..j] else r[..j + 1];
      FitsLonger(Pop(own), r', r[|r'|..]);
      assert r' + r[|r'|..] == r;
      FitsFewer(Pop(own), r, n);
      assert Pop(own)[..n] == own[..n];
    } else {
      assert own[..n] == own;
    }
  }

  lemma FitsNonempty(own: seq<Mark>, r: seq<BlockId>)
    requires Fits(own, r) && own != []
    ensures r != [] && Top(own).id in r
  {
    var j :| FitsAt(own, r, j);
  }

  /** Cutting at the last occurrence of what is innermost keeps everything in progress. */
  lemma FitsCut(own: seq<Mark>, r: seq<BlockId>)
    requires Fits(own, r) && own != []
    ensures Fits(own, Cut(r, Top(own).id))
  {
    var x := Top(own).id;
    var j :| FitsAt(own, r, j);
    LastIndexIsLast(r, x, j);
    var r' := Cut(r, x);
    assert r'[..j] == r[..j] && r'[..j + 1] == r[..j + 1] && r'[j] == x;
    assert FitsAt(own, r', j);
  }

  lemma FitsLeave(own: seq<Mark>, r: seq<BlockId>)
    requires Fits(own, r) && own != [] && Top(own).Visit?
    ensures r != [] && Fits(Pop(own), Pop(r))
  {
    var j :| FitsAt(own, r, j);
    FitsLonger(Pop(own), r[..j], r[j..|r| - 1]);
    assert r[..j] + r[j..|r| - 1] == Pop(r);
  }

  lemma FitsEnter(own: seq<Mark>, r: seq<BlockId>, id: BlockId)
    requires Fits(own, r)
    ensures Fits(own + [Visit(id)], r + [id])
  {
    var own' := own + [Visit(id)];
    assert Pop(own') == own && (r + [id])[..|r|] == r;
    assert FitsAt(own', r + [id], |r|);
  }

  lemma FitsBegin(own: seq<Mark>, r: seq<BlockId>)
    requires Fits(own, r) && r != []
    ensures Fits(own + [Loop(Top(r))], r)
  {
    var own' := own + [Loop(Top(r))];
    assert Pop(own') == own && r[..|r|] == r;
    assert FitsAt(own', r, |r| - 1);
  }

  lemma FlatTop(rs: seq<seq<BlockId>>, r: seq<BlockId>)
    ensures Flat(rs + [r]) == Flat(rs) + r
  {
    assert Pop(rs + [r]) == rs;
  }

  lemma FlatTwo(rs: seq<seq<BlockId>>)
    requires |rs| >= 2
    ensures Flat(rs) == Flat(Pop(Pop(rs))) + Top(Pop(rs)) + Top(rs)
  {
  }

  lemma CutUpper(a: seq<BlockId>, r: seq<BlockId>, x: BlockId)
    requires x in r
    ensures Cut(a + r, x) == a + Cut(r, x) == a + Upto(r, x)
  {
    var all := a + r;
    var i := LastIndex(r, x);
    assert all[|a| + i] == x;
    LastIndexIsLast(all, x, |a| + i);
    var k := LastIndex(all, x);
    assert r[k - |a|] == x;
    LastIndexIsLast(r, x, k - |a|);
    assert all[..k + 1] == a + r[..i + 1];
  }

  lemma CutBelow(a: seq<BlockId>, r: seq<BlockId>, x: BlockId)
    requires x !in r && a != [] && Top(a) == x
    ensures Cut(a + r, x) == a
  {
    CutRestores(a, r, x);
  }

  // ----- one event -----

  lemma HeldTop(s: State, rs: seq<seq<BlockId>>)
    requires Held(s, rs)
    ensures rs != [] && |rs| == |s.owns| && Fits(Top(s.owns), Top(rs)) && s.blocks == Flat(Pop(rs)) + Top(rs)
    ensures Top(rs) != [] && s.blocks != [] && Current(s.blocks) == Top(Top(rs)) && Top(s.owns) != []
    ensures Top(s.owns)[0].Visit? && |s.callers| == |s.owns| - 1
  {
    FitsNonempty(Top(s.owns), Top(rs));
  }

  /** The segment of the current activation changes. */
  lemma HeldChanged(s: State, rs: seq<seq<BlockId>>, s': State, r: seq<BlockId>)
    requires Held(s, rs) && s'.owns != [] && Pop(s'.owns) == Pop(s.owns) && s'.callers == s.callers
    requires Top(s'.owns) != [] && Top(s'.owns)[0].Visit? && Fits(Top(s'.owns), r) && s'.blocks == Flat(Pop(rs)) + r
    ensures Held(s', Pop(rs) + [r])
  {
    hide Fits;
    FlatTop(Pop(rs), r);
    assert s'.owns == Pop(s'.owns) + [Top(s'.owns)] && s.owns == Pop(s.owns) + [Top(s.owns)];
    forall i | 0 <= i < |rs| - 1 ensures s'.owns[i] == s.owns[i] {
      assert s'.owns[i] == Pop(s'.owns)[i] == s.owns[i];
    }
  }

  /** The current activation ends and leaves `tail` on the stack. */
  lemma HeldEnded(s: State, rs: seq<seq<BlockId>>, s': State, tail: seq<BlockId>)
    requires Held(s, rs) && |s.owns| > 1 && s'.owns == Pop(s.owns) && s'.callers == Pop(s.callers)
    requires s'.blocks == Flat(Pop(rs)) + tail
    ensures Held(s', Pop(Pop(rs)) + [Top(Pop(rs)) + tail])
  {
    hide Fits;
    var r, below := Top(Pop(rs)), Pop(Pop(rs));
    FitsLonger(Top(s'.owns), r, tail);
    FlatTwo(rs);
    FlatTop(below, r + tail);
    assert Flat(Pop(rs)) + tail == Flat(below) + (r + tail);
    forall i | 0 <= i < |rs| - 1 ensures s'.owns[i] == s.owns[i] { }
  }

  lemma HeldCalled(s: State, rs: seq<seq<BlockId>>, s': State, root: BlockId)
    requires Held(s, rs) && s'.owns == s.owns + [[Visit(root)]] && s'.callers == s.callers + [Current(s.blocks)]
    requires s'.blocks == s.blocks + [root]
    ensures Held(s', rs + [[root]])
  {
    hide Fits;
    HeldTop(s, rs);
    FlatTop(rs, [root]);
    FitsNothing();
    FitsEnter([], [], root);
    assert [] + [Visit(root)] == [Visit(root)] && [] + [root] == [root];
    forall i | 0 <= i < |rs| ensures s'.owns[i] == s.owns[i] { }
  }

  lemma FitsNothing()
    ensures Fits([], [])
  {
  }

  /** Every event that does not throw keeps the segments, whatever has been left over. */
  lemma StepHeld(up: Parents, s: State, rs: seq<seq<BlockId>>, e: Event) returns (s': State)
    requires Held(s, rs) && Enabled(up, s, e) && Step(up, s, e).Running? && !Over(s, e)
    ensures rs != [] && Top(rs) != [] && |rs| == |s.owns| && Step(up, s, e) == Running(s')
    ensures Held(s', Segments(s, rs, e))
  {
    hide Held, Fits, Cut, Upto, Ids;
    HeldTop(s, rs);
    s' := Step(up, s, e).s;
    match e
    case Call(root) =>
      HeldCalled(s, rs, s', root);
    case Return =>
      HeldReturn(s, rs, s');
    case Catch(n) =>
      HeldCatch(s, rs, s', n);
    case Leave =>
      HeldLeave(s, rs, s');
    case _ =>
      HeldInside(up, s, rs, e, s');
  }

  lemma HeldInside(up: Parents, s: State, rs: seq<seq<BlockId>>, e: Event, s': State)
    requires Held(s, rs) && Enabled(up, s, e) && Step(up, s, e) == Running(s') && (e.Enter? || e.Begin? || e.End?)
    requires rs != [] && |rs| == |s.owns|
    ensures Held(s', Segments(s, rs, e))
  {
    hide Held, Fits, Ids;
    HeldTop(s, rs);
    var r, own := Top(rs), Top(s.owns);
    assert Pop(rs) + [r] == rs;
    match e
    case Enter(id) =>
      FitsEnter(own, r, id);
      assert s'.blocks == Flat(Pop(rs)) + (r + [id]);
      HeldChanged(s, rs, s', r + [id]);
    case Begin =>
      FitsBegin(own, r);
      HeldChanged(s, rs, s', r);
    case End =>
      FitsFewer(own, r, |own| - 1);
      HeldChanged(s, rs, s', r);
  }

  lemma HeldLeave(s: State, rs: seq<seq<BlockId>>, s': State)
    requires Held(s, rs) && Top(Top(s.owns)).Visit? && s.blocks != [] && s'.blocks == Pop(s.blocks)
    requires if |Top(s.owns)| > 1 then s'.callers == s.callers && s'.owns == Pop(s.owns) + [Pop(Top(s.owns))]
             else |s.owns| > 1 && s'.owns == Pop(s.owns) && s.callers != [] && s'.callers == Pop(s.callers)
    ensures rs != [] && Top(rs) != [] && |rs| == |s.owns| && Held(s', Segments(s, rs, Leave))
  {
    hide Held, Fits, Ids;
    HeldTop(s, rs);
    var r, own := Top(rs), Top(s.owns);
    FitsLeave(own, r);
    assert Pop(s.blocks) == Flat(Pop(rs)) + Pop(r);
    if |own| > 1 {
      HeldChanged(s, rs, s', Pop(r));
    } else {
      HeldEnded(s, rs, s', Pop(r));
    }
  }

  lemma HeldCatch(s: State, rs: seq<seq<BlockId>>, s': State, n: nat)
    requires Held(s, rs) && n < |Top(s.owns)|
    requires s' == s.(blocks := Cut(s.blocks, Top(s.owns)[n].id), owns := Pop(s.owns) + [Caught(Top(s.owns), n)])
    ensures rs != [] && Held(s', Pop(rs) + [Cut(Top(rs), Top(s.owns)[n].id)])
  {
    hide Held, Fits, Cut;
    HeldTop(s, rs);
    var r, own := Top(rs), Top(s.owns);
    var own', r' := own[..n + 1], Cut(r, own[n].id);
    FitsFewer(own, r, n + 1);
    FitsNonempty(own', r);
    CutUpper(Flat(Pop(rs)), r, own[n].id);
    FitsCut(own', r);
    if own[n].Loop? {
      FitsFewer(own', r', n);
      assert own'[..n] == own[..n];
    }
    HeldChanged(s, rs, s', r');
  }

  lemma HeldReturn(s: State, rs: seq<seq<BlockId>>, s': State)
    requires Held(s, rs) && |s.owns| > 1 && s' == State(Cut(s.blocks, Top(s.callers)), Pop(s.owns), Pop(s.callers))
    ensures |rs| > 1 && Held(s', Pop(Pop(rs)) + [Top(Pop(rs)) + Upto(Top(rs), Top(s.callers))])
  {
    HeldTop(s, rs);
    var below, r, x := Flat(Pop(rs)), Top(rs), Top(s.callers);
    CallerOnTop(s, rs);
    if x in r {
      CutUpper(below, r, x);
    } else {
      CutBelow(below, r, x);
      assert below + [] == below;
    }
    HeldEnded(s, rs, s', Upto(r, x));
  }

  lemma CallerOnTop(s: State, rs: seq<seq<BlockId>>)
    requires Held(s, rs) && |s.owns| > 1
    ensures |rs| > 1 && Flat(Pop(rs)) != [] && Top(Flat(Pop(rs))) == Top(s.callers)
  {
    assert Flat(Pop(rs)) == Flat(Pop(Pop(rs))) + rs[|rs| - 2];
  }

  // ----- whole runs -----

  /** A run that does not throw; while it lasts, more than `n` activations are open. */
  ghost predicate Runs(up: Parents, s: State, es: seq<Event>, n: nat, t: State)
    decreases |es|
  {
    && |s.owns| > n
    && if es == [] then t == s
       else Enabled(up, s, es[0]) && Step(up, s, es[0]).Running? && Runs(up, Step(up, s, es[0]).s, es[1..], n, t)
  }

  /** The activations below `n` are as before. */
  ghost predicate Kept(s: State, rs: seq<seq<BlockId>>, s': State, rs': seq<seq<BlockId>>, n: nat) {
    && n <= |rs| && n <= |rs'| && rs'[..n] == rs[..n]
    && n <= |s.owns| && n <= |s'.owns| && s'.owns[..n] == s.owns[..n]
    && n <= |s.callers| && n <= |s'.callers| && s'.callers[..n] == s.callers[..n]
  }

  lemma StepKeeps(up: Parents, s: State, rs: seq<seq<BlockId>>, e: Event, n: nat)
    requires rs != [] && Top(rs) != [] && |rs| == |s.owns| && |s.callers| == |s.owns| - 1 && |s.owns| > n
    requires Enabled(up, s, e) && Step(up, s, e).Running? && |Step(up, s, e).s.owns| > n
    ensures Kept(s, rs, Step(up, s, e).s, Segments(s, rs, e), n)
  {
    hide Cut, Upto, Ids;
    var s', rs' := Step(up, s, e).s, Segments(s, rs, e);
    assert |rs'| == |s'.owns|;
    assert Pop(rs)[..n] == rs[..n] && Pop(s.owns)[..n] == s.owns[..n];
    if |s'.owns| < |s.owns| {
      assert Pop(Pop(rs))[..n] == rs[..n];
    }
  }

  lemma KeptChain(s: State, rs: seq<seq<BlockId>>, s': State, rs': seq<seq<BlockId>>, t: State, rt: seq<seq<BlockId>>,
                  n: nat)
    requires Kept(s, rs, s', rs', n) && Kept(s', rs', t, rt, n)
    ensures Kept(s, rs, t, rt, n)
  {
  }

  /** Every run that does not throw keeps the segments, and the activations below `n` are as before. */
  lemma {:induction false} RunsHeld(up: Parents, s: State, rs: seq<seq<BlockId>>, es: seq<Event>, n: nat, t: State)
      returns (rt: seq<seq<BlockId>>)
    requires Held(s, rs) && Runs(up, s, es, n, t)
    ensures Held(t, rt) && |t.owns| > n && Kept(s, rs, t, rt, n)
    decreases |es|
  {
    hide Held, Step, Segments, Kept;
    HeldTop(s, rs);
    if es == [] {
      rt := rs;
      KeptSelf(s, rs, n);
    } else {
      RunsDeep(up, Step(up, s, es[0]).s, es[1..], n, t);
      NotOver(up, s, es[0]);
      var s' := StepHeld(up, s, rs, es[0]);
      StepKeeps(up, s, rs, es[0], n);
      rt := RunsHeld(up, s', Segments(s, rs, es[0]), es[1..], n, t);
      KeptChain(s, rs, s', Segments(s, rs, es[0]), t, rt, n);
    }
  }

  lemma NotOver(up: Parents, s: State, e: Event)
    requires Enabled(up, s, e) && Step(up, s, e).Running? && Step(up, s, e).s.owns != []
    ensures !Over(s, e)
  {
  }

  lemma KeptSelf(s: State, rs: seq<seq<BlockId>>, n: nat)
    requires n < |s.owns| && |rs| == |s.owns| && |s.callers| == |s.owns| - 1
    ensures Kept(s, rs, s, rs, n)
  {
  }

  lemma RunsDeep(up: Parents, s: State, es: seq<Event>, n: nat, t: State)
    requires Runs(up, s, es, n, t)
    ensures |s.owns| > n
  {
  }

  /** The stack of a program that has just been started. */
  function Start(chunk: BlockId): State {
    State([chunk], [[Visit(chunk)]], [])
  }

  lemma StartHeld(chunk: BlockId)
    ensures Held(Start(chunk), [[chunk]])
  {
    FitsEnter([], [], chunk);
    assert [] + [Visit(chunk)] == [Visit(chunk)] && [] + [chunk] == [chunk];
    FlatTop([], [chunk]);
    assert [] + [[chunk]] == [[chunk]];
  }

  // ----- calls -----

  /** In every run, whatever has been left over before or inside: the stack at a call stays below everything
      that the callee does.  A return restores the whole state exactly when the calling block is not on the
      stack above it; a normal end does exactly when the callee's block is all that is there. */
  lemma OutermostCallRestores(up: Parents, chunk: BlockId, es0: seq<Event>, s: State, root: BlockId, s1: State,
                              es: seq<Event>, t: State)
    requires Runs(up, Start(chunk), es0, 0, s)
    requires Enabled(up, s, Call(root)) && Step(up, s, Call(root)) == Running(s1)
    requires Runs(up, s1, es, |s.owns|, t) && |t.owns| == |s.owns| + 1
    ensures s.blocks != [] && s.blocks <= t.blocks && Enabled(up, t, Event.Return)
    ensures Step(up, t, Event.Return) == Running(s) <==> Top(s.blocks) !in t.blocks[|s.blocks|..]
    ensures Top(t.owns) == [Visit(root)] ==>
              Enabled(up, t, Leave) && (Step(up, t, Leave) == Running(s) <==> t.blocks == s.blocks + [root])
  {
    hide Held, Runs, Flat, Cut, Ids;
    var rs, rt := CallSegments(up, chunk, es0, s, root, s1, es, t);
    HeldTop(s, rs);
    HeldTop(t, rt);
    HeldFlat(s, rs);
    var above := Top(rt);
    assert t.blocks == s.blocks + above && t.blocks[|s.blocks|..] == above;
    ReturnCuts(s.blocks, above);
    if Top(t.owns) == [Visit(root)] {
      PopsTo(s.blocks, above, root);
    }
  }

  lemma HeldFlat(s: State, rs: seq<seq<BlockId>>)
    requires Held(s, rs)
    ensures s.blocks == Flat(rs)
  {
  }

  lemma ReturnCuts(below: seq<BlockId>, above: seq<BlockId>)
    requires below != []
    ensures Cut(below + above, Top(below)) == below <==> Top(below) !in above
  {
    CutRestores(below, above, Top(below));
  }

  lemma PopsTo(below: seq<BlockId>, above: seq<BlockId>, root: BlockId)
    requires above != []
    ensures Top(below + above) == root && Pop(below + above) == below <==> below + above == below + [root]
  {
    if Pop(below + above) == below {
      assert below + above == Pop(below + above) + [Top(below + above)];
    }
    if below + above == below + [root] {
      assert Pop(below + [root]) == below;
    }
  }

  lemma CallSegments(up: Parents, chunk: BlockId, es0: seq<Event>, s: State, root: BlockId, s1: State,
                     es: seq<Event>, t: State) returns (rs: seq<seq<BlockId>>, rt: seq<seq<BlockId>>)
    requires Runs(up, Start(chunk), es0, 0, s)
    requires Enabled(up, s, Call(root)) && Step(up, s, Call(root)) == Running(s1)
    requires Runs(up, s1, es, |s.owns|, t) && |t.owns| == |s.owns| + 1
    ensures Held(s, rs) && Held(t, rt) && Pop(rt) == rs
    ensures Pop(t.owns) == s.owns && |t.callers| == |s.owns| && Pop(t.callers) == s.callers
    ensures s.blocks != [] && Top(t.callers) == Top(s.blocks)
  {
    hide Held, Runs, Flat, Cut, Ids, Fits;
    var n := |s.owns|;
    StartHeld(chunk);
    rs := RunsHeld(up, Start(chunk), [[chunk]], es0, 0, s);
    HeldTop(s, rs);
    var s1' := StepHeld(up, s, rs, Call(root));
    rt := RunsHeld(up, s1, rs + [[root]], es, n, t);
    HeldTop(t, rt);
    assert Pop(rt) == rt[..n] == (rs + [[root]])[..n] == rs;
    assert Pop(t.owns) == t.owns[..n] == s1.owns[..n] == s.owns;
    assert t.callers == t.callers[..n] == s1.callers[..n] == s1.callers;
    assert Pop(s1.callers) == s.callers && Top(s1.callers) == Top(s.blocks);
  }

  /** `F` consists of whole functions. */
  ghost predicate WholeFunctions(up: Parents, F: set<BlockId>) {
    forall id | id in up :: id in F <==> up[id] in F
  }

  ghost predicate CallsOutside(es: seq<Event>, F: set<BlockId>) {
    forall i | 0 <= i < |es| && es[i].Call? :: es[i].root !in F
  }

  /** Everything above `n` on the stack, and every block visited above activation `m`, is outside of `F`. */
  ghost predicate Outside(s: State, n: nat, m: nat, F: set<BlockId>) {
    && (forall i | n <= i < |s.blocks| :: s.blocks[i] !in F)
    && (forall i, id | m <= i < |s.owns| && id in Ids(s.owns[i]) :: id !in F)
  }

  /** A return restores the state of the caller if no function that is called meanwhile is the caller's. */
  lemma CallerNotReentered(up: Parents, chunk: BlockId, es0: seq<Event>, s: State, root: BlockId, s1: State,
                           es: seq<Event>, t: State, F: set<BlockId>)
    requires Runs(up, Start(chunk), es0, 0, s)
    requires Enabled(up, s, Call(root)) && Step(up, s, Call(root)) == Running(s1)
    requires Runs(up, s1, es, |s.owns|, t) && |t.owns| == |s.owns| + 1
    requires WholeFunctions(up, F) && s.blocks != [] && Top(s.blocks) in F && root !in F && CallsOutside(es, F)
    ensures Enabled(up, t, Event.Return) && Step(up, t, Event.Return) == Running(s)
  {
    hide Runs, WholeFunctions, CallsOutside;
    CalledOutside(up, s, root, s1, F);
    OutermostCallRestores(up, chunk, es0, s, root, s1, es, t);
    RunsOutside(up, s1, es, |s.owns|, t, |s.blocks|, F);
  }

  lemma CalledOutside(up: Parents, s: State, root: BlockId, s1: State, F: set<BlockId>)
    requires Enabled(up, s, Call(root)) && Step(up, s, Call(root)) == Running(s1) && root !in F
    ensures Outside(s1, |s.blocks|, |s.owns|, F)
  {
    assert Pop([Visit(root)]) == [];
  }

  lemma {:induction false} RunsOutside(up: Parents, s: State, es: seq<Event>, m: nat, t: State, n: nat, F: set<BlockId>)
    requires Runs(up, s, es, m, t) && Outside(s, n, m, F) && WholeFunctions(up, F) && CallsOutside(es, F)
    ensures Outside(t, n, m, F)
    decreases |es|
  {
    hide Outside, Step, WholeFunctions;
    if es != [] {
      RunsDeep(up, Step(up, s, es[0]).s, es[1..], m, t);
      StepOutside(up, s, es[0], m, n, F);
      assert forall i | 0 <= i < |es[1..]| :: es[1..][i] == es[i + 1];
      RunsOutside(up, Step(up, s, es[0]).s, es[1..], m, t, n, F);
    }
  }

  lemma StepOutside(up: Parents, s: State, e: Event, m: nat, n: nat, F: set<BlockId>)
    requires Enabled(up, s, e) && Step(up, s, e).Running? && |s.owns| > m && |Step(up, s, e).s.owns| > m
    requires Outside(s, n, m, F) && WholeFunctions(up, F) && (e.Call? ==> e.root !in F)
    ensures Outside(Step(up, s, e).s, n, m, F)
  {
    hide Ids;
    var s' := Step(up, s, e).s;
    StacksShrink(up, s, e);
    forall i | n <= i < |s'.blocks| ensures s'.blocks[i] !in F {
      if i < |s.blocks| {
        assert s'.blocks[i] == s.blocks[i];
      }
    }
    forall i, id | m <= i < |s'.owns| && id in Ids(s'.owns[i]) ensures id !in F {
      if i < |s.owns| - 1 {
        assert s'.owns[i] == s.owns[i];
      }
    }
  }

  /** No event puts anything on the stack except the block that is entered. */
  lemma StacksShrink(up: Parents, s: State, e: Event)
    requires Enabled(up, s, e) && Step(up, s, e).Running?
    ensures var s' := Step(up, s, e).s;
            && (s'.blocks <= s.blocks || (e.Enter? && s'.blocks == s.blocks + [e.id])
                || (e.Call? && s'.blocks == s.blocks + [e.root]))
            && (forall i | 0 <= i < |s.owns| - 1 && i < |s'.owns| :: s'.owns[i] == s.owns[i])
            && |s'.owns| <= |s.owns| + 1
            && (|s'.owns| >= |s.owns| ==>
                  forall id | id in Ids(s'.owns[|s.owns| - 1]) ::
                    id in Ids(Top(s.owns)) || (e.Enter? && id == e.id))
            && (|s'.owns| > |s.owns| ==> e.Call? && Ids(Top(s'.owns)) == [e.root])
  {
    hide Cut, Ids;
    var own := Top(s.owns);
    match e
    case Enter(id) => IdsMore(own, Visit(id));
    case Begin => IdsMore(own, Loop(Current(s.blocks)));
    case End => IdsFewer(own, |own| - 1);
    case Leave => IdsFewer(own, |own| - 1);
    case Catch(n) => IdsFewer(own, n); IdsFewer(own, n + 1); CutPrefix(s.blocks, own[n].id);
    case Call(root) => IdsMore([], Visit(root)); IdsNone(); assert [] + [Visit(root)] == [Visit(root)];
    case Return => CutPrefix(s.blocks, Top(s.callers));
  }

  lemma CutPrefix(blocks: seq<BlockId>, x: BlockId)
    ensures Cut(blocks, x) <= blocks
  {
  }

  lemma IdsNone()
    ensures Ids([]) == []
  {
  }

  lemma IdsMore(own: seq<Mark>, m: Mark)
    ensures Ids(own + [m]) == Ids(own) + (if m.Visit? then [m.id] else [])
  {
    assert Pop(own + [m]) == own;
  }

  lemma {:induction false} IdsFewer(own: seq<Mark>, n: nat)
    requires n <= |own|
    ensures Ids(own[..n]) <= Ids(own)
  {
    if n < |own| {
      IdsFewer(Pop(own), n);
      assert Pop(own)[..n] == own[..n];
    } else {
      assert own[..n] == own;
    }
  }

  // ----- chains of blocks -----

  /** A way from a function body to one of its blocks. */
  ghost predicate Rooted(up: Parents, p: seq<BlockId>) {
    && p != [] && p[0] !in up
    && forall k | 0 < k < |p| :: p[k] in up && up[p[k]] == p[k - 1]
  }

  /** Such ways, or beginnings of them, one after the other, all from the same function body. */
  ghost predicate Linked(up: Parents, r: seq<BlockId>) {
    && r != [] && r[0] !in up
    && forall k | 0 < k < |r| :: LinkedAt(up, r, k)
  }

  ghost predicate LinkedAt(up: Parents, r: seq<BlockId>, k: int)
    requires 0 < k < |r|
  {
    if r[k] in up then r[k - 1] == up[r[k]] else r[k] == r[0]
  }

  /** Every loop began in the block around it. */
  ghost predicate LoopsHome(own: seq<Mark>) {
    forall i | 0 <= i < |own| && own[i].Loop? :: Ids(own[..i]) != [] && own[i].id == Top(Ids(own[..i]))
  }

  /** The segment of an activation in good order: leftovers, then the blocks that are being visited. */
  ghost predicate Region(up: Parents, r: seq<BlockId>, own: seq<Mark>) {
    && Rooted(up, Ids(own)) && LoopsHome(own) && Linked(up, r) && r[0] == Ids(own)[0]
    && Ends(r, Ids(own))
  }

  ghost predicate Ends(r: seq<BlockId>, p: seq<BlockId>) {
    |p| <= |r| && r[|r| - |p|..] == p
  }

  /** All segments are in good order. */
  ghost predicate Sound(up: Parents, s: State, rs: seq<seq<BlockId>>) {
    Held(s, rs) && forall i | 0 <= i < |rs| :: Region(up, rs[i], s.owns[i])
  }

  lemma LinkedPrefix(up: Parents, r: seq<BlockId>, n: nat)
    requires Linked(up, r) && 0 < n <= |r|
    ensures Linked(up, r[..n])
  {
    forall k | 0 < k < n ensures LinkedAt(up, r[..n], k) {
      assert LinkedAt(up, r, k);
    }
  }

  lemma RootedPrefix(up: Parents, p: seq<BlockId>, n: nat)
    requires Rooted(up, p) && 0 < n <= |p|
    ensures Rooted(up, p[..n])
  {
  }

  /** A block is reached by one way only. */
  lemma {:induction false} OneWay(up: Parents, r: seq<BlockId>, p: seq<BlockId>)
    requires Linked(up, r) && Rooted(up, p) && Top(r) == Top(p)
    ensures Ends(r, p) && r[0] == p[0]
  {
    if |p| == 1 {
      assert r[|r| - 1..] == p;
      assert |r| > 1 ==> LinkedAt(up, r, |r| - 1);
    } else {
      assert Top(p) in up && |r| > 1 && LinkedAt(up, r, |r| - 1);
      assert r[|r| - 2] == p[|p| - 2];
      LinkedPrefix(up, r, |r| - 1);
      RootedPrefix(up, p, |p| - 1);
      OneWay(up, Pop(r), Pop(p));
      assert r == Pop(r) + [Top(r)] && p == Pop(p) + [Top(p)];
      assert Pop(r)[|r| - |p|..] == Pop(p);
      assert r[|r| - |p|..] == Pop(r)[|r| - |p|..] + [Top(r)];
    }
  }

  lemma {:induction false} NoBlockTwice(up: Parents, p: seq<BlockId>, i: nat, j: nat)
    requires Rooted(up, p) && i < j < |p|
    ensures p[i] != p[j]
  {
    if i > 0 {
      NoBlockTwice(up, p, i - 1, j - 1);
    }
  }

  /** What is left over by a callee belongs to the caller's region, when it ends with the caller's block. */
  lemma Attached(up: Parents, r: seq<BlockId>, own: seq<Mark>, tail: seq<BlockId>)
    requires Region(up, r, own) && Linked(up, tail) && Top(tail) == Top(Ids(own))
    ensures Region(up, r + tail, own)
  {
    OneWay(up, tail, Ids(own));
    var all := r + tail;
    assert all[|all| - |Ids(own)|..] == tail[|tail| - |Ids(own)|..];
    forall k | 0 < k < |all| ensures LinkedAt(up, all, k) {
      if k > |r| {
        assert LinkedAt(up, tail, k - |r|) && all[k] == tail[k - |r|] && all[k - 1] == tail[k - |r| - 1];
      } else if k == |r| {
        assert all[k] == tail[0];
      } else {
        assert LinkedAt(up, r, k);
      }
    }
  }

  /** A block of another function does not occur in a region. */
  lemma ForeignBlock(up: Parents, r: seq<BlockId>, p: seq<BlockId>)
    requires Linked(up, r) && Rooted(up, p) && Top(p) in r
    ensures r[0] == p[0]
  {
    var k :| 0 <= k < |r| && r[k] == Top(p);
    LinkedPrefix(up, r, k + 1);
    assert Top(r[..k + 1]) == r[k];
    OneWay(up, r[..k + 1], p);
  }

  lemma RegionTop(up: Parents, r: seq<BlockId>, own: seq<Mark>)
    requires Region(up, r, own)
    ensures r != [] && Ids(own) != [] && Top(r) == Top(Ids(own))
  {
    assert Top(r) == r[|r| - |Ids(own)|..][|Ids(own)| - 1];
  }

  // ----- one event in good order -----

  /** A function ends normally, and the block under its body is not the one that called it. */
  predicate EndsOnLeftovers(s: State, e: Event) {
    && e.Leave? && |s.owns| > 1 && |Top(s.owns)| == 1
    && |s.blocks| >= 2 && s.callers != [] && s.blocks[|s.blocks| - 2] != Top(s.callers)
  }

  lemma RegionEnter(up: Parents, r: seq<BlockId>, own: seq<Mark>, id: BlockId)
    requires Region(up, r, own) && id in up && up[id] == Top(Ids(own))
    ensures Region(up, r + [id], own + [Visit(id)])
  {
    var r', own' := r + [id], own + [Visit(id)];
    RegionTop(up, r, own);
    IdsMore(own, Visit(id));
    forall k | 0 < k < |r'| ensures LinkedAt(up, r', k) {
      assert k < |r| ==> LinkedAt(up, r, k);
    }
    forall i | 0 <= i < |own'| && own'[i].Loop? ensures Ids(own'[..i]) != [] && own'[i].id == Top(Ids(own'[..i])) {
      assert own'[..i] == own[..i];
    }
    assert r'[|r'| - |Ids(own')|..] == r[|r| - |Ids(own)|..] + [id];
  }

  lemma RegionBegin(up: Parents, r: seq<BlockId>, own: seq<Mark>)
    requires Region(up, r, own)
    ensures r != [] && Region(up, r, own + [Loop(Top(r))])
  {
    RegionTop(up, r, own);
    var own' := own + [Loop(Top(r))];
    IdsMore(own, Loop(Top(r)));
    forall i | 0 <= i < |own'| && own'[i].Loop? ensures Ids(own'[..i]) != [] && own'[i].id == Top(Ids(own'[..i])) {
      if i < |own| {
        assert own'[..i] == own[..i];
      } else {
        assert own'[..i] == own;
      }
    }
  }

  lemma LoopsFewer(own: seq<Mark>, n: nat)
    requires LoopsHome(own) && n <= |own|
    ensures LoopsHome(own[..n])
  {
    forall i | 0 <= i < n && own[..n][i].Loop? ensures Ids(own[..n][..i]) != []
        && own[..n][i].id == Top(Ids(own[..n][..i])) {
      assert own[..n][..i] == own[..i];
    }
  }

  /** The end of a block or a loop inside an activation. */
  lemma RegionLeave(up: Parents, r: seq<BlockId>, own: seq<Mark>)
    requires Region(up, r, own) && |own| > 1 && own[0].Visit?
    ensures Region(up, if Top(own).Visit? then Pop(r) else r, Pop(own))
  {
    hide Linked, Rooted, LoopsHome, Ids;
    var p := Ids(own);
    IdsMore(Pop(own), Top(own));
    assert Pop(own) + [Top(own)] == own;
    LoopsFewer(own, |own| - 1);
    FirstId(Pop(own));
    if Top(own).Visit? {
      assert Ids(Pop(own)) == p[..|p| - 1] && |p| > 1;
      RootedPrefix(up, p, |p| - 1);
      LinkedPrefix(up, r, |r| - 1);
      assert Pop(r)[|r| - |p|..] == Pop(r[|r| - |p|..]);
    } else {
      assert Ids(Pop(own)) == p;
    }
  }

  lemma {:induction false} FirstId(own: seq<Mark>)
    requires own != [] && own[0].Visit?
    ensures Ids(own) != [] && Ids(own)[0] == own[0].id
  {
    if |own| > 1 {
      FirstId(Pop(own));
    } else {
      assert Pop(own) == [];
    }
  }

  /** Catching an exit cuts the region at a block of the activation. */
  lemma RegionCatch(up: Parents, r: seq<BlockId>, own: seq<Mark>, n: nat)
    requires Region(up, r, own) && n < |own| && own[0].Visit?
    ensures Region(up, Cut(r, own[n].id), Caught(own, n))
  {
    hide Linked, Rooted, Cut, LoopsHome;
    var p := Ids(own[..n + 1]);
    FirstId(own[..n + 1]);
    IdsFewer(own, n + 1);
    CatchingBlock(own, n);
    RootedPrefix(up, Ids(own), |p|);
    assert Ids(own)[..|p|] == p;
    CutRegion(up, r, Ids(own), |p| - 1);
    LoopsFewer(own, n + 1);
    LoopsFewer(own, n);
  }

  /** A loop is caught in the block around it. */
  lemma CatchingBlock(own: seq<Mark>, n: nat)
    requires LoopsHome(own) && n < |own| && own[0].Visit?
    ensures Ids(own[..n + 1]) != [] && own[n].id == Top(Ids(own[..n + 1])) && Ids(Caught(own, n)) == Ids(own[..n + 1])
  {
    assert own[..n + 1] == own[..n] + [own[n]];
    IdsMore(own[..n], own[n]);
  }

  /** In a region the last occurrence of a block in progress is its own place. */
  lemma CutRegion(up: Parents, r: seq<BlockId>, p: seq<BlockId>, n: nat)
    requires Linked(up, r) && Rooted(up, p) && Ends(r, p) && n < |p|
    ensures Linked(up, Cut(r, p[n])) && Ends(Cut(r, p[n]), p[..n + 1]) && Cut(r, p[n])[0] == r[0]
  {
    hide Linked, Rooted, Cut;
    var i := |r| - |p| + n;
    assert r[i] == r[|r| - |p|..][n] == p[n];
    NotAbove(up, r, p, n);
    assert r[..i + 1] + r[i + 1..] == r;
    CutBelow(r[..i + 1], r[i + 1..], p[n]);
    LinkedPrefix(up, r, i + 1);
    assert r[..i + 1][i - n..] == r[|r| - |p|..][..n + 1] == p[..n + 1];
  }

  lemma NotAbove(up: Parents, r: seq<BlockId>, p: seq<BlockId>, n: nat)
    requires Rooted(up, p) && Ends(r, p) && n < |p|
    ensures p[n] !in r[|r| - |p| + n + 1..]
  {
    hide Rooted;
    var i := |r| - |p| + n;
    var above := r[i + 1..];
    forall j | 0 <= j < |above| ensures above[j] != p[n] {
      assert above[j] == r[i + 1 + j] == r[|r| - |p|..][n + 1 + j] == p[n + 1 + j];
      NoBlockTwice(up, p, n, n + 1 + j);
    }
  }

  lemma RegionCalled(up: Parents, root: BlockId)
    requires root !in up
    ensures Region(up, [root], [Visit(root)])
  {
    IdsNone();
    IdsMore([], Visit(root));
    assert [] + [Visit(root)] == [Visit(root)] && [root][0..] == [root];
  }

  /** After a return the caller's region is in order: what is left over ends with the calling block. */
  lemma RegionReturn(up: Parents, r: seq<BlockId>, own: seq<Mark>, callee: seq<BlockId>)
    requires Region(up, r, own) && Linked(up, callee)
    ensures r != [] && Region(up, r + Upto(callee, Top(r)), own)
  {
    hide Linked, Rooted;
    RegionTop(up, r, own);
    var x := Top(r);
    if x in callee {
      LinkedPrefix(up, callee, LastIndex(callee, x) + 1);
      assert Top(Upto(callee, x)) == x;
      Attached(up, r, own, Upto(callee, x));
    } else {
      assert r + [] == r;
    }
  }

  /** After the normal end of a function that does not end on leftovers. */
  lemma RegionFinish(up: Parents, r: seq<BlockId>, own: seq<Mark>, callee: seq<BlockId>)
    requires Region(up, r, own) && Linked(up, callee) && (|callee| > 1 ==> callee[|callee| - 2] == Top(r))
    ensures r != [] && Region(up, r + Pop(callee), own)
  {
    hide Rooted;
    RegionTop(up, r, own);
    if |callee| > 1 {
      LinkedPrefix(up, callee, |callee| - 1);
      Attached(up, r, own, Pop(callee));
    } else {
      assert r + [] == r;
    }
  }

  /** An event that is not the end of a function on leftovers keeps all segments in good order, and no end of
      a block finds the stack unbalanced. */
  lemma StepSound(up: Parents, s: State, rs: seq<seq<BlockId>>, e: Event) returns (s': State)
    requires Sound(up, s, rs) && Enabled(up, s, e) && !EndsOnLeftovers(s, e)
    ensures Step(up, s, e) == Running(s')
    ensures !Over(s, e) ==> rs != [] && Top(rs) != [] && |rs| == |s.owns| && Sound(up, s', Segments(s, rs, e))
  {
    hide Held, Region, Cut, Upto, Ids, Segments;
    NoThrow(up, s, rs, e);
    if Over(s, e) {
      s' := Step(up, s, e).s;
    } else {
      s' := StepHeld(up, s, rs, e);
      StepRegions(up, s, rs, e);
    }
  }

  lemma SoundTop(up: Parents, s: State, rs: seq<seq<BlockId>>)
    requires Sound(up, s, rs)
    ensures rs != [] && |rs| == |s.owns| && s.blocks != [] && Top(rs) != [] && Ids(Top(s.owns)) != []
    ensures Region(up, Top(rs), Top(s.owns)) && Top(s.owns) != [] && Top(s.owns)[0].Visit?
    ensures Top(s.blocks) == Top(Top(rs)) == Top(Ids(Top(s.owns))) && s.blocks == Flat(Pop(rs)) + Top(rs)
    ensures |s.callers| == |s.owns| - 1
    ensures |s.owns| > 1 ==>
              && Region(up, Top(Pop(rs)), Top(Pop(s.owns))) && Top(Pop(rs)) != []
              && Top(s.callers) == Top(Top(Pop(rs)))
  {
    HeldTop(s, rs);
    RegionTop(up, Top(rs), Top(s.owns));
  }

  lemma NoThrow(up: Parents, s: State, rs: seq<seq<BlockId>>, e: Event)
    requires Sound(up, s, rs) && Enabled(up, s, e)
    ensures Step(up, s, e).Running?
  {
    hide Held, Region, Cut;
    SoundTop(up, s, rs);
    if e.Leave? {
      IdsMore(Pop(Top(s.owns)), Top(Top(s.owns)));
      assert Pop(Top(s.owns)) + [Top(Top(s.owns))] == Top(s.owns);
    }
  }

  lemma StepRegions(up: Parents, s: State, rs: seq<seq<BlockId>>, e: Event)
    requires Sound(up, s, rs) && Enabled(up, s, e) && !EndsOnLeftovers(s, e) && Step(up, s, e).Running? && !Over(s, e)
    requires rs != [] && Top(rs) != [] && |rs| == |s.owns|
    ensures |Segments(s, rs, e)| == |Step(up, s, e).s.owns|
    ensures forall i | 0 <= i < |Segments(s, rs, e)| :: Region(up, Segments(s, rs, e)[i], Step(up, s, e).s.owns[i])
  {
    hide Held, Region, Cut, Upto, Ids;
    SoundTop(up, s, rs);
    var s', rs' := Step(up, s, e).s, Segments(s, rs, e);
    assert |rs'| == |s'.owns|;
    TopRegion(up, s, rs, e);
    forall i | 0 <= i < |rs'| ensures Region(up, rs'[i], s'.owns[i]) {
      if i < |rs'| - 1 {
        assert rs'[i] == rs[i] && s'.owns[i] == s.owns[i];
      }
    }
  }

  lemma TopRegion(up: Parents, s: State, rs: seq<seq<BlockId>>, e: Event)
    requires Sound(up, s, rs) && Enabled(up, s, e) && !EndsOnLeftovers(s, e) && Step(up, s, e).Running? && !Over(s, e)
    requires rs != [] && Top(rs) != [] && |rs| == |s.owns|
    ensures Segments(s, rs, e) != [] && Step(up, s, e).s.owns != []
    ensures Region(up, Top(Segments(s, rs, e)), Top(Step(up, s, e).s.owns))
  {
    hide Held, Region, Cut, Upto, Ids;
    SoundTop(up, s, rs);
    var r, own := Top(rs), Top(s.owns);
    match e
    case Enter(id) => RegionEnter(up, r, own, id);
    case Begin => RegionBegin(up, r, own);
    case End => RegionLeave(up, r, own);
    case Leave =>
      if |own| > 1 {
        RegionLeave(up, r, own);
      } else {
        SecondBlock(s, rs);
        RegionFinish(up, Top(Pop(rs)), Top(Pop(s.owns)), r);
      }
    case Catch(n) => RegionCatch(up, r, own, n);
    case Call(root) => RegionCalled(up, root);
    case Return => RegionReturn(up, Top(Pop(rs)), Top(Pop(s.owns)), r);
  }

  lemma SecondBlock(s: State, rs: seq<seq<BlockId>>)
    requires Held(s, rs) && |s.owns| > 1 && |Top(s.owns)| == 1
    ensures |rs| > 1 && Top(rs) != [] && |Top(Pop(rs))| > 0 && s.callers != []
    ensures EndsOnLeftovers(s, Leave) <==> |Top(rs)| > 1 && Top(rs)[|Top(rs)| - 2] != Top(Top(Pop(rs)))
  {
    hide Fits;
    HeldTop(s, rs);
    FlatTwo(rs);
    var r, p := Top(rs), Top(Pop(rs));
    assert s.blocks == Flat(Pop(Pop(rs))) + p + r;
    if |r| > 1 {
      assert s.blocks[|s.blocks| - 2] == r[|r| - 2];
    } else {
      assert s.blocks[|s.blocks| - 2] == p[|p| - 1];
    }
  }

  // ----- runs in good order -----

  /** No function ends on leftovers. */
  ghost predicate Proper(up: Parents, s: State, es: seq<Event>)
    decreases |es|
  {
    es == [] || (!EndsOnLeftovers(s, es[0]) && Enabled(up, s, es[0]) && Step(up, s, es[0]).Running?
                 && Proper(up, Step(up, s, es[0]).s, es[1..]))
  }

  lemma {:induction false} RunsSound(up: Parents, s: State, rs: seq<seq<BlockId>>, es: seq<Event>, n: nat, t: State)
      returns (rt: seq<seq<BlockId>>)
    requires Sound(up, s, rs) && Runs(up, s, es, n, t) && Proper(up, s, es)
    ensures Sound(up, t, rt)
    decreases |es|
  {
    hide Sound, Step, Segments;
    if es == [] {
      rt := rs;
    } else {
      RunsDeep(up, Step(up, s, es[0]).s, es[1..], n, t);
      NotOver(up, s, es[0]);
      var s' := StepSound(up, s, rs, es[0]);
      rt := RunsSound(up, s', Segments(s, rs, es[0]), es[1..], n, t);
    }
  }

  lemma StartSound(up: Parents, chunk: BlockId)
    requires chunk !in up
    ensures Sound(up, Start(chunk), [[chunk]])
  {
    StartHeld(chunk);
    RegionCalled(up, chunk);
  }

  /** As long as no function ends on leftovers, no block finds the stack unbalanced when it ends. */
  lemma NeverUnbalanced(up: Parents, chunk: BlockId, es: seq<Event>, t: State, e: Event)
    requires chunk !in up && Runs(up, Start(chunk), es, 0, t) && Proper(up, Start(chunk), es) && Enabled(up, t, e)
    ensures Step(up, t, e).Running?
    ensures t.blocks != [] && Ids(Top(t.owns)) != [] && Top(t.blocks) == Top(Ids(Top(t.owns)))
  {
    StartSound(up, chunk);
    var rt := RunsSound(up, Start(chunk), [[chunk]], es, 0, t);
    SoundTop(up, t, rt);
    NoThrow(up, t, rt, e);
  }

  /** The end of the caller's block throws, the program's own block included, exactly when the function that
      has ended before it ended on leftovers. */
  lemma UnbalancedExactly(up: Parents, chunk: BlockId, es: seq<Event>, t: State, e: Event, t': State)
    requires chunk !in up && Runs(up, Start(chunk), es, 0, t) && Proper(up, Start(chunk), es)
    requires Enabled(up, t, e) && Step(up, t, e) == Running(t') && Enabled(up, t', Leave)
    ensures Step(up, t', Leave) == Next.Unbalanced <==> EndsOnLeftovers(t, e)
  {
    hide Sound, Runs, Proper, Step, EndsOnLeftovers;
    StartSound(up, chunk);
    var rt := RunsSound(up, Start(chunk), [[chunk]], es, 0, t);
    TopAfter(up, t, rt, e, t');
    LeaveLooks(up, t');
  }

  lemma LeaveLooks(up: Parents, s: State)
    requires Enabled(up, s, Leave)
    ensures Step(up, s, Leave) == Next.Unbalanced <==> s.blocks == [] || Top(s.blocks) != Top(Top(s.owns)).id
  {
  }

  lemma TopAfter(up: Parents, t: State, rt: seq<seq<BlockId>>, e: Event, t': State)
    requires Sound(up, t, rt) && Enabled(up, t, e) && Step(up, t, e) == Running(t') && Enabled(up, t', Leave)
    ensures t'.blocks == [] || Top(t'.blocks) != Top(Top(t'.owns)).id <==> EndsOnLeftovers(t, e)
  {
    hide Region, Flat, Cut, Ids, Held;
    if EndsOnLeftovers(t, e) {
      SoundTop(up, t, rt);
      RegionTop(up, Top(Pop(rt)), Top(Pop(t.owns)));
      InnermostId(Top(t'.owns));
      assert Top(t'.blocks) == t.blocks[|t.blocks| - 2];
    } else {
      NotOver(up, t, e);
      var s' := StepSound(up, t, rt, e);
      SoundTop(up, t', Segments(t, rt, e));
      InnermostId(Top(t'.owns));
    }
  }

  lemma InnermostId(own: seq<Mark>)
    requires own != [] && Top(own).Visit?
    ensures Ids(own) != [] && Top(Ids(own)) == Top(own).id
  {
  }

  // ----- leftovers -----

  /** The number of blocks that have been left over in a segment. */
  function Leftovers(r: seq<BlockId>, own: seq<Mark>): int {
    |r| - |Ids(own)|
  }

  /** Activation number `i` has nothing but its own blocks on the stack. */
  ghost predicate Clean(s: State, rs: seq<seq<BlockId>>, i: nat)
    requires i < |rs| && i < |s.owns|
  {
    Leftovers(rs[i], s.owns[i]) == 0
  }

  /** When leftovers arise: a caller has some after a return exactly if it had some before or its block was
      still on the stack above it, and after a normal end exactly if it had some before or the callee ended
      with some.  A called function starts without, and no other event changes this. */
  lemma LeftoversArise(up: Parents, s: State, rs: seq<seq<BlockId>>, e: Event, s': State)
    requires Sound(up, s, rs) && Enabled(up, s, e) && !EndsOnLeftovers(s, e) && Step(up, s, e) == Running(s')
    requires !Over(s, e)
    ensures rs != [] && Top(rs) != [] && |rs| == |s.owns| && Sound(up, s', Segments(s, rs, e))
    ensures var rs' := Segments(s, rs, e);
            var now := Clean(s', rs', |rs'| - 1);
            match e
            case Return => now <==> Clean(s, rs, |rs| - 2) && Top(s.callers) !in Top(rs)
            case Call(_) => now
            case Leave =>
              if |Top(s.owns)| > 1 then now <==> Clean(s, rs, |rs| - 1)
              else now <==> Clean(s, rs, |rs| - 2) && Clean(s, rs, |rs| - 1)
            case _ => now <==> Clean(s, rs, |rs| - 1)
  {
    hide Sound, Cut, Ids, Upto, Leftovers;
    SoundTop(up, s, rs);
    SoundRegions(up, s, rs);
    var s'' := StepSound(up, s, rs, e);
    var r, own := Top(rs), Top(s.owns);
    match e
    case Return =>
      ReturnSize(up, Top(Pop(rs)), Top(Pop(s.owns)), r, Top(s.callers));
    case Call(root) =>
      CallSize(root);
    case Leave =>
      if |own| > 1 {
        LeaveSize(own, r);
      } else {
        FinishSize(up, Top(Pop(rs)), Top(Pop(s.owns)), r, own);
      }
    case Catch(n) =>
      CatchSize(up, r, own, n);
    case Enter(id) =>
      EnterSize(own, r, Visit(id));
    case Begin =>
      EnterSize(own, r, Loop(Current(s.blocks)));
    case End =>
      LeaveSize(own, r);
  }

  lemma SoundRegions(up: Parents, s: State, rs: seq<seq<BlockId>>)
    requires Sound(up, s, rs)
    ensures |rs| == |s.owns| && forall i | 0 <= i < |rs| :: Region(up, rs[i], s.owns[i])
  {
  }

  lemma ReturnSize(up: Parents, p: seq<BlockId>, own: seq<Mark>, r: seq<BlockId>, x: BlockId)
    requires Region(up, p, own)
    ensures Leftovers(p + Upto(r, x), own) == 0 <==> Leftovers(p, own) == 0 && x !in r
  {
    hide Linked, Rooted, LoopsHome, Ids;
  }

  lemma CallSize(root: BlockId)
    ensures Leftovers([root], [Visit(root)]) == 0
  {
    OneId([Visit(root)]);
  }

  lemma EnterSize(own: seq<Mark>, r: seq<BlockId>, m: Mark)
    ensures Leftovers(if m.Visit? then r + [m.id] else r, own + [m]) == Leftovers(r, own)
  {
    hide Ids;
    IdsMore(own, m);
  }

  lemma LeaveSize(own: seq<Mark>, r: seq<BlockId>)
    requires own != [] && r != []
    ensures Leftovers(if Top(own).Visit? then Pop(r) else r, Pop(own)) == Leftovers(r, own)
  {
  }

  lemma FinishSize(up: Parents, p: seq<BlockId>, caller: seq<Mark>, r: seq<BlockId>, own: seq<Mark>)
    requires Region(up, p, caller) && r != [] && |own| == 1 && own[0].Visit?
    ensures Leftovers(p + Pop(r), caller) == 0 <==> Leftovers(p, caller) == 0 && Leftovers(r, own) == 0
  {
    hide Linked, Rooted, LoopsHome, Ids;
    OneId(own);
  }

  lemma CatchSize(up: Parents, r: seq<BlockId>, own: seq<Mark>, n: nat)
    requires Region(up, r, own) && n < |own| && own[0].Visit?
    ensures Leftovers(Cut(r, own[n].id), Caught(own, n)) == Leftovers(r, own)
  {
    hide Linked, Rooted, Cut, LoopsHome, Ids;
    var p := Ids(own[..n + 1]);
    FirstId(own[..n + 1]);
    IdsFewer(own, n + 1);
    CatchingBlock(own, n);
    var i := |r| - |Ids(own)| + |p| - 1;
    assert Ids(own)[..|p|] == p && r[i] == r[|r| - |Ids(own)|..][|p| - 1] == p[|p| - 1];
    NotAbove(up, r, Ids(own), |p| - 1);
    assert r[..i + 1] + r[i + 1..] == r;
    CutBelow(r[..i + 1], r[i + 1..], own[n].id);
  }

  /** A function called by another one ends on leftovers exactly when it has any. */
  lemma OtherFunctionSeesLeftovers(up: Parents, s: State, rs: seq<seq<BlockId>>)
    requires Sound(up, s, rs) && |s.owns| > 1 && |Top(s.owns)| == 1
    requires Ids(Top(s.owns)) != [] && Ids(Top(Pop(s.owns))) != [] && Ids(Top(s.owns))[0] != Ids(Top(Pop(s.owns)))[0]
    ensures |rs| == |s.owns| && (EndsOnLeftovers(s, Leave) <==> !Clean(s, rs, |rs| - 1))
  {
    hide Held, Region, Ids, EndsOnLeftovers;
    SoundTop(up, s, rs);
    SecondBlock(s, rs);
    OneId(Top(s.owns));
    OtherBlock(up, Top(rs), Top(s.owns), Top(Pop(rs)), Top(Pop(s.owns)));
  }

  lemma OneId(own: seq<Mark>)
    requires |own| == 1 && own[0].Visit?
    ensures |Ids(own)| == 1
  {
    assert Pop(own) == [];
  }

  /** The region of a callee has no block of a caller that is another function. */
  lemma OtherBlock(up: Parents, r: seq<BlockId>, own: seq<Mark>, p: seq<BlockId>, caller: seq<Mark>)
    requires Region(up, r, own) && Region(up, p, caller) && Ids(own)[0] != Ids(caller)[0]
    ensures p != [] && Top(p) !in r
  {
    hide Linked, Rooted, LoopsHome, Ids;
    RegionTop(up, p, caller);
    if Top(p) in r {
      ForeignBlock(up, r, Ids(caller));
    }
  }

  // ----- two programs -----

  ghost predicate Goes(up: Parents, s: State, e: Event, s': State) {
    Enabled(up, s, e) && Step(up, s, e) == Running(s')
  }

  lemma GoesEnter(up: Parents, blocks: seq<BlockId>, below: seq<seq<Mark>>, own: seq<Mark>, callers: seq<BlockId>,
                  id: BlockId)
    requires own != [] && own[0].Visit? && Top(own).Visit? && id in up && up[id] == Top(own).id
    ensures Goes(up, State(blocks, below + [own], callers), Enter(id),
                 State(blocks + [id], below + [own + [Visit(id)]], callers))
  {
    assert Pop(below + [own]) == below;
  }

  lemma GoesLeave(up: Parents, blocks: seq<BlockId>, below: seq<seq<Mark>>, own: seq<Mark>, callers: seq<BlockId>,
                  id: BlockId)
    requires own != [] && own[0].Visit?
    ensures Goes(up, State(blocks + [id], below + [own + [Visit(id)]], callers), Leave,
                 State(blocks, below + [own], callers))
  {
    assert Pop(below + [own + [Visit(id)]]) == below && Pop(own + [Visit(id)]) == own && Pop(blocks + [id]) == blocks;
  }

  lemma GoesCall(up: Parents, blocks: seq<BlockId>, owns: seq<seq<Mark>>, callers: seq<BlockId>, root: BlockId)
    requires owns != [] && Top(owns) != [] && Top(owns)[0].Visit? && root !in up && blocks != []
    ensures Goes(up, State(blocks, owns, callers), Call(root),
                 State(blocks + [root], owns + [[Visit(root)]], callers + [Top(blocks)]))
  {
  }

  lemma GoesHome(up: Parents, blocks: seq<BlockId>, owns: seq<seq<Mark>>, callers: seq<BlockId>, x: BlockId,
      root: BlockId)
    requires owns != []
    ensures Goes(up, State(blocks + [root], owns + [[Visit(root)]], callers + [x]), Leave, State(blocks, owns, callers))
  {
    assert Pop(owns + [[Visit(root)]]) == owns && Pop(callers + [x]) == callers && Pop(blocks + [root]) == blocks;
  }

  lemma GoesReturn(up: Parents, a: seq<BlockId>, above: seq<BlockId>, owns: seq<seq<Mark>>, own: seq<Mark>,
                   callers: seq<BlockId>, x: BlockId)
    requires owns != [] && own != [] && own[0].Visit? && x !in above
    ensures Goes(up, State(a + [x] + above, owns + [own], callers + [x]), Event.Return, State(a + [x], owns, callers))
  {
    assert Pop(owns + [own]) == owns && Pop(callers + [x]) == callers;
    CutBelow(a + [x], above, x);
  }

  lemma RunsMore(up: Parents, s: State, e: Event, s': State, es: seq<Event>, n: nat, t: State)
    requires Goes(up, s, e, s') && |s.owns| > n && Runs(up, s', es, n, t)
    ensures Runs(up, s, [e] + es, n, t)
  {
    assert ([e] + es)[1..] == es;
  }

  /** Function 1 is `function f(n) if n then return end; f(true) end`, with block 2 for the `if`, and is called by
      the program, block 0.  The inner call returns from block 2 and leaves block 1 behind, the outer call ends
      on it, and the end of the program finds the stack unbalanced. */
  lemma SelfCallUnbalances(up: Parents)
    requires up == map[2 := 1]
    ensures var p, f := [Visit(0)], [Visit(1)];
      && Goes(up, Start(0), Call(1), State([0, 1], [p, f], [0]))
      && Goes(up, State([0, 1], [p, f], [0]), Call(1), State([0, 1, 1], [p, f, f], [0, 1]))
      && Goes(up, State([0, 1, 1], [p, f, f], [0, 1]), Enter(2), State([0, 1, 1, 2], [p, f, f + [Visit(2)]], [0, 1]))
      && Goes(up, State([0, 1, 1, 2], [p, f, f + [Visit(2)]], [0, 1]), Event.Return, State([0, 1, 1], [p, f], [0]))
      && Goes(up, State([0, 1, 1], [p, f], [0]), Leave, State([0, 1], [p], []))
      && EndsOnLeftovers(State([0, 1, 1], [p, f], [0]), Leave)
      && Enabled(up, State([0, 1], [p], []), Leave) && Step(up, State([0, 1], [p], []), Leave) == Next.Unbalanced
  {
    hide Goes;
    var p, f := [Visit(0)], [Visit(1)];
    assert [0] + [1] == [0, 1] && [p] + [f] == [p, f] && [] + [0] == [0];
    GoesCall(up, [0], [p], [], 1);
    assert [0, 1] + [1] == [0, 1, 1] && [p, f] + [f] == [p, f, f] && [0] + [1] == [0, 1];
    GoesCall(up, [0, 1], [p, f], [0], 1);
    assert [0, 1, 1] + [2] == [0, 1, 1, 2] && [p, f] + [f + [Visit(2)]] == [p, f, f + [Visit(2)]];
    GoesEnter(up, [0, 1, 1], [p, f], f, [0, 1], 2);
    assert [0, 1] + [1] + [2] == [0, 1, 1, 2];
    GoesReturn(up, [0, 1], [2], [p, f], f + [Visit(2)], [0], 1);
    GoesHome(up, [0, 1], [p], [], 0, 1);
  }

  /** What is open when function 10, with block 11, calls function 1, with block 2, from block 11, and what is
      open when function 1 calls from block 2. */
  function Outer(): seq<Mark> {
    [Visit(10), Visit(11)]
  }

  function Inner(): seq<Mark> {
    [Visit(1), Visit(2)]
  }

  /** Function 10 calls function 1 from block 11, which calls function 10 from block 2, which calls function 1
      again.  That call calls itself from block 2, the innermost call returns, and its caller ends on leftovers.
      Then function 10 returns, and the outer function 1 returns: the caller's block is on the stack twice. */
  lemma ReenteredCaller(up: Parents, s: State, es: seq<Event>, t: State)
    requires up == map[2 := 1, 11 := 10]
    requires s == State([0, 10, 11], [[Visit(0)], Outer()], [0])
    requires es == [Enter(2), Call(10), Enter(11), Call(1), Enter(2), Call(1), Enter(2), Event.Return, Leave, Leave,
                    Event.Return]
    requires t == State([0, 10, 11, 1, 2, 10, 11, 1, 2], [[Visit(0)], Outer(), Inner()], [0, 11])
    ensures Runs(up, Start(0), [Call(10), Enter(11)], 0, s)
    ensures Enabled(up, s, Call(1)) && Step(up, s, Call(1)).Running? && Runs(up, Step(up, s, Call(1)).s, es, 2, t)
    ensures Enabled(up, t, Event.Return)
    ensures Step(up, t, Event.Return) == Running(State([0, 10, 11, 1, 2, 10, 11], s.owns, s.callers))
  {
    hide Runs, Goes, Cut;
    ReenterStart(up, s);
    var o := [[Visit(0)], Outer()];
    var s1 := State([0, 10, 11, 1], o + [[Visit(1)]], [0, 11]);
    assert [0, 10, 11] + [1] == s1.blocks && [0] + [11] == [0, 11];
    GoesCall(up, [0, 10, 11], o, [0], 1);
    assert o + [Inner()] == t.owns;
    ReenterFirst(up, s1, es, t, o);
    assert [0, 10, 11, 1, 2, 10] + [11] + [1, 2] == t.blocks && [0] + [11] == t.callers;
    GoesReturn(up, [0, 10, 11, 1, 2, 10], [1, 2], o, Inner(), [0], 11);
    GoesMeans(up, s, Call(1), s1);
    GoesMeans(up, t, Event.Return, State([0, 10, 11, 1, 2, 10] + [11], o, [0]));
  }

  lemma GoesMeans(up: Parents, s: State, e: Event, s': State)
    requires Goes(up, s, e, s')
    ensures Enabled(up, s, e) && Step(up, s, e) == Running(s')
  {
  }

  lemma ReenterStart(up: Parents, s: State)
    requires up == map[2 := 1, 11 := 10] && s == State([0, 10, 11], [[Visit(0)], Outer()], [0])
    ensures Runs(up, Start(0), [Call(10), Enter(11)], 0, s)
  {
    hide Goes;
    var a := State([0, 10], [[Visit(0)]] + [[Visit(10)]], [0]);
    assert [0] + [10] == a.blocks && [] + [0] == [0];
    GoesCall(up, [0], [[Visit(0)]], [], 10);
    assert [0, 10] + [11] == s.blocks && [Visit(10)] + [Visit(11)] == Outer() && [[Visit(0)]] + [Outer()] == s.owns;
    GoesEnter(up, [0, 10], [[Visit(0)]], [Visit(10)], [0], 11);
    RunsMore(up, a, Enter(11), s, [], 0, s);
    RunsMore(up, Start(0), Call(10), a, [Enter(11)], 0, s);
    assert [Enter(11)] + [] == [Enter(11)] && [Call(10)] + [Enter(11)] == [Call(10), Enter(11)];
  }

  /** The calls inwards. */
  lemma ReenterFirst(up: Parents, s1: State, es: seq<Event>, t: State, o: seq<seq<Mark>>)
    requires up == map[2 := 1, 11 := 10] && o == [[Visit(0)], Outer()]
    requires s1 == State([0, 10, 11, 1], o + [[Visit(1)]], [0, 11])
    requires es == [Enter(2), Call(10), Enter(11), Call(1), Enter(2), Call(1), Enter(2), Event.Return, Leave, Leave,
                    Event.Return]
    requires t == State([0, 10, 11, 1, 2, 10, 11, 1, 2], o + [Inner()], [0, 11])
    ensures Runs(up, s1, es, 2, t)
  {
    hide Goes, Runs;
    var o2, o3 := o + [Inner()], o + [Inner()] + [Outer()];
    var a := State([0, 10, 11, 1, 2], o2, [0, 11]);
    var b := State([0, 10, 11, 1, 2, 10], o2 + [[Visit(10)]], [0, 11, 2]);
    var c := State([0, 10, 11, 1, 2, 10, 11], o3, [0, 11, 2]);
    var d := State([0, 10, 11, 1, 2, 10, 11, 1], o3 + [[Visit(1)]], [0, 11, 2, 11]);
    assert [Visit(1)] + [Visit(2)] == Inner() && [Visit(10)] + [Visit(11)] == Outer();
    assert s1.blocks + [2] == a.blocks && a.blocks + [10] == b.blocks && b.blocks + [11] == c.blocks;
    assert c.blocks + [1] == d.blocks && [0, 11] + [2] == b.callers && c.callers + [11] == d.callers;
    GoesEnter(up, s1.blocks, o, [Visit(1)], [0, 11], 2);
    GoesCall(up, a.blocks, o2, [0, 11], 10);
    GoesEnter(up, b.blocks, o2, [Visit(10)], [0, 11, 2], 11);
    GoesCall(up, c.blocks, o3, [0, 11, 2], 1);
    var rest := es[4..];
    ReenterLast(up, d, rest, t, o2, o3);
    RunsMore(up, c, Call(1), d, rest, 2, t);
    RunsMore(up, b, Enter(11), c, [Call(1)] + rest, 2, t);
    RunsMore(up, a, Call(10), b, [Enter(11)] + ([Call(1)] + rest), 2, t);
    RunsMore(up, s1, Enter(2), a, [Call(10)] + ([Enter(11)] + ([Call(1)] + rest)), 2, t);
    assert [Enter(2)] + ([Call(10)] + ([Enter(11)] + ([Call(1)] + rest))) == es;
  }

  /** The self-call, and the ends outwards. */
  lemma ReenterLast(up: Parents, d: State, es: seq<Event>, t: State, o2: seq<seq<Mark>>, o3: seq<seq<Mark>>)
    requires up == map[2 := 1, 11 := 10] && |o2| == 3 && o3 == o2 + [Outer()]
    requires d == State([0, 10, 11, 1, 2, 10, 11, 1], o3 + [[Visit(1)]], [0, 11, 2, 11])
    requires es == [Enter(2), Call(1), Enter(2), Event.Return, Leave, Leave, Event.Return]
    requires t == State([0, 10, 11, 1, 2, 10, 11, 1, 2], o2, [0, 11])
    ensures Runs(up, d, es, 2, t)
  {
    hide Goes, Runs;
    var o4 := o3 + [Inner()];
    var e := State(d.blocks + [2], o4, d.callers);
    var f := State(e.blocks + [1], o4 + [[Visit(1)]], d.callers + [2]);
    var g := State(f.blocks + [2], o4 + [Inner()], d.callers + [2]);
    var i := State(f.blocks, o3 + [[Visit(1)]], d.callers);
    var j := State(e.blocks, o3, [0, 11, 2]);
    assert [Visit(1)] + [Visit(2)] == Inner() && [0, 11, 2] + [11] == d.callers && [0, 11] + [2] == [0, 11, 2];
    GoesEnter(up, d.blocks, o3, [Visit(1)], d.callers, 2);
    GoesCall(up, e.blocks, o4, d.callers, 1);
    GoesEnter(up, f.blocks, o4, [Visit(1)], d.callers + [2], 2);
    assert g.blocks + [] == g.blocks;
    GoesReturn(up, f.blocks, [], o4, Inner(), d.callers, 2);
    GoesLeave(up, f.blocks, o3, [Visit(1)], d.callers, 2);
    GoesHome(up, e.blocks, o3, [0, 11, 2], 11, 1);
    assert e.blocks == d.blocks + [2] + [] && e.blocks == t.blocks;
    GoesReturn(up, d.blocks, [], o2, Outer(), [0, 11], 2);
    var h := State(g.blocks, o4, d.callers);
    RunsMore(up, j, Event.Return, t, [], 2, t);
    RunsMore(up, i, Leave, j, [Event.Return] + [], 2, t);
    RunsMore(up, h, Leave, i, [Leave] + ([Event.Return] + []), 2, t);
    RunsMore(up, g, Event.Return, h, [Leave] + ([Leave] + ([Event.Return] + [])), 2, t);
    assert [Event.Return] + ([Leave] + ([Leave] + ([Event.Return] + []))) == es[3..];
    RunsMore(up, f, Enter(2), g, es[3..], 2, t);
    assert [Enter(2)] + es[3..] == es[2..] && [Call(1)] + es[2..] == es[1..];
    RunsMore(up, e, Call(1), f, es[2..], 2, t);
    RunsMore(up, d, Enter(2), e, es[1..], 2, t);
    assert [es[0]] + es[1..] == es;
  }
}
