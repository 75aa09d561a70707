/** What holds of the fragments of every accepted plan. */
module FragmentProperties {
  import opened Basics
  import opened FragmentModel
  import opened FragmentTheorems

  // ----- ids -----

  function Range(a: nat, n: nat): seq<nat>
    decreases n
  {
    if n == 0 then [] else [a] + Range(a + 1, n - 1)
  }

  lemma {:induction false} RangeAppend(a: nat, n: nat, m: nat)
    ensures Range(a, n + m) == Range(a, n) + Range(a + n, m)
    decreases n
  {
    if n > 0 { RangeAppend(a + 1, n - 1, m); }
  }

  /** The ids of a fragment tree, parents before their children. */
  function Ids(f: Fragment): seq<nat> {
    [f.id] + IdsAll(f.children)
  }

  function IdsAll(fs: seq<Fragment>): seq<nat> {
    if fs == [] then [] else Ids(fs[0]) + IdsAll(fs[1..])
  }

  /** Strictly increasing ids from `a` up to but not including `b`. */
  ghost predicate Within(s: seq<nat>, a: nat, b: nat) {
    && (forall i :: 0 <= i < |s| ==> a <= s[i] < b)
    && (forall i, j :: 0 <= i < j < |s| ==> s[i] < s[j])
  }

  lemma WithinAppend(s: seq<nat>, t: seq<nat>, a: nat, b: nat, c: nat)
    requires Within(s, a, b) && Within(t, b, c) && a <= b <= c
    ensures Within(s + t, a, c)
  {
  }

  /** Every fragment has a larger id than its parent and the fragments before it. */
  lemma {:induction false} IdsIncrease(p: Plan, id: nat, sink: SinkType)
    ensures Within(Ids(Cut(p, id, sink)), id, id + Size(p))
    decreases Weight(p), 0
  {
    AllIdsIncrease(Below(p), id + 1, ChildSink(p));
    assert Below(p) == [] || Below(p) == Drawn(p);
    WithinAppend([id], IdsAll(Cut(p, id, sink).children), id, id + 1, id + Size(p));
  }

  lemma {:induction false} AllIdsIncrease(ps: seq<Plan>, next: nat, sink: SinkType)
    ensures Within(IdsAll(CutAll(ps, next, sink)), next, next + SizeAll(ps))
    decreases WeightAll(ps), 1
  {
    if ps != [] {
      var n := next + Size(ps[0]);
      IdsIncrease(ps[0], next, sink);
      AllIdsIncrease(ps[1..], n, sink);
      IdsCons(Cut(ps[0], next, sink), CutAll(ps[1..], n, sink));
      WithinAppend(Ids(Cut(ps[0], next, sink)), IdsAll(CutAll(ps[1..], n, sink)), next, n, next + SizeAll(ps));
    }
  }

  lemma CutCons(ps: seq<Plan>, next: nat, sink: SinkType)
    requires ps != []
    ensures CutAll(ps, next, sink) == [Cut(ps[0], next, sink)] + CutAll(ps[1..], next + Size(ps[0]), sink)
  {
  }

  lemma IdsCons(f: Fragment, fs: seq<Fragment>)
    ensures IdsAll([f] + fs) == Ids(f) + IdsAll(fs)
  {
    assert ([f] + fs)[1..] == fs;
  }

  /** No fragments are built for their text only. */
  predicate KeepsAll(p: Plan)
    decreases Weight(p), 0
  {
    !(Explains(p) && Bottom(p).node.explain == ByFragment) && AllKeep(Below(p))
  }

  predicate AllKeep(ps: seq<Plan>)
    decreases WeightAll(ps), 1
  {
    ps == [] || (KeepsAll(ps[0]) && AllKeep(ps[1..]))
  }

  lemma {:induction false} IdCount(p: Plan, id: nat, sink: SinkType)
    requires Accepts(p)
    ensures |Ids(Cut(p, id, sink))| <= Size(p)
    ensures |Ids(Cut(p, id, sink))| == Size(p) <==> KeepsAll(p)
    decreases Weight(p), 0
  {
    BottomAccepted(p);
    BelowOrDrawn(p);
    AllIdCount(Below(p), id + 1, ChildSink(p));
  }

  lemma {:induction false} AllIdCount(ps: seq<Plan>, next: nat, sink: SinkType)
    requires AllAccepted(ps)
    ensures |IdsAll(CutAll(ps, next, sink))| <= SizeAll(ps)
    ensures |IdsAll(CutAll(ps, next, sink))| == SizeAll(ps) <==> AllKeep(ps)
    decreases WeightAll(ps), 1
  {
    if ps != [] {
      IdCount(ps[0], next, sink);
      AllIdCount(ps[1..], next + Size(ps[0]), sink);
      CutCons(ps, next, sink);
      IdsCons(Cut(ps[0], next, sink), CutAll(ps[1..], next + Size(ps[0]), sink));
    }
  }

  /** Only EXPLAIN FRAGMENT draws ids that are not in the tree. */
  lemma BelowOrDrawn(p: Plan)
    requires Accepts(p)
    ensures if Explains(p) && Bottom(p).node.explain == ByFragment then Below(p) == [] && SizeAll(Drawn(p)) > 0
            else Below(p) == Drawn(p)
  {
    BottomAccepted(p);
    PathEnds(p);
    var b := Bottom(p);
    if b.node.Rule() == ExplainRule && Builds(b.node.explain) { assert Drawn(p) == [b.left.value]; }
  }

  lemma {:induction false} RangeLength(a: nat, n: nat)
    ensures |Range(a, n)| == n
    decreases n
  {
    if n > 0 { RangeLength(a + 1, n - 1); }
  }

  lemma {:induction false} FullIsRange(s: seq<nat>, a: nat)
    requires Within(s, a, a + |s|)
    ensures s == Range(a, |s|)
  {
    if s != [] {
      FirstOfFull(s, a, |s| - 1);
      var t := s[1..];
      assert forall i :: 0 <= i < |t| ==> s[0] < t[i];
      FullIsRange(t, a + 1);
    }
  }

  lemma {:induction false} FirstOfFull(s: seq<nat>, a: nat, k: nat)
    requires k < |s| && Within(s, a, a + |s|)
    ensures s[0] + k <= s[k]
    ensures k == |s| - 1 ==> s[0] == a
  {
    if k > 0 { FirstOfFull(s, a, k - 1); }
  }

  /** The ids of a tree number it consecutively, parents first, exactly when no EXPLAIN
      FRAGMENT has drawn ids for fragments that it does not keep. */
  lemma IdsAreConsecutiveIff(p: Plan, id: nat, sink: SinkType)
    requires Accepts(p)
    ensures Ids(Cut(p, id, sink)) == Range(id, Size(p)) <==> KeepsAll(p)
  {
    IdsIncrease(p, id, sink);
    IdCount(p, id, sink);
    RangeLength(id, Size(p));
    if KeepsAll(p) { FullIsRange(Ids(Cut(p, id, sink)), id); }
  }

  // ----- the type -----

  /** The type of a fragment, over the operators of its path: that of the topmost Aggregate,
      Top, Sort, Update or Delete if there is one, otherwise that of the last operator. */
  lemma {:induction false} TypeIsTopmost(path: seq<Node>, j: nat)
    requires |path| > 0 && j <= |path|
    requires forall i :: 0 <= i < j ==> LateType(path[i].op).None?
    requires j < |path| ==> LateType(path[j].op).Some?
    ensures TypeOf(path) == if j < |path| then LateType(path[j].op).value else BottomType(path[|path| - 1])
    decreases |path|
  {
    if j > 0 && |path| > 1 { TypeIsTopmost(path[1..], j - 1); }
  }

  // ----- sources and sinks -----

  /** A fragment reads what its last operator declares and sends what its first one
      declares; it sends to the queue of its parent, or the result if it is a root; it
      reads a queue only if it has children to fill it.  An Explain declares no input. */
  predicate Connected(f: Fragment, root: bool) {
    && |f.ops| > 0
    && f.sink == Some(End(if root then ToResult else ToQueue, f.ops[0].id))
    && var last := f.ops[|f.ops| - 1];
    && f.source.Some? && (last.Rule() != ExplainRule ==> f.source.value.schema == last.id)
    && (f.source.value.kind == FromQueue ==> f.children != [])
    && (f.children != [] ==> f.source.value.kind == FromQueue || last.Rule() == CompactPrepare)
    && forall c :: c in f.children ==> Connected(c, false)
  }

  lemma {:induction false} PathEnds(p: Plan)
    ensures Path(p)[0] == p.node && Path(p)[|Path(p)| - 1] == Bottom(p).node && Drawn(p) == Inputs(Bottom(p))
  {
    if Follows(p) { PathEnds(p.left.value); }
  }

  lemma {:induction false} BottomAccepted(p: Plan)
    requires Accepts(p)
    ensures InputsFit(Bottom(p)) && AllAccepted(Drawn(p)) && AllAccepted(Below(p))
  {
    if Follows(p) { BottomAccepted(p.left.value); }
  }

  /** The only Explain is the last operator of the root fragment, and it is not a PIPELINE. */
  predicate Joined(p: Plan, root: bool)
    decreases Weight(p), 0
  {
    (Explains(p) ==> root && Bottom(p).node.explain != Pipeline) && AllJoined(Below(p))
  }

  predicate AllJoined(ps: seq<Plan>)
    decreases WeightAll(ps), 1
  {
    ps == [] || (Joined(ps[0], false) && AllJoined(ps[1..]))
  }

  /** Every fragment has its source and its sink exactly when no fragment but the root ends
      in an Explain and the root in no EXPLAIN PIPELINE. */
  lemma {:induction false} CutIsConnectedIff(p: Plan, id: nat, sink: SinkType)
    requires Accepts(p)
    ensures Connected(Cut(p, id, sink), sink == ToResult) <==> Joined(p, sink == ToResult)
    decreases Weight(p), 0
  {
    PathEnds(p);
    BottomAccepted(p);
    if Explains(p) {
      ExplainedIsConnectedIff(p, id, sink);
    } else {
      AllConnectedIff(Below(p), id + 1);
      SourceHasChildren(p);
      ChildCount(Below(p), id + 1, ToQueue);
    }
  }

  lemma ExplainedIsConnectedIff(p: Plan, id: nat, sink: SinkType)
    requires Accepts(p) && Explains(p)
    ensures Connected(Cut(p, id, sink), sink == ToResult) <==> Joined(p, sink == ToResult)
  {
    PathEnds(p);
    BottomAccepted(p);
    ExplainedChildren(p, id, sink);
    if Bottom(p).node.explain == Pipeline {
      var c := Cut(Bottom(p).left.value, id + 1, ToResult);
      assert c in Cut(p, id, sink).children && c.sink.value.kind == ToResult;
    }
  }

  lemma ExplainedChildren(p: Plan, id: nat, sink: SinkType)
    requires Explains(p) && InputsFit(Bottom(p))
    ensures var b := Bottom(p);
            Cut(p, id, sink).children
            == if b.node.explain == Pipeline then [Cut(b.left.value, id + 1, ToResult)] else []
  {
    PathEnds(p);
    var b := Bottom(p);
    assert Cut(p, id, sink).children == CutAll(Below(p), id + 1, ToResult);
    if b.node.explain == Pipeline {
      assert Below(p) == [b.left.value];
      OneCut(b.left.value, id + 1, ToResult);
    }
  }

  lemma OneCut(p: Plan, next: nat, sink: SinkType)
    ensures CutAll([p], next, sink) == [Cut(p, next, sink)]
  {
    var ps := [p];
    assert ps[1..] == [];
    assert CutAll(ps, next, sink) == [Cut(ps[0], next, sink)] + CutAll(ps[1..], next + Size(ps[0]), sink);
  }

  /** A queue source has inputs to fill it. */
  lemma SourceHasChildren(p: Plan)
    requires !Explains(p) && InputsFit(Bottom(p))
    ensures SourceOf(Bottom(p).node).kind == FromQueue ==> Below(p) != []
    ensures Below(p) != [] ==> SourceOf(Bottom(p).node).kind == FromQueue || Bottom(p).node.Rule() == CompactPrepare
  {
    PathEnds(p);
    var b := Bottom(p);
    if b.left.Some? { assert LeftRight(b)[0] == b.left.value; }
  }

  lemma {:induction false} ChildCount(ps: seq<Plan>, next: nat, sink: SinkType)
    ensures |CutAll(ps, next, sink)| == |ps|
    decreases |ps|
  {
    if ps != [] { ChildCount(ps[1..], next + Size(ps[0]), sink); }
  }

  /** The same of what BuildFragment returns. */
  lemma BuiltIsConnectedIff(p: Plan, next: nat)
    ensures BuildRoot(p, next).Built? <==> Accepts(p)
    ensures BuildRoot(p, next).Built? ==> (Connected(BuildRoot(p, next).frag, true) <==> Joined(p, true))
  {
    RootIsCut(p, next);
    if Accepts(p) { CutIsConnectedIff(p, next, ToResult); }
  }

  lemma {:induction false} AllConnectedIff(ps: seq<Plan>, next: nat)
    requires AllAccepted(ps)
    ensures (forall c :: c in CutAll(ps, next, ToQueue) ==> Connected(c, false)) <==> AllJoined(ps)
    decreases WeightAll(ps), 1
  {
    if ps != [] {
      CutIsConnectedIff(ps[0], next, ToQueue);
      AllConnectedIff(ps[1..], next + Size(ps[0]));
      var c, rest := Cut(ps[0], next, ToQueue), CutAll(ps[1..], next + Size(ps[0]), ToQueue);
      var all := CutAll(ps, next, ToQueue);
      assert all == [c] + rest;
      assert forall x :: x in all <==> x == c || x in rest;
    }
  }

  // ----- nothing is lost -----

  function First(ps: seq<Plan>, i: nat): Option<Plan> {
    if i < |ps| then Some(ps[i]) else None
  }

  /** An operator with its inputs in the order left, right, others. */
  function Arranged(n: Node, ps: seq<Plan>): Plan {
    Plan(n, First(ps, 0), First(ps, 1), if |ps| > 2 then ps[2..] else [])
  }

  /** The plan that a fragment tree stands for: each operator feeds the one before it, and
      the children feed the last one. */
  function Rebuild(f: Fragment): Plan
    decreases f, 1
  {
    Chain(f.ops, RebuildAll(f.children))
  }

  function RebuildAll(fs: seq<Fragment>): seq<Plan>
    decreases fs, 0
  {
    if fs == [] then [] else [Rebuild(fs[0])] + RebuildAll(fs[1..])
  }

  function Chain(ops: seq<Node>, inputs: seq<Plan>): Plan {
    if |ops| == 0 then Arranged(Node(Invalid, 0, 0, Ast), inputs)
    else if |ops| == 1 then Arranged(ops[0], inputs)
    else Plan(ops[0], Some(Chain(ops[1..], inputs)), None, [])
  }

  /** No operator has an input that the builder ignores or takes for another one. */
  predicate Regular(p: Plan)
    decreases Weight(p), 0
  {
    InputsWeighLess(p);
    if Follows(p) then p.right.None? && p.others == [] && Regular(p.left.value)
    else
      && NothingIgnored(p)
      && AllRegular(Below(p))
  }

  /** The last operator of a fragment has no input besides those that become fragments, and
      keeps those. */
  predicate NothingIgnored(p: Plan) {
    && (if p.node.Rule() == FusionRule then p.others != [] ==> p.right.Some? else p.others == [])
    && (p.node.Rule() == Project || p.node.Rule() == ExplainRule ==> p.right.None?)
    && (p.node.Rule() == ExplainRule && p.node.explain != Pipeline ==> p.left.None?)
  }

  predicate AllRegular(ps: seq<Plan>)
    decreases WeightAll(ps), 1
  {
    ps == [] || (Regular(ps[0]) && AllRegular(ps[1..]))
  }

  /** What can be rebuilt of a plan. */
  function Canon(p: Plan): Plan
    decreases Weight(p), 0
  {
    InputsWeighLess(p);
    if Follows(p) then Plan(p.node, Some(Canon(p.left.value)), None, [])
    else Arranged(p.node, CanonAll(Below(p)))
  }

  function CanonAll(ps: seq<Plan>): (r: seq<Plan>)
    ensures |r| == |ps|
    decreases WeightAll(ps), 1
  {
    if ps == [] then [] else [Canon(ps[0])] + CanonAll(ps[1..])
  }

  lemma {:induction false} RebuildIsCanon(p: Plan, id: nat, sink: SinkType)
    ensures Rebuild(Cut(p, id, sink)) == Canon(p)
    decreases Weight(p), 0
  {
    RebuildAllIsCanon(Below(p), id + 1, ChildSink(p));
    PathEnds(p);
    ChainIsCanon(p);
  }

  lemma {:induction false} RebuildAllIsCanon(ps: seq<Plan>, next: nat, sink: SinkType)
    ensures RebuildAll(CutAll(ps, next, sink)) == CanonAll(ps)
    decreases WeightAll(ps), 1
  {
    if ps != [] {
      RebuildIsCanon(ps[0], next, sink);
      RebuildAllIsCanon(ps[1..], next + Size(ps[0]), sink);
      var fs := CutAll(ps, next, sink);
      assert fs[0] == Cut(ps[0], next, sink) && fs[1..] == CutAll(ps[1..], next + Size(ps[0]), sink);
    }
  }

  lemma {:induction false} ChainIsCanon(p: Plan)
    ensures Chain(Path(p), CanonAll(Below(p))) == Canon(p)
  {
    if Follows(p) {
      ChainIsCanon(p.left.value);
      assert Path(p)[1..] == Path(p.left.value);
    }
  }

  lemma {:induction false} CanonFixesRegular(p: Plan)
    requires Accepts(p)
    ensures Canon(p) == p <==> Regular(p)
    decreases Weight(p), 0
  {
    InputsWeighLess(p);
    if Follows(p) {
      CanonFixesRegular(p.left.value);
    } else {
      BottomAccepted(p);
      AllCanonFixesRegular(Below(p));
      ArrangedInputs(p, CanonAll(Below(p)));
    }
  }

  lemma {:induction false} AllCanonFixesRegular(ps: seq<Plan>)
    requires AllAccepted(ps)
    ensures CanonAll(ps) == ps <==> AllRegular(ps)
    decreases WeightAll(ps), 1
  {
    if ps != [] {
      CanonFixesRegular(ps[0]);
      AllCanonFixesRegular(ps[1..]);
      assert CanonAll(ps)[0] == Canon(ps[0]) && CanonAll(ps)[1..] == CanonAll(ps[1..]);
    }
  }

  /** Putting inputs back in their places gives the operator exactly when they are its own
      and it has no others. */
  lemma ArrangedInputs(p: Plan, cs: seq<Plan>)
    requires !Follows(p) && InputsFit(p) && |cs| == |Below(p)|
    ensures Arranged(p.node, cs) == p <==> cs == Below(p) && NothingIgnored(p)
  {
    var ps := Below(p);
    if p.left.Some? && ps != [] { assert ps[0] == p.left.value; }
    if p.left.Some? && p.right.Some? && |ps| > 1 { assert ps[1] == p.right.value; }
    if p.node.Rule() == FusionRule && p.right.Some? { assert ps[2..] == p.others; }
  }

  /** Cutting is lossless exactly for the regular plans: the fragments determine the plan. */
  lemma LosslessIff(p: Plan, next: nat)
    ensures BuildRoot(p, next).Built? <==> Accepts(p)
    ensures BuildRoot(p, next).Built? ==> (Rebuild(BuildRoot(p, next).frag) == p <==> Regular(p))
  {
    RootIsCut(p, next);
    RebuildIsCanon(p, next, ToResult);
    if Accepts(p) { CanonFixesRegular(p); }
  }

  /** A Filter with a right input is accepted, and the input is lost. */
  lemma IgnoredInput(next: nat)
    ensures var scan := Plan(Node(TableScan, 1, 1, Ast), None, None, []);
            var p := Plan(Node(Filter, 0, 1, Ast), Some(scan), Some(scan), []);
            BuildRoot(p, next).Built? && Rebuild(BuildRoot(p, next).frag) != p
  {
    var scan := Plan(Node(TableScan, 1, 1, Ast), None, None, []);
    var p := Plan(Node(Filter, 0, 1, Ast), Some(scan), Some(scan), []);
    assert Accepts(scan) && Follows(p) && !Regular(p);
    LosslessIff(p, next);
  }

  /** The explained plan is lost, except by PIPELINE. */
  lemma ExplainedIsLostIff(p: Plan, next: nat)
    requires p.node.op == Explain && p.left.Some? && p.right.None? && p.others == [] && Regular(p.left.value)
    ensures BuildRoot(p, next).Built? ==> (Rebuild(BuildRoot(p, next).frag) == p <==> p.node.explain == Pipeline)
  {
    LosslessIff(p, next);
    ExplainIsRegularIff(p);
  }

  lemma ExplainIsRegularIff(p: Plan)
    requires p.node.op == Explain && p.left.Some? && p.right.None? && p.others == [] && Regular(p.left.value)
    ensures Regular(p) <==> p.node.explain == Pipeline
  {
    assert !Follows(p) && (Regular(p) <==> NothingIgnored(p) && AllRegular(Below(p)));
    var ps := [p.left.value];
    assert ps[1..] == [] && AllRegular(ps);
    if p.node.explain == Pipeline { assert Below(p) == ps; }
  }

  // ----- every operator once -----

  /** The operators of a plan, an operator before its inputs. */
  function PlanNodes(p: Plan): seq<Node>
    decreases Weight(p), 0
  {
    InputsWeighLess(p);
    [p.node] + PlanNodesAll(LeftRight(p) + p.others)
  }

  function PlanNodesAll(ps: seq<Plan>): seq<Node>
    decreases WeightAll(ps), 1
  {
    if ps == [] then [] else PlanNodes(ps[0]) + PlanNodesAll(ps[1..])
  }

  function FragmentNodes(f: Fragment): seq<Node>
    decreases f, 1
  {
    f.ops + FragmentNodesAll(f.children)
  }

  function FragmentNodesAll(fs: seq<Fragment>): seq<Node>
    decreases fs, 0
  {
    if fs == [] then [] else FragmentNodes(fs[0]) + FragmentNodesAll(fs[1..])
  }

  /** Every input is looked at and kept. */
  predicate UsesAll(p: Plan)
    decreases Weight(p), 0
  {
    if Follows(p) then p.right.None? && p.others == [] && UsesAll(p.left.value)
    else Below(p) == LeftRight(p) + p.others && AllUse(Below(p))
  }

  predicate AllUse(ps: seq<Plan>)
    decreases WeightAll(ps), 1
  {
    ps == [] || (UsesAll(ps[0]) && AllUse(ps[1..]))
  }

  lemma {:induction false} NodesAppend(a: seq<Plan>, b: seq<Plan>)
    ensures PlanNodesAll(a + b) == PlanNodesAll(a) + PlanNodesAll(b)
    decreases |a|
  {
    if a == [] {
      assert a + b == b;
    } else {
      assert (a + b)[1..] == a[1..] + b;
      NodesAppend(a[1..], b);
      Associative(PlanNodes(a[0]), PlanNodesAll(a[1..]), PlanNodesAll(b));
    }
  }

  lemma FragmentNodesCons(f: Fragment, fs: seq<Fragment>)
    ensures FragmentNodesAll([f] + fs) == FragmentNodes(f) + FragmentNodesAll(fs)
  {
    assert ([f] + fs)[1..] == fs;
  }

  /** All operators of a plan, or fewer. */
  ghost predicate Holds(nodes: seq<Node>, plan: seq<Node>, all: bool) {
    if all then nodes == plan else |nodes| < |plan|
  }

  /** The fragments of a plan hold its operators, each once and in order, exactly when every
      input is looked at and kept; otherwise they hold fewer. */
  lemma {:induction false} EveryOperatorOnceIff(p: Plan, id: nat, sink: SinkType)
    requires Accepts(p)
    ensures Holds(FragmentNodes(Cut(p, id, sink)), PlanNodes(p), UsesAll(p))
    ensures FragmentNodes(Cut(p, id, sink)) == PlanNodes(p) <==> UsesAll(p)
    decreases Weight(p), 1
  {
    PathHolds(p, id + 1, ChildSink(p));
  }

  /** Walks down the path of the top fragment. */
  lemma {:induction false} PathHolds(p: Plan, next: nat, sink: SinkType)
    requires Accepts(p)
    ensures Holds(Path(p) + FragmentNodesAll(CutAll(Below(p), next, sink)), PlanNodes(p), UsesAll(p))
    decreases Weight(p), 0
  {
    if Follows(p) {
      var kept := FragmentNodesAll(CutAll(Below(p), next, sink));
      PathHolds(p.left.value, next, sink);
      Associative([p.node], Path(p.left.value), kept);
      FollowingNodes(p);
    } else {
      BottomAccepted(p);
      InputsHold(Below(p), next, sink);
      KeptNodes(p);
    }
  }

  /** The operators of an operator that follows: its own, those of its left input, and others
      if it has further inputs. */
  lemma FollowingNodes(p: Plan)
    requires p.left.Some?
    ensures if p.right.None? && p.others == [] then PlanNodes(p) == [p.node] + PlanNodes(p.left.value)
            else |PlanNodes(p)| > 1 + |PlanNodes(p.left.value)|
  {
    var l, r := [p.left.value], Maybe(p.right);
    assert l[1..] == [] && PlanNodesAll(l) == PlanNodes(p.left.value) + PlanNodesAll(l[1..]);
    NodesAppend(l, r);
    NodesAppend(l + r, p.others);
    if p.right.Some? { SomeNodes(r); } else { assert l + r == l; }
    if p.others != [] { SomeNodes(p.others); } else { assert l + r + p.others == l + r; }
  }

  lemma SomeNodes(ps: seq<Plan>)
    requires ps != []
    ensures |PlanNodesAll(ps)| > 0
  {
    assert PlanNodes(ps[0])[0] == ps[0].node;
  }

  /** The inputs that are kept are a part of all inputs. */
  lemma KeptNodes(p: Plan)
    requires !Follows(p) && InputsFit(p)
    ensures Below(p) == LeftRight(p) + p.others ==> PlanNodes(p) == [p.node] + PlanNodesAll(Below(p))
    ensures Below(p) != LeftRight(p) + p.others ==> |PlanNodes(p)| > 1 + |PlanNodesAll(Below(p))|
  {
    var all := LeftRight(p) + p.others;
    if Below(p) != all {
      var rest := all[|Below(p)|..];
      KeptIsPrefix(p);
      assert all == Below(p) + rest;
      NodesAppend(Below(p), rest);
      SomeNodes(rest);
    }
  }

  lemma KeptIsPrefix(p: Plan)
    requires !Follows(p) && InputsFit(p)
    ensures Below(p) <= LeftRight(p) + p.others
  {
    PathEnds(p);
    if p.node.Rule() == ExplainRule { assert Maybe(p.left) <= LeftRight(p); }
  }

  lemma {:induction false} InputsHold(ps: seq<Plan>, next: nat, sink: SinkType)
    requires AllAccepted(ps)
    ensures Holds(FragmentNodesAll(CutAll(ps, next, sink)), PlanNodesAll(ps), AllUse(ps))
    decreases WeightAll(ps), 2
  {
    if ps != [] {
      EveryOperatorOnceIff(ps[0], next, sink);
      InputsHold(ps[1..], next + Size(ps[0]), sink);
      CutCons(ps, next, sink);
      FragmentNodesCons(Cut(ps[0], next, sink), CutAll(ps[1..], next + Size(ps[0]), sink));
    }
  }

  /** The same of what BuildFragment returns. */
  lemma BuiltHoldsAllIff(p: Plan, next: nat)
    requires Accepts(p)
    ensures BuildRoot(p, next).Built?
    ensures FragmentNodes(BuildRoot(p, next).frag) == PlanNodes(p) <==> UsesAll(p)
  {
    RootIsCut(p, next);
    EveryOperatorOnceIff(p, next, ToResult);
  }
}
