/** What the fragments of a plan are, and what cutting preserves. */
module FragmentTheorems {
  import opened Basics
  import opened FragmentModel

  // ----- closed form -----

  /** The operator stays in the fragment of its left input. */
  predicate Follows(p: Plan) {
    && p.left.Some?
    && (match p.node.Rule()
        case After(_) => true
        case Before => true
        case Project => true
        case FusionRule => p.left.value.node.Rule() == FusionRule
        case _ => false)
  }

  /** The operators of the top fragment, top down. */
  function Path(p: Plan): (r: seq<Node>)
    ensures |r| > 0
  {
    if Follows(p) then [p.node] + Path(p.left.value) else [p.node]
  }

  /** The plan below and including the last operator of the top fragment. */
  function Bottom(p: Plan): (r: Plan)
    ensures !Follows(r)
  {
    if Follows(p) then Bottom(p.left.value) else p
  }

  /** The explain types that build the fragments of the explained plan. */
  predicate Builds(t: ExplainType) {
    t == ByFragment || t == Pipeline
  }

  /** The plans for which the last operator has new fragments built. */
  function Inputs(p: Plan): seq<Plan> {
    match p.node.Rule()
    case ExplainRule => if Builds(p.node.explain) then Maybe(p.left) else []
    case Merge | IndexStep(_) | CompactPrepare | CompactEnd => LeftRight(p)
    case FusionRule => LeftRight(p) + p.others
    case _ => []
  }

  /** The type that an operator sets after its input has been built. */
  function LateType(op: OpType): Option<FragmentType> {
    match op
    case Aggregate | Top => Some(ParallelMaterialize)
    case Sort | Update | Delete => Some(SerialMaterialize)
    case _ => None
  }

  /** The type that the last operator of a fragment sets. */
  function BottomType(n: Node): FragmentType {
    match n.op
    case MatchSparseScan | MatchTensorScan | KnnScan =>
      if n.tasklets == 1 then SerialMaterialize else ParallelMaterialize
    case TableScan | IndexScan => ParallelStream
    case CreateIndexDo | CompactIndexDo | Compact => ParallelMaterialize
    case _ => SerialMaterialize
  }

  /** The type of the topmost Aggregate, Top, Sort, Update or Delete on the path if there is
      one, otherwise the type that the last operator sets. */
  function TypeOf(path: seq<Node>): FragmentType
    requires |path| > 0
  {
    if LateType(path[0].op).Some? then LateType(path[0].op).value
    else if |path| == 1 then BottomType(path[0])
    else TypeOf(path[1..])
  }

  function SourceOf(n: Node): End<SourceType> {
    End(match n.Rule()
        case MatchRule | ScanByTasklets | StreamScan => FromTable
        case FusionRule | Merge | IndexStep(_) | CompactEnd => FromQueue
        case _ => FromEmpty,
        n.id)
  }

  /** The plans for which fragments are built below the top fragment of `p`. */
  function Drawn(p: Plan): (r: seq<Plan>)
    ensures WeightAll(r) < Weight(p)
  {
    if Follows(p) then Drawn(p.left.value)
    else
      InputsWeighLess(p);
      Inputs(p)
  }

  /** The last operator of the top fragment is an Explain. */
  predicate Explains(p: Plan) {
    Bottom(p).node.Rule() == ExplainRule
  }

  /** The plans whose fragments become the children of the top fragment: EXPLAIN FRAGMENT has
      fragments built only for their text. */
  function Below(p: Plan): (r: seq<Plan>)
    ensures WeightAll(r) < Weight(p)
  {
    if Explains(p) && Bottom(p).node.explain != Pipeline then [] else Drawn(p)
  }

  /** Where the children send: an explained plan is built as a root of its own. */
  function ChildSink(p: Plan): SinkType {
    if Explains(p) then ToResult else ToQueue
  }

  /** The source of the top fragment.  Explain sets none; a root then gets an empty one. */
  function SourceFor(p: Plan, sink: SinkType): Option<End<SourceType>> {
    if !Explains(p) then Some(SourceOf(Bottom(p).node))
    else if sink == ToResult then Some(End(FromEmpty, p.node.id))
    else None
  }

  /** The number of ids that `p` uses up. */
  function Size(p: Plan): (r: nat)
    ensures r > 0
    decreases Weight(p), 0
  {
    1 + SizeAll(Drawn(p))
  }

  function SizeAll(ps: seq<Plan>): nat
    decreases WeightAll(ps), 1
  {
    if ps == [] then 0 else Size(ps[0]) + SizeAll(ps[1..])
  }

  /** The fragment that starts at the top of `p`, numbered from `id` on. */
  function Cut(p: Plan, id: nat, sink: SinkType): Fragment
    decreases Weight(p), 0
  {
    Fragment(id, Path(p), TypeOf(Path(p)), SourceFor(p, sink), Some(End(sink, p.node.id)),
             CutAll(Below(p), id + 1, ChildSink(p)))
  }

  function CutAll(ps: seq<Plan>, next: nat, sink: SinkType): seq<Fragment>
    decreases WeightAll(ps), 1
  {
    if ps == [] then [] else [Cut(ps[0], next, sink)] + CutAll(ps[1..], next + Size(ps[0]), sink)
  }

  // ----- which plans are accepted -----

  /** No operator of an unsupported type, and every one with the inputs it demands, in the
      explained plans as well. */
  predicate Accepts(p: Plan)
    decreases Weight(p), 0
  {
    InputsWeighLess(p);
    if Follows(p) then
      (p.node.Rule() == FusionRule ==> p.right.None?) && Accepts(p.left.value)
    else
      InputsFit(p) && AllAccepted(Inputs(p))
  }

  predicate AllAccepted(ps: seq<Plan>)
    decreases WeightAll(ps), 1
  {
    ps == [] || (Accepts(ps[0]) && AllAccepted(ps[1..]))
  }

  /** The last operator of a fragment has the inputs that its case demands. */
  predicate InputsFit(p: Plan) {
    match p.node.Rule()
    case Refused | After(_) | Before => false
    case ExplainRule =>
      p.node.explain != Analyze && p.node.explain != InvalidExplain && (Builds(p.node.explain) ==> p.left.Some?)
    case Statement | MatchRule | ScanByTasklets | StreamScan | CompactLeaf => p.left.None? && p.right.None?
    case Project => true
    case FusionRule | Merge | CompactEnd => p.left.Some?
    case IndexStep(_) => p.left.Some? && p.right.None?
    case CompactPrepare => p.right.None?
  }

  // ----- the builder computes the closed form -----

  /** What the builder adds to fragment `f` for plan `p`. */
  function Extended(p: Plan, f: Fragment, next: nat): Fragment {
    f.(ops := f.ops + Path(p), ftype := TypeOf(Path(p)), source := SourceFor(p, ToQueue),
       children := f.children + CutAll(Below(p), next, ChildSink(p)))
  }

  ghost predicate BuildsCut(p: Plan, f: Fragment, next: nat)
    requires f.source.None?
  {
    Build(p, f, next) == if Accepts(p) then Built(Extended(p, f, next), next + SizeAll(Drawn(p))) else Failed
  }

  ghost predicate RootBuildsCut(p: Plan, next: nat) {
    BuildRoot(p, next) == if Accepts(p) then Built(Cut(p, next, ToResult), next + Size(p)) else Failed
  }

  /** An operator that stays with its left input: what was set before the recursion is
      overwritten, what is set after it remains. */
  lemma FollowExtends(p: Plan, f: Fragment, t: FragmentType, next: nat)
    requires Follows(p)
    ensures Extended(p, f, next)
            == Extended(p.left.value, AddOp(SetType(f, t), p.node), next).(ftype := TypeOf(Path(p)))
    ensures TypeOf(Path(p)) == if p.node.Rule().After? then p.node.Rule().t else TypeOf(Path(p.left.value))
  {
    LateIsAfter(p.node.op);
    assert Path(p)[1..] == Path(p.left.value);
    assert f.ops + Path(p) == f.ops + [p.node] + Path(p.left.value);
  }

  lemma StopExtends(p: Plan, f: Fragment, next: nat)
    requires !Follows(p) && p.node.Rule() != ExplainRule
    ensures Extended(p, f, next)
            == AddOp(f, p.node).(ftype := TypeOf([p.node]), source := Some(SourceOf(p.node)),
                children := f.children + CutAll(Inputs(p), next, ToQueue))
    ensures !p.node.Rule().After? ==> TypeOf([p.node]) == RuleType(p.node)
  {
    LateIsAfter(p.node.op);
    if !p.node.Rule().After? { BottomByRule(p.node); }
  }

  /** The operator types against the cases of the switch. */
  lemma LateIsAfter(op: OpType)
    ensures LateType(op) == if RuleOf(op).After? then Some(RuleOf(op).t) else None
  {
  }

  function RuleType(n: Node): FragmentType {
    match n.Rule()
    case ScanByTasklets => if n.tasklets == 1 then SerialMaterialize else ParallelMaterialize
    case StreamScan => ParallelStream
    case IndexStep(t) => t
    case CompactLeaf => ParallelMaterialize
    case _ => SerialMaterialize
  }

  lemma BottomByRule(n: Node)
    requires !n.Rule().After?
    ensures BottomType(n) == RuleType(n)
  {
  }

  lemma {:induction false} BuildIsCut(p: Plan, f: Fragment, next: nat)
    requires f.source.None?
    ensures BuildsCut(p, f, next)
    decreases Weight(p), 0
  {
    if Follows(p) {
      BuildIsCut(p.left.value, AddOp(SetType(f, EarlyType(p, f)), p.node), next);
      FollowIsCut(p, f, next);
    } else if p.node.Rule() == ExplainRule {
      if p.left.Some? { RootIsCut(p.left.value, next); }
      ExplainIsCut(p, f, next);
    } else {
      InputsWeighLess(p);
      AllAreCut(Inputs(p), Stopped(p, f), next);
      StopIsCut(p, f, next);
    }
  }

  /** The type while the left input of a following operator is built. */
  function EarlyType(p: Plan, f: Fragment): FragmentType {
    if p.node.Rule().Before? then ParallelMaterialize else if p.node.Rule().Project? then ParallelStream else f.ftype
  }

  lemma FollowIsCut(p: Plan, f: Fragment, next: nat)
    requires f.source.None? && Follows(p) && BuildsCut(p.left.value, AddOp(SetType(f, EarlyType(p, f)), p.node), next)
    ensures BuildsCut(p, f, next)
  {
    FollowExtends(p, f, EarlyType(p, f), next);
  }

  /** The fragment when its last operator has been added. */
  function Stopped(p: Plan, f: Fragment): Fragment {
    AddOp(f, p.node).(ftype := TypeOf([p.node]), source := Some(SourceOf(p.node)))
  }

  lemma StopIsCut(p: Plan, f: Fragment, next: nat)
    requires f.source.None? && !Follows(p) && p.node.Rule() != ExplainRule
    requires BuildAll(Inputs(p), Stopped(p, f), next) == Attach(Stopped(p, f), Inputs(p), next)
    ensures BuildsCut(p, f, next)
  {
    StopExtends(p, f, next);
  }

  lemma ExplainIsCut(p: Plan, f: Fragment, next: nat)
    requires f.source.None? && p.node.Rule() == ExplainRule && (p.left.Some? ==> RootBuildsCut(p.left.value, next))
    ensures BuildsCut(p, f, next)
  {
    ExplainInputs(p, next);
    ExplainExtends(p, f, next);
    ExplainAccepted(p);
    var g := SetType(f, SerialMaterialize);
    assert Build(p, f, next) == BuildExplain(p, g, next);
    assert f.children + [] == f.children;
    if p.left.Some? {
      var l := p.left.value;
      ExplainBuilds(p, g, next, Accepts(l), Cut(l, next, ToResult), next + Size(l));
    }
    ExplainAlone(p, g, next);
  }

  /** An Explain that builds nothing, or has nothing to build. */
  lemma ExplainAlone(p: Plan, g: Fragment, next: nat)
    ensures Builds(p.node.explain) && p.left.None? ==> BuildExplain(p, g, next) == Failed
    ensures !Builds(p.node.explain) ==>
              BuildExplain(p, g, next)
              == if p.node.explain == Analyze || p.node.explain == InvalidExplain then Failed
                 else Built(AddOp(g, p.node), next)
  {
  }

  lemma ExplainAccepted(p: Plan)
    requires p.node.Rule() == ExplainRule
    ensures Accepts(p) <==> InputsFit(p) && AllAccepted(Drawn(p))
  {
  }

  /** An Explain of a plan for which BuildFragment gives `c`, or fails. */
  lemma ExplainBuilds(p: Plan, g: Fragment, next: nat, ok: bool, c: Fragment, n: nat)
    requires p.left.Some? && BuildRoot(p.left.value, next) == if ok then Built(c, n) else Failed
    ensures Builds(p.node.explain) ==>
              BuildExplain(p, g, next)
              == if !ok then Failed
                 else Built(if p.node.explain == Pipeline then AddChild(AddOp(g, p.node), c) else AddOp(g, p.node), n)
  {
    assert BuildExplained(p, next) == BuildRoot(p.left.value, next);
  }

  lemma ExplainExtends(p: Plan, f: Fragment, next: nat)
    requires f.source.None? && p.node.Rule() == ExplainRule
    ensures Extended(p, f, next)
            == AddOp(SetType(f, SerialMaterialize), p.node).(children := f.children + CutAll(Below(p), next, ToResult))
  {
    LateIsAfter(p.node.op);
    BottomByRule(p.node);
    assert Path(p) == [p.node];
  }

  /** What an Explain has built, and what it keeps. */
  lemma ExplainInputs(p: Plan, next: nat)
    requires p.node.Rule() == ExplainRule
    ensures Builds(p.node.explain) && p.left.Some? ==>
              && AllAccepted(Drawn(p)) == Accepts(p.left.value) && SizeAll(Drawn(p)) == Size(p.left.value)
    ensures p.node.explain == Pipeline && p.left.Some? ==>
              CutAll(Below(p), next, ToResult) == [Cut(p.left.value, next, ToResult)]
    ensures !Builds(p.node.explain) || p.left.None? ==> Drawn(p) == []
    ensures p.node.explain != Pipeline ==> CutAll(Below(p), next, ToResult) == []
  {
    if p.left.Some? { assert Maybe(p.left)[1..] == []; }
  }

  function Attach(f: Fragment, ps: seq<Plan>, next: nat): Result {
    if AllAccepted(ps) then Built(f.(children := f.children + CutAll(ps, next, ToQueue)), next + SizeAll(ps))
    else Failed
  }

  lemma {:induction false} NewIsCut(p: Plan, next: nat)
    ensures Build(p, NewFragment(next, ToQueue, p.node.id), next + 1)
            == if Accepts(p) then Built(Cut(p, next, ToQueue), next + Size(p)) else Failed
    decreases Weight(p), 1
  {
    BuildIsCut(p, NewFragment(next, ToQueue, p.node.id), next + 1);
    ExtendedIsCut(p, next, ToQueue);
  }

  /** BuildFragment gives the closed form, or an exception exactly for the plans that are not
      accepted. */
  lemma {:induction false} RootIsCut(p: Plan, next: nat)
    ensures RootBuildsCut(p, next)
    decreases Weight(p), 1
  {
    var e := Extended(p, NewFragment(next, ToResult, p.node.id), next + 1);
    BuildIsCut(p, NewFragment(next, ToResult, p.node.id), next + 1);
    ExtendedIsCut(p, next, ToResult);
    SizeIs(p);
    RootFrom(p, next, Accepts(p), e, Cut(p, next, ToResult), next + 1 + SizeAll(Drawn(p)));
  }

  lemma SizeIs(p: Plan)
    ensures Size(p) == 1 + SizeAll(Drawn(p))
  {
  }

  /** BuildFragment from BuildFragments: a root without a source gets an empty one. */
  lemma RootFrom(p: Plan, next: nat, ok: bool, e: Fragment, c: Fragment, n: nat)
    requires Build(p, NewFragment(next, ToResult, p.node.id), next + 1) == if ok then Built(e, n) else Failed
    requires e.source == SourceFor(p, ToQueue) && c == e.(source := SourceFor(p, ToResult))
    ensures BuildRoot(p, next) == if ok then Built(c, n) else Failed
  {
  }

  lemma AttachCons(ps: seq<Plan>, f: Fragment, next: nat)
    requires ps != [] && Accepts(ps[0])
    ensures Attach(AddChild(f, Cut(ps[0], next, ToQueue)), ps[1..], next + Size(ps[0])) == Attach(f, ps, next)
  {
    var c, rest := Cut(ps[0], next, ToQueue), CutAll(ps[1..], next + Size(ps[0]), ToQueue);
    assert CutAll(ps, next, ToQueue) == [c] + rest;
    assert f.children + [c] + rest == f.children + ([c] + rest);
  }

  lemma BuildAllCons(ps: seq<Plan>, f: Fragment, next: nat)
    requires ps != []
    ensures BuildAll(ps, f, next)
            == if Accepts(ps[0]) then BuildAll(ps[1..], AddChild(f, Cut(ps[0], next, ToQueue)), next + Size(ps[0]))
               else Failed
    decreases WeightAll(ps), 2
  {
    NewIsCut(ps[0], next);
  }

  lemma {:induction false} AllAreCut(ps: seq<Plan>, f: Fragment, next: nat)
    ensures BuildAll(ps, f, next) == Attach(f, ps, next)
    decreases WeightAll(ps), 3
  {
    if ps == [] {
      assert f.children + [] == f.children;
    } else {
      BuildAllCons(ps, f, next);
      if Accepts(ps[0]) {
        AllAreCut(ps[1..], AddChild(f, Cut(ps[0], next, ToQueue)), next + Size(ps[0]));
        AttachCons(ps, f, next);
      }
    }
  }

  lemma ExtendedIsCut(p: Plan, next: nat, sink: SinkType)
    ensures Extended(p, NewFragment(next, sink, p.node.id), next + 1).(source := SourceFor(p, sink))
            == Cut(p, next, sink)
  {
    assert [] + Path(p) == Path(p);
    var c := CutAll(Below(p), next + 1, ChildSink(p));
    assert [] + c == c;
  }
}
