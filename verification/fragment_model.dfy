/** Cutting a physical plan into fragments: src/executor/fragment_builder.cpp.
    `Build` follows the recursive updates of the source; `Cut` says in closed form what the
    fragments are. */
module FragmentModel {
  import opened Basics

  datatype OpType =
    | Invalid | Aggregate | MergeAggregate | ParallelAggregate | MergeParallelAggregate | UnionAll | Intersect | Except
    | TableScan | Filter | Unnest | UnnestAggregate | IndexScan | DummyScan | KnnScan | MergeKnn | MatchTensorScan
    | MergeMatchTensor | MatchSparseScan | MergeMatchSparse | Match | Fusion | Hash | MergeHash | JoinHash
    | JoinNestedLoop | JoinMerge | JoinIndex | CrossProduct | Limit | MergeLimit | Top | MergeTop | Projection | Sort
    | MergeSort | Delete | Update | Insert | Import | Export | Alter | CreateTable | CreateCollection | CreateDatabase
    | CreateView | DropTable | DropIndex | DropCollection | DropDatabase | DropView | CreateIndexPrepare | CreateIndexDo
    | CreateIndexFinish | Explain | PreparedPlan | Show | Flush | Optimize | Command | Compact | CompactIndexPrepare
    | CompactIndexDo | CompactFinish | ReadCache | Sink | Source

  datatype ExplainType = Analyze | Ast | UnOpt | Opt | Physical | ByFragment | Pipeline | InvalidExplain

  /** An operator without its inputs: its type, its id, TaskletCount() and, of an Explain, the
      explain type. */
  datatype Node = Node(op: OpType, id: nat, tasklets: nat, explain: ExplainType) {
    /** The case of the switch it falls under. */
    function Rule(): Rule { RuleOf(op) }
  }

  datatype Plan = Plan(node: Node, left: Option<Plan>, right: Option<Plan>, others: seq<Plan>)

  datatype FragmentType = SerialMaterialize | ParallelMaterialize | ParallelStream

  datatype SourceType = FromTable | FromQueue | FromEmpty

  datatype SinkType = ToQueue | ToResult

  /** A source or a sink with the operator whose output names and types it carries. */
  datatype End<+K> = End(kind: K, schema: nat)

  datatype Fragment = Fragment(id: nat, ops: seq<Node>, ftype: FragmentType,
                               source: Option<End<SourceType>>, sink: Option<End<SinkType>>, children: seq<Fragment>)

  /** The cases of the switch in BuildFragments. */
  datatype Rule =
    | Refused
    | ExplainRule
    | Statement              // a leaf without table input
    | After(t: FragmentType) // one input; sets the type after the recursion
    | Before                 // one input; sets ParallelMaterialize before the recursion
    | FusionRule
    | Merge
    | MatchRule
    | ScanByTasklets
    | StreamScan
    | Project
    | IndexStep(t: FragmentType)
    | CompactLeaf
    | CompactPrepare
    | CompactEnd

  /** Which operator type falls under which case. */
  function RuleOf(op: OpType): Rule {
    match op
    case Explain => ExplainRule
    case Command | Alter | CreateTable | CreateCollection | CreateDatabase | CreateView | DropTable | DropIndex
       | DropCollection | DropDatabase | DropView | PreparedPlan | Show | Flush | Optimize | Insert | Import | Export
       | ReadCache | CreateIndexPrepare => Statement
    case Aggregate | Top => After(ParallelMaterialize)
    case Update | Delete | Sort => After(SerialMaterialize)
    case ParallelAggregate | Filter | Unnest | UnnestAggregate | Hash | Limit => Before
    case Fusion => FusionRule
    case MergeAggregate | MergeHash | MergeLimit | MergeTop | MergeSort | MergeMatchTensor | MergeMatchSparse
       | MergeKnn => Merge
    case Match => MatchRule
    case MatchSparseScan | MatchTensorScan | KnnScan => ScanByTasklets
    case TableScan | IndexScan => StreamScan
    case Projection => Project
    case CreateIndexDo | CompactIndexDo => IndexStep(ParallelMaterialize)
    case CreateIndexFinish => IndexStep(SerialMaterialize)
    case Compact => CompactLeaf
    case CompactIndexPrepare => CompactPrepare
    case CompactFinish => CompactEnd
    case Invalid | UnionAll | Intersect | Except | DummyScan | JoinHash | JoinNestedLoop | JoinMerge | JoinIndex
       | CrossProduct | MergeParallelAggregate | Sink | Source => Refused
  }

  // ----- the updates of a fragment -----

  function NewFragment(id: nat, kind: SinkType, schema: nat): Fragment {
    Fragment(id, [], SerialMaterialize, None, Some(End(kind, schema)), [])
  }

  function AddOp(f: Fragment, n: Node): Fragment { f.(ops := f.ops + [n]) }

  function SetType(f: Fragment, t: FragmentType): Fragment { f.(ftype := t) }

  /** A source is never replaced. */
  function SetSource(f: Fragment, kind: SourceType, schema: nat): Fragment
    requires f.source.None?
  {
    f.(source := Some(End(kind, schema)))
  }

  function AddChild(f: Fragment, c: Fragment): Fragment { f.(children := f.children + [c]) }

  // ----- the builder -----

  /** An exception, or the fragment with the next unused id. */
  datatype Result = Failed | Built(frag: Fragment, next: nat)

  function Leaf(p: Plan, f: Fragment, t: FragmentType, kind: SourceType, next: nat): Result
    requires f.source.None?
  {
    if p.left.Some? || p.right.Some? then Failed
    else Built(SetSource(SetType(AddOp(f, p.node), t), kind, p.node.id), next)
  }

  function Maybe(p: Option<Plan>): seq<Plan> {
    if p.Some? then [p.value] else []
  }

  /** The inputs of an operator in the order in which the builder takes them. */
  function LeftRight(p: Plan): seq<Plan> {
    Maybe(p.left) + Maybe(p.right)
  }

  function Weight(p: Plan): (r: nat)
    ensures r > 0
  {
    1 + (if p.left.Some? then Weight(p.left.value) else 0) + (if p.right.Some? then Weight(p.right.value) else 0)
    + WeightAll(p.others)
  }

  function WeightAll(ps: seq<Plan>): nat {
    if ps == [] then 0 else Weight(ps[0]) + WeightAll(ps[1..])
  }

  lemma {:induction false} WeightAppend(a: seq<Plan>, b: seq<Plan>)
    ensures WeightAll(a + b) == WeightAll(a) + WeightAll(b)
  {
    if a == [] {
      assert a + b == b;
    } else {
      assert (a + b)[1..] == a[1..] + b;
      WeightAppend(a[1..], b);
    }
  }

  lemma InputsWeighLess(p: Plan)
    ensures WeightAll(LeftRight(p)) < Weight(p) && WeightAll(LeftRight(p) + p.others) < Weight(p)
    ensures WeightAll(Maybe(p.left)) < Weight(p)
  {
    WeightAppend(Maybe(p.left), Maybe(p.right));
    WeightAppend(LeftRight(p), p.others);
  }

  /** BuildFragments. */
  function Build(p: Plan, f: Fragment, next: nat): (r: Result)
    requires f.source.None?
    decreases Weight(p), 0
  {
    InputsWeighLess(p);
    match p.node.Rule()
    case Refused => Failed
    case ExplainRule => BuildExplain(p, SetType(f, SerialMaterialize), next)
    case Statement => Leaf(p, f, SerialMaterialize, FromEmpty, next)
    case MatchRule => Leaf(p, f, SerialMaterialize, FromTable, next)
    case ScanByTasklets =>
      Leaf(p, f, if p.node.tasklets == 1 then SerialMaterialize else ParallelMaterialize, FromTable, next)
    case StreamScan => Leaf(p, f, ParallelStream, FromTable, next)
    case CompactLeaf => Leaf(p, f, ParallelMaterialize, FromEmpty, next)
    case After(t) =>
      if p.left.None? then Failed
      else
        var r := Build(p.left.value, AddOp(f, p.node), next);
        if r.Failed? then Failed else Built(SetType(r.frag, t), r.next)
    case Before =>
      if p.left.None? then Failed
      else Build(p.left.value, AddOp(SetType(f, ParallelMaterialize), p.node), next)
    case Project =>
      if p.left.None? then Built(SetSource(SetType(AddOp(f, p.node), SerialMaterialize), FromEmpty, p.node.id), next)
      else Build(p.left.value, SetType(AddOp(f, p.node), ParallelStream), next)
    case FusionRule =>
      if p.left.None? then Failed
      else if p.left.value.node.Rule() == FusionRule then
        if p.right.Some? then Failed else Build(p.left.value, AddOp(f, p.node), next)
      else
        BuildAll(LeftRight(p) + p.others,
                 SetType(SetSource(AddOp(f, p.node), FromQueue, p.node.id), SerialMaterialize), next)
    case Merge =>
      if p.left.None? then Failed
      else BuildAll(LeftRight(p), SetType(SetSource(AddOp(f, p.node), FromQueue, p.node.id), SerialMaterialize), next)
    case IndexStep(t) =>
      if p.left.None? || p.right.Some? then Failed
      else BuildAll(LeftRight(p), SetSource(SetType(AddOp(f, p.node), t), FromQueue, p.node.id), next)
    case CompactPrepare =>
      if p.right.Some? then Failed
      else BuildAll(LeftRight(p), SetSource(SetType(AddOp(f, p.node), SerialMaterialize), FromEmpty, p.node.id), next)
    case CompactEnd =>
      if p.left.None? then Failed
      else BuildAll(LeftRight(p), SetSource(SetType(AddOp(f, p.node), SerialMaterialize), FromQueue, p.node.id), next)
  }

  /** One child fragment after the other. */
  function BuildAll(ps: seq<Plan>, f: Fragment, next: nat): (r: Result)
    decreases WeightAll(ps), 1
  {
    if ps == [] then Built(f, next)
    else
      var r := Build(ps[0], NewFragment(next, ToQueue, ps[0].node.id), next + 1);
      if r.Failed? then Failed else BuildAll(ps[1..], AddChild(f, r.frag), r.next)
  }

  function BuildExplain(p: Plan, f: Fragment, next: nat): (r: Result)
    decreases if p.left.Some? then Weight(p.left.value) else 0, 3
  {
    match p.node.explain
    case Analyze | InvalidExplain => Failed
    case Ast | UnOpt | Opt | Physical => Built(AddOp(f, p.node), next)
    case ByFragment =>
      // the explained fragments only give the text
      var r := BuildExplained(p, next);
      if r.Failed? then Failed else Built(AddOp(f, p.node), r.next)
    case Pipeline =>
      var r := BuildExplained(p, next);
      if r.Failed? then Failed else Built(AddChild(AddOp(f, p.node), r.frag), r.next)
  }

  function BuildExplained(p: Plan, next: nat): (r: Result)
    decreases if p.left.Some? then Weight(p.left.value) else 0, 2
  {
    if p.left.None? then Failed else BuildRoot(p.left.value, next)
  }

  /** BuildFragment for one plan. */
  function BuildRoot(p: Plan, next: nat): (r: Result)
    decreases Weight(p), 1
  {
    var r := Build(p, NewFragment(next, ToResult, p.node.id), next + 1);
    if r.Failed? || r.frag.source.Some? then r
    else Built(SetSource(r.frag, FromEmpty, p.node.id), r.next)
  }
}
