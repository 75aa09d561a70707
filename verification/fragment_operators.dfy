/** What BuildFragment does, by operator type: the tree of a plan is put together from the trees
    of its inputs, with no fragment handed down. */
module FragmentOperators {
  import opened Basics
  import opened FragmentModel
  import opened FragmentTheorems
  import opened FragmentProperties

  // ----- composing trees -----

  /** The last operator of a fragment is an Explain, which sets no source. */
  predicate EndsInExplain(f: Fragment) {
    f.ops != [] && f.ops[|f.ops| - 1].op == Explain
  }

  /** Operator `n` joins the fragment of its left input, and sets the type if it is `late`. */
  function OnTop(n: Node, below: Result, late: Option<FragmentType>): Result {
    if below.Failed? then Failed
    else
      var f := below.frag;
      Built(f.(ops := [n] + f.ops, ftype := if late.Some? then late.value else f.ftype,
               source := if EndsInExplain(f) then Some(End(FromEmpty, n.id)) else f.source,
               sink := Some(End(ToResult, n.id))), below.next)
  }

  /** A fragment of one operator. */
  function Single(n: Node, id: nat, t: FragmentType, kind: SourceType, children: seq<Fragment>): Fragment {
    Fragment(id, [n], t, Some(End(kind, n.id)), Some(End(ToResult, n.id)), children)
  }

  /** An operator that takes no input. */
  function Alone(p: Plan, t: FragmentType, kind: SourceType, next: nat): Result {
    if p.left.Some? || p.right.Some? then Failed else Built(Single(p.node, next, t, kind, []), next + 1)
  }

  /** A tree below another fragment: it sends to a queue, and an Explain keeps no source. */
  function AsChild(f: Fragment): Fragment {
    f.(sink := if f.sink.Some? then Some(End(ToQueue, f.sink.value.schema)) else None,
       source := if EndsInExplain(f) then None else f.source)
  }

  /** The trees of all inputs, or an exception, with the next unused id. */
  datatype Trees = NoTrees | Trees(frags: seq<Fragment>, next: nat)

  function ComposeAll(ps: seq<Plan>, next: nat): Trees
    decreases WeightAll(ps), 2
  {
    if ps == [] then Trees([], next)
    else
      var r := Compose(ps[0], next);
      if r.Failed? then NoTrees
      else
        var rest := ComposeAll(ps[1..], r.next);
        if rest.NoTrees? then NoTrees else Trees([AsChild(r.frag)] + rest.frags, rest.next)
  }

  /** An operator whose inputs become the children of its fragment. */
  function Gather(n: Node, below: Trees, t: FragmentType, kind: SourceType, next: nat): Result {
    if below.NoTrees? then Failed else Built(Single(n, next, t, kind, below.frags), below.next)
  }

  /** The place of an operator in its fragment.
      Refuses: an exception.  Reads: a fragment of its own without inputs.  Stays: in the
      fragment of its left input; `late` is the type it sets after that.  Projects: stays if it
      has an input.  Gathers: its inputs become child fragments.  Fuses: stays with a Fusion,
      gathers any other inputs. */
  datatype Place =
    | Refuses
    | ExplainsPlan
    | Reads(t: FragmentType, kind: SourceType)
    | Stays(late: Option<FragmentType>)
    | Projects
    | Gathers(t: FragmentType, kind: SourceType, needsLeft: bool, takesRight: bool)
    | Fuses

  function PlaceOf(n: Node): Place {
    match n.op
    case Aggregate | Top => Stays(Some(ParallelMaterialize))
    case Update | Delete | Sort => Stays(Some(SerialMaterialize))
    case ParallelAggregate | Filter | Unnest | UnnestAggregate | Hash | Limit => Stays(None)
    case Projection => Projects
    case Fusion => Fuses
    case MergeAggregate | MergeHash | MergeLimit | MergeTop | MergeSort | MergeMatchTensor | MergeMatchSparse
       | MergeKnn | CompactFinish => Gathers(SerialMaterialize, FromQueue, true, true)
    case CreateIndexDo | CompactIndexDo => Gathers(ParallelMaterialize, FromQueue, true, false)
    case CreateIndexFinish => Gathers(SerialMaterialize, FromQueue, true, false)
    case CompactIndexPrepare => Gathers(SerialMaterialize, FromEmpty, false, false)
    case Match => Reads(SerialMaterialize, FromTable)
    case MatchSparseScan | MatchTensorScan | KnnScan =>
      Reads(if n.tasklets == 1 then SerialMaterialize else ParallelMaterialize, FromTable)
    case TableScan | IndexScan => Reads(ParallelStream, FromTable)
    case Compact => Reads(ParallelMaterialize, FromEmpty)
    case Command | Alter | CreateTable | CreateCollection | CreateDatabase | CreateView | DropTable | DropIndex
       | DropCollection | DropDatabase | DropView | PreparedPlan | Show | Flush | Optimize | Insert | Import | Export
       | ReadCache | CreateIndexPrepare => Reads(SerialMaterialize, FromEmpty)
    case Explain => ExplainsPlan
    case Invalid | UnionAll | Intersect | Except | DummyScan | JoinHash | JoinNestedLoop | JoinMerge | JoinIndex
       | CrossProduct | MergeParallelAggregate | Sink | Source => Refuses
  }

  function Compose(p: Plan, next: nat): Result
    decreases Weight(p), 1
  {
    InputsWeighLess(p);
    match PlaceOf(p.node)
    case Refuses => Failed
    case ExplainsPlan => ComposeExplain(p, next)
    case Reads(t, kind) => Alone(p, t, kind, next)
    case Stays(late) => if p.left.None? then Failed else OnTop(p.node, Compose(p.left.value, next), late)
    case Projects =>
      if p.left.None? then Built(Single(p.node, next, SerialMaterialize, FromEmpty, []), next + 1)
      else OnTop(p.node, Compose(p.left.value, next), None)
    case Gathers(t, kind, needsLeft, takesRight) =>
      if (needsLeft && p.left.None?) || (!takesRight && p.right.Some?) then Failed
      else Gather(p.node, ComposeAll(LeftRight(p), next + 1), t, kind, next)
    case Fuses =>
      if p.left.None? then Failed
      else if p.left.value.node.op != Fusion then
        Gather(p.node, ComposeAll(LeftRight(p) + p.others, next + 1), SerialMaterialize, FromQueue, next)
      else if p.right.Some? then Failed
      else OnTop(p.node, Compose(p.left.value, next), None)
  }

  function ComposeExplain(p: Plan, next: nat): Result
    decreases Weight(p), 0
  {
    match p.node.explain
    case Analyze | InvalidExplain => Failed
    case Ast | UnOpt | Opt | Physical => Built(Single(p.node, next, SerialMaterialize, FromEmpty, []), next + 1)
    case ByFragment =>
      if p.left.None? then Failed
      else
        var r := Compose(p.left.value, next + 1);
        if r.Failed? then Failed else Built(Single(p.node, next, SerialMaterialize, FromEmpty, []), r.next)
    case Pipeline =>
      if p.left.None? then Failed
      else
        var r := Compose(p.left.value, next + 1);
        if r.Failed? then Failed else Built(Single(p.node, next, SerialMaterialize, FromEmpty, [r.frag]), r.next)
  }

  // ----- composing gives the closed form -----

  function Root(p: Plan, next: nat): Result {
    if Accepts(p) then Built(Cut(p, next, ToResult), next + Size(p)) else Failed
  }

  lemma EndsByExplain(p: Plan, id: nat, sink: SinkType)
    ensures EndsInExplain(Cut(p, id, sink)) <==> Explains(p)
  {
    PathEnds(p);
    OnlyExplain(Bottom(p).node.op);
  }

  lemma OnlyExplain(op: OpType)
    ensures RuleOf(op) == ExplainRule <==> op == Explain
    ensures RuleOf(op) == FusionRule <==> op == Fusion
  {
  }

  /** The place by the cases of the switch. */
  lemma PlaceByRule(n: Node)
    ensures PlaceOf(n)
            == match n.Rule()
               case Refused => Refuses
               case ExplainRule => ExplainsPlan
               case Statement => Reads(SerialMaterialize, FromEmpty)
               case After(t) => Stays(Some(t))
               case Before => Stays(None)
               case FusionRule => Fuses
               case Merge => Gathers(SerialMaterialize, FromQueue, true, true)
               case MatchRule => Reads(SerialMaterialize, FromTable)
               case ScanByTasklets =>
                 Reads(if n.tasklets == 1 then SerialMaterialize else ParallelMaterialize, FromTable)
               case StreamScan => Reads(ParallelStream, FromTable)
               case Project => Projects
               case IndexStep(t) => Gathers(t, FromQueue, true, false)
               case CompactLeaf => Reads(ParallelMaterialize, FromEmpty)
               case CompactPrepare => Gathers(SerialMaterialize, FromEmpty, false, false)
               case CompactEnd => Gathers(SerialMaterialize, FromQueue, true, true)
  {
  }

  lemma ChildIsCut(p: Plan, id: nat)
    ensures AsChild(Cut(p, id, ToResult)) == Cut(p, id, ToQueue)
  {
    EndsByExplain(p, id, ToResult);
  }

  lemma StaysOnTop(p: Plan, next: nat)
    requires Follows(p) && (p.node.op == Fusion ==> p.right.None?)
    ensures OnTop(p.node, Root(p.left.value, next), LateType(p.node.op)) == Root(p, next)
  {
    var l := p.left.value;
    OnlyExplain(p.node.op);
    EndsByExplain(l, next, ToResult);
    FollowExtends(p, NewFragment(next, ToResult, p.node.id), SerialMaterialize, next + 1);
    LateIsAfter(p.node.op);
    FollowsCut(p, next);
  }

  lemma FollowsCut(p: Plan, next: nat)
    requires Follows(p)
    ensures var f, g := Cut(p, next, ToResult), Cut(p.left.value, next, ToResult);
            && f.id == g.id && f.ops == [p.node] + g.ops && f.children == g.children
            && f.source == (if Explains(p.left.value) then Some(End(FromEmpty, p.node.id)) else g.source)
            && f.sink == Some(End(ToResult, p.node.id))
            && f.ftype == TypeOf(Path(p)) && g.ftype == TypeOf(Path(p.left.value))
    ensures Size(p) == Size(p.left.value)
    ensures Accepts(p) <==> (p.node.Rule() == FusionRule ==> p.right.None?) && Accepts(p.left.value)
  {
  }

  lemma StopsHere(p: Plan, ps: seq<Plan>, next: nat)
    requires !Follows(p) && p.node.Rule() != ExplainRule && Inputs(p) == ps && !p.node.Rule().After?
    ensures Root(p, next)
            == if InputsFit(p) && AllAccepted(ps) then
                 Built(Single(p.node, next, RuleType(p.node), SourceOf(p.node).kind, CutAll(ps, next + 1, ToQueue)),
                       next + 1 + SizeAll(ps))
               else Failed
  {
    LateIsAfter(p.node.op);
    BottomByRule(p.node);
    assert Path(p) == [p.node] && Below(p) == ps && Drawn(p) == ps;
  }

  lemma {:induction false} ComposeIsRoot(p: Plan, next: nat)
    ensures Compose(p, next) == Root(p, next)
    decreases Weight(p), 1
  {
    InputsWeighLess(p);
    OnlyExplain(p.node.op);
    if p.node.op == Explain {
      if p.left.Some? { ComposeIsRoot(p.left.value, next + 1); }
      ExplainIsRoot(p, next);
    } else if Follows(p) {
      ComposeIsRoot(p.left.value, next);
      FollowIsRoot(p, next, Compose(p.left.value, next));
    } else {
      AllAreRoots(Inputs(p), next + 1);
      StopIsRoot(p, next, ComposeAll(Inputs(p), next + 1));
    }
  }

  lemma ExplainIsRoot(p: Plan, next: nat)
    requires p.node.op == Explain && (p.left.Some? ==> Compose(p.left.value, next + 1) == Root(p.left.value, next + 1))
    ensures ComposeExplain(p, next) == Root(p, next)
  {
    ExplainInputs(p, next + 1);
    ExplainCut(p, next);
    if p.left.Some? {
      var l := p.left.value;
      ExplainKeeps(p, next, Accepts(l), Cut(l, next + 1, ToResult), next + 1 + Size(l));
    }
  }

  /** An Explain of a plan whose tree is `c`, if it is accepted. */
  lemma ExplainKeeps(p: Plan, next: nat, ok: bool, c: Fragment, n: nat)
    requires p.node.op == Explain && p.left.Some?
    requires Compose(p.left.value, next + 1) == if ok then Built(c, n) else Failed
    ensures Builds(p.node.explain) ==>
              ComposeExplain(p, next)
              == if !ok then Failed
                 else Built(Single(p.node, next, SerialMaterialize, FromEmpty,
                                   if p.node.explain == Pipeline then [c] else []), n)
  {
  }

  lemma ExplainCut(p: Plan, next: nat)
    requires p.node.op == Explain
    ensures Size(p) == 1 + SizeAll(Drawn(p)) && (Accepts(p) <==> InputsFit(p) && AllAccepted(Drawn(p)))
    ensures Cut(p, next, ToResult)
            == Single(p.node, next, SerialMaterialize, FromEmpty, CutAll(Below(p), next + 1, ToResult))
  {
    LateIsAfter(p.node.op);
    BottomByRule(p.node);
    assert Path(p) == [p.node];
  }

  /** Compose where the operator stays with its left input. */
  lemma ComposeStays(p: Plan, next: nat, below: Result)
    requires Follows(p) && below == Compose(p.left.value, next)
    ensures Compose(p, next)
            == if p.node.op == Fusion && p.right.Some? then Failed else OnTop(p.node, below, LateType(p.node.op))
  {
    PlaceByRule(p.node);
    LateIsAfter(p.node.op);
    OnlyExplain(p.node.op);
    OnlyExplain(p.left.value.node.op);
  }

  lemma FollowIsRoot(p: Plan, next: nat, below: Result)
    requires Follows(p) && below == Compose(p.left.value, next) == Root(p.left.value, next)
    ensures Compose(p, next) == Root(p, next)
  {
    ComposeStays(p, next, below);
    OnlyExplain(p.node.op);
    if p.node.op == Fusion && p.right.Some? { FollowsCut(p, next); } else { StaysOnTop(p, next); }
  }

  /** Compose where it does not. */
  lemma ComposeStops(p: Plan, next: nat, below: Trees)
    requires !Follows(p) && p.node.op != Explain && below == ComposeAll(Inputs(p), next + 1)
    ensures Compose(p, next)
            == if InputsFit(p) then Gather(p.node, below, RuleType(p.node), SourceOf(p.node).kind, next) else Failed
  {
    PlaceByRule(p.node);
    OnlyExplain(p.node.op);
    if p.left.Some? { OnlyExplain(p.left.value.node.op); }
    NoTreesYet(next + 1);
  }

  lemma NoTreesYet(next: nat)
    ensures ComposeAll([], next) == Trees([], next)
  {
  }

  lemma StopIsRoot(p: Plan, next: nat, below: Trees)
    requires !Follows(p) && p.node.op != Explain
    requires below == ComposeAll(Inputs(p), next + 1) == Roots(Inputs(p), next + 1)
    ensures Compose(p, next) == Root(p, next)
  {
    OnlyExplain(p.node.op);
    ComposeStops(p, next, below);
    if p.node.Rule().After? { NeverFits(p, next); } else { StopsHere(p, Inputs(p), next); }
  }

  lemma NeverFits(p: Plan, next: nat)
    requires !Follows(p) && p.node.Rule().After?
    ensures !InputsFit(p) && Root(p, next) == Failed
  {
  }

  function Roots(ps: seq<Plan>, next: nat): Trees {
    if AllAccepted(ps) then Trees(CutAll(ps, next, ToQueue), next + SizeAll(ps)) else NoTrees
  }

  /** One more tree in front of the others. */
  function Prepend(r: Result, rest: Trees): Trees {
    if r.Failed? || rest.NoTrees? then NoTrees else Trees([AsChild(r.frag)] + rest.frags, rest.next)
  }

  lemma ComposeCons(ps: seq<Plan>, next: nat, r: Result)
    requires ps != [] && r == Compose(ps[0], next)
    ensures ComposeAll(ps, next) == if r.Failed? then NoTrees else Prepend(r, ComposeAll(ps[1..], r.next))
  {
  }

  lemma AcceptedCons(ps: seq<Plan>)
    requires ps != []
    ensures AllAccepted(ps) <==> Accepts(ps[0]) && AllAccepted(ps[1..])
    ensures SizeAll(ps) == Size(ps[0]) + SizeAll(ps[1..])
  {
  }

  lemma RootsCons(ps: seq<Plan>, next: nat, ok: bool, c: Fragment, n: nat)
    requires ps != [] && (AllAccepted(ps) <==> ok && AllAccepted(ps[1..])) && next + SizeAll(ps) == n + SizeAll(ps[1..])
    requires CutAll(ps, next, ToQueue) == [AsChild(c)] + CutAll(ps[1..], n, ToQueue)
    ensures Roots(ps, next) == if ok then Prepend(Built(c, n), Roots(ps[1..], n)) else NoTrees
  {
  }

  lemma FirstCut(ps: seq<Plan>, next: nat) returns (ok: bool, c: Fragment, n: nat)
    requires ps != []
    ensures Root(ps[0], next) == if ok then Built(c, n) else Failed
    ensures Roots(ps, next) == if ok then Prepend(Built(c, n), Roots(ps[1..], n)) else NoTrees
  {
    ok, c, n := Accepts(ps[0]), Cut(ps[0], next, ToResult), next + Size(ps[0]);
    ChildIsCut(ps[0], next);
    CutCons(ps, next, ToQueue);
    AcceptedCons(ps);
    RootsCons(ps, next, ok, c, n);
  }

  lemma FirstComposed(ps: seq<Plan>, next: nat, ok: bool, c: Fragment, n: nat)
    requires ps != [] && Compose(ps[0], next) == if ok then Built(c, n) else Failed
    ensures ComposeAll(ps, next) == if ok then Prepend(Built(c, n), ComposeAll(ps[1..], n)) else NoTrees
  {
    ComposeCons(ps, next, if ok then Built(c, n) else Failed);
  }

  lemma {:induction false} AllAreRoots(ps: seq<Plan>, next: nat)
    ensures ComposeAll(ps, next) == Roots(ps, next)
    decreases WeightAll(ps), 2
  {
    if ps == [] {
      NoTreesYet(next);
    } else {
      ComposeIsRoot(ps[0], next);
      var ok, c, n := FirstCut(ps, next);
      FirstComposed(ps, next, ok, c, n);
      AllAreRoots(ps[1..], n);
    }
  }

  /** The recursive builder, which hands fragments down and overwrites their types, builds the
      composed tree: by operator type, which operators stay with their left input, which make
      their inputs child fragments, what each one reads from, and which are refused. */
  lemma BuiltByOperator(p: Plan, next: nat)
    ensures BuildRoot(p, next) == Compose(p, next)
  {
    RootIsCut(p, next);
    ComposeIsRoot(p, next);
  }

  /** What the first fragment of a tree holds and reads, by operator type. */
  lemma FirstFragment(p: Plan, next: nat)
    requires BuildRoot(p, next).Built?
    ensures var f := BuildRoot(p, next).frag;
            && |f.ops| > 0 && f.ops[0] == p.node && f.source.Some?
            && (|f.ops| > 1 <==>
                  p.left.Some? && (p.node.op in {Aggregate, Top, Update, Delete, Sort, ParallelAggregate, Filter,
                                                 Unnest, UnnestAggregate, Hash, Limit, Projection}
                                   || (p.node.op == Fusion && p.left.value.node.op == Fusion)))
            && (f.source.value.kind == FromTable <==>
                  f.ops[|f.ops| - 1].op in {Match, MatchSparseScan, MatchTensorScan, KnnScan, TableScan, IndexScan})
            && (f.source.value.kind == FromQueue <==>
                  f.ops[|f.ops| - 1].op in {Fusion, MergeAggregate, MergeHash, MergeLimit, MergeTop, MergeSort,
                                            MergeMatchTensor, MergeMatchSparse, MergeKnn, CreateIndexDo,
                                            CreateIndexFinish, CompactIndexDo, CompactFinish})
  {
    RootIsCut(p, next);
    PathEnds(p);
    PathGrows(p);
    StaysByRule(p.node.op);
    SourceByOperator(Bottom(p).node);
    OnlyExplain(Bottom(p).node.op);
    OnlyExplain(p.node.op);
    if p.left.Some? { OnlyExplain(p.left.value.node.op); }
  }

  lemma PathGrows(p: Plan)
    ensures |Path(p)| > 1 <==> Follows(p)
  {
  }

  lemma StaysByRule(op: OpType)
    ensures op in {Aggregate, Top, Update, Delete, Sort, ParallelAggregate, Filter, Unnest, UnnestAggregate, Hash,
                   Limit, Projection}
            <==> RuleOf(op).After? || RuleOf(op).Before? || RuleOf(op).Project?
  {
  }

  lemma SourceByOperator(n: Node)
    ensures SourceOf(n).kind == FromTable
            <==> n.op in {Match, MatchSparseScan, MatchTensorScan, KnnScan, TableScan, IndexScan}
    ensures SourceOf(n).kind == FromQueue
            <==> n.op in {Fusion, MergeAggregate, MergeHash, MergeLimit, MergeTop, MergeSort, MergeMatchTensor,
                          MergeMatchSparse, MergeKnn, CreateIndexDo, CreateIndexFinish, CompactIndexDo, CompactFinish}
  {
  }

  lemma ComposeScan(p: Plan, next: nat)
    requires p.node.op == TableScan && p.left.None? && p.right.None?
    ensures Compose(p, next) == Built(Single(p.node, next, ParallelStream, FromTable, []), next + 1)
  {
  }

  lemma ComposeTop(p: Plan, next: nat, below: Result)
    requires p.node.op == Top && p.left.Some? && below == Compose(p.left.value, next)
    ensures Compose(p, next) == OnTop(p.node, below, Some(ParallelMaterialize))
  {
  }

  lemma ComposeMergeTop(p: Plan, next: nat, below: Trees)
    requires p.node.op == MergeTop && p.left.Some? && below == ComposeAll(LeftRight(p), next + 1)
    ensures Compose(p, next) == Gather(p.node, below, SerialMaterialize, FromQueue, next)
  {
  }

  lemma ComposeOne(p: Plan, next: nat, f: Fragment, n: nat)
    requires Compose(p, next) == Built(f, n)
    ensures ComposeAll([p], next) == Trees([AsChild(f)], n)
  {
    var ps := [p];
    assert ps[1..] == [];
    ComposeCons(ps, next, Built(f, n));
    NoTreesYet(n);
  }

  /** MergeTop over Top over TableScan: the merge is a fragment of its own, and reads what the
      other two send from one. */
  lemma MergeTopOverTop(next: nat, scan: Plan, top: Plan, merge: Plan)
    requires scan.node.op == TableScan && scan.left.None? && scan.right.None?
    requires top.node.op == Top && top.left == Some(scan) && merge.node.op == MergeTop
    requires merge.left == Some(top) && merge.right.None?
    ensures var child := Fragment(next + 1, [top.node, scan.node], ParallelMaterialize,
                                  Some(End(FromTable, scan.node.id)), Some(End(ToQueue, top.node.id)), []);
            BuildRoot(merge, next)
            == Built(Fragment(next, [merge.node], SerialMaterialize, Some(End(FromQueue, merge.node.id)),
                              Some(End(ToResult, merge.node.id)), [child]), next + 2)
  {
    BuiltByOperator(merge, next);
    ComposeScan(scan, next + 1);
    ComposeTop(top, next + 1, Compose(scan, next + 1));
    var f := Fragment(next + 1, [top.node, scan.node], ParallelMaterialize, Some(End(FromTable, scan.node.id)),
                      Some(End(ToResult, top.node.id)), []);
    ComposeOne(top, next + 1, f, next + 2);
    assert LeftRight(merge) == [top];
    ComposeMergeTop(merge, next, Trees([AsChild(f)], next + 2));
  }
}
