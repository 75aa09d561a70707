/** The fragment builder with its mutable fragments: src/executor/fragment_builder.cpp and
    src/executor/fragment/plan_fragment.cppm, proved against the value model. */
module FragmentBuilderClass {
  import opened Basics
  import opened FragmentModel

  class PlanFragment {
    const id: nat
    var ops: seq<Node>
    var ftype: FragmentType
    var source: Option<End<SourceType>>
    var sink: Option<End<SinkType>>
    var children: seq<PlanFragment>
    ghost var tree: Fragment
    ghost var Repr: set<PlanFragment>

    /** The fragments below form a tree of distinct objects, and `tree` is its value. */
    ghost predicate Valid()
      reads this, Repr
      decreases Repr
    {
      && this in Repr
      && tree == Fragment(id, ops, ftype, source, sink, tree.children)
      && |tree.children| == |children|
      && forall i :: 0 <= i < |children| ==>
           && children[i] in Repr && children[i].Repr <= Repr && this !in children[i].Repr
           && children[i].tree == tree.children[i] && children[i].Valid()
    }

    constructor (id: nat, kind: SinkType, schema: nat)
      ensures Valid() && fresh(Repr) && this.id == id && tree == NewFragment(id, kind, schema) && source.None?
    {
      this.id, ops, ftype, source, sink, children := id, [], SerialMaterialize, None, Some(End(kind, schema)), [];
      tree, Repr := NewFragment(id, kind, schema), {this};
    }

    method AddOperator(n: Node)
      requires Valid()
      modifies this
      ensures Valid() && Repr == old(Repr) && source == old(source) && tree == AddOp(old(tree), n)
    {
      ops := ops + [n];
      tree := AddOp(tree, n);
    }

    method SetFragmentType(t: FragmentType)
      requires Valid()
      modifies this
      ensures Valid() && Repr == old(Repr) && source == old(source) && tree == SetType(old(tree), t)
    {
      ftype := t;
      tree := SetType(tree, t);
    }

    /** Never called twice on a fragment. */
    method SetSourceNode(kind: SourceType, schema: nat)
      requires Valid() && source.None?
      modifies this
      ensures Valid() && Repr == old(Repr) && tree == SetSource(old(tree), kind, schema)
    {
      source := Some(End(kind, schema));
      tree := SetSource(tree, kind, schema);
    }

    method AddChild(c: PlanFragment)
      requires Valid() && c.Valid() && Repr !! c.Repr
      modifies this
      ensures Valid() && Repr == old(Repr) + c.Repr && source == old(source)
              && tree == FragmentModel.AddChild(old(tree), c.tree)
    {
      children := children + [c];
      tree := FragmentModel.AddChild(tree, c.tree);
      Repr := Repr + c.Repr;
    }
  }

  class FragmentBuilder {
    /** The next unused fragment id. */
    var fragmentId: nat

    constructor ()
      ensures fragmentId == 0
    {
      fragmentId := 0;
    }

    /** The result of a recursive step against the model. */
    static ghost predicate Agrees(ok: bool, r: Result, tree: Fragment, next: nat) {
      if ok then r == Built(tree, next) else r == Failed
    }

    method BuildFragments(p: Plan, cur: PlanFragment) returns (ok: bool)
      requires cur.Valid() && cur.source.None?
      modifies this, cur
      ensures cur.Valid() && fresh(cur.Repr - old(cur.Repr))
      ensures Agrees(ok, Build(p, old(cur.tree), old(fragmentId)), cur.tree, fragmentId)
      decreases Weight(p), 0
    {
      InputsWeighLess(p);
      match p.node.Rule()
      case Refused => ok := false;
      case ExplainRule =>
        cur.SetFragmentType(SerialMaterialize);
        ok := BuildExplain(p, cur);
      case Statement => ok := AddLeaf(p, cur, SerialMaterialize, FromEmpty);
      case MatchRule => ok := AddLeaf(p, cur, SerialMaterialize, FromTable);
      case ScanByTasklets =>
        ok := AddLeaf(p, cur, if p.node.tasklets == 1 then SerialMaterialize else ParallelMaterialize, FromTable);
      case StreamScan => ok := AddLeaf(p, cur, ParallelStream, FromTable);
      case CompactLeaf => ok := AddLeaf(p, cur, ParallelMaterialize, FromEmpty);
      case After(_) => ok := BuildBelow(p, cur);
      case Before => ok := BuildBelow(p, cur);
      case Project => ok := BuildBelow(p, cur);
      case FusionRule => ok := BuildFusion(p, cur);
      case Merge => ok := BuildCut(p, cur, p.left.Some?, FromQueue, SerialMaterialize);
      case IndexStep(t) => ok := BuildCut(p, cur, p.left.Some? && p.right.None?, FromQueue, t);
      case CompactPrepare => ok := BuildCut(p, cur, p.right.None?, FromEmpty, SerialMaterialize);
      case CompactEnd => ok := BuildCut(p, cur, p.left.Some?, FromQueue, SerialMaterialize);
    }

    method AddLeaf(p: Plan, cur: PlanFragment, t: FragmentType, kind: SourceType) returns (ok: bool)
      requires cur.Valid() && cur.source.None?
      modifies cur
      ensures cur.Valid() && cur.Repr == old(cur.Repr)
      ensures Agrees(ok, Leaf(p, old(cur.tree), t, kind, fragmentId), cur.tree, fragmentId)
    {
      if p.left.Some? || p.right.Some? { return false; }
      cur.AddOperator(p.node);
      cur.SetFragmentType(t);
      cur.SetSourceNode(kind, p.node.id);
      ok := true;
    }

    /** Operators that stay in the fragment of their left input. */
    method BuildBelow(p: Plan, cur: PlanFragment) returns (ok: bool)
      requires p.node.Rule().After? || p.node.Rule().Before? || p.node.Rule().Project?
      requires cur.Valid() && cur.source.None?
      modifies this, cur
      ensures cur.Valid() && fresh(cur.Repr - old(cur.Repr))
      ensures Agrees(ok, Build(p, old(cur.tree), old(fragmentId)), cur.tree, fragmentId)
      decreases if p.left.Some? then Weight(p.left.value) else 0, 2
    {
      cur.AddOperator(p.node);
      if p.left.None? {
        if !p.node.Rule().Project? { return false; }
        cur.SetFragmentType(SerialMaterialize);
        cur.SetSourceNode(FromEmpty, p.node.id);
        return true;
      }
      if p.node.Rule().Before? { cur.SetFragmentType(ParallelMaterialize); }
      if p.node.Rule().Project? { cur.SetFragmentType(ParallelStream); }
      ok := BuildFragments(p.left.value, cur);
      if ok && p.node.Rule().After? { cur.SetFragmentType(p.node.Rule().t); }
    }

    method BuildFusion(p: Plan, cur: PlanFragment) returns (ok: bool)
      requires p.node.Rule() == FusionRule && cur.Valid() && cur.source.None?
      modifies this, cur
      ensures cur.Valid() && fresh(cur.Repr - old(cur.Repr))
      ensures Agrees(ok, Build(p, old(cur.tree), old(fragmentId)), cur.tree, fragmentId)
      decreases WeightAll(LeftRight(p) + p.others), 3
    {
      InputsWeighLess(p);
      if p.left.None? { return false; }
      cur.AddOperator(p.node);
      if p.left.value.node.Rule() == FusionRule {
        if p.right.Some? { return false; }
        LeftWeighsLess(p);
        ok := BuildFragments(p.left.value, cur);
        return;
      }
      cur.SetSourceNode(FromQueue, p.node.id);
      cur.SetFragmentType(SerialMaterialize);
      ok := AddChildren(LeftRight(p) + p.others, cur);
    }

    lemma LeftWeighsLess(p: Plan)
      requires p.left.Some?
      ensures Weight(p.left.value) <= WeightAll(LeftRight(p) + p.others)
    {
      WeightAppend(Maybe(p.left), Maybe(p.right));
      WeightAppend(LeftRight(p), p.others);
    }

    /** Operators whose inputs become fragments of their own. */
    method BuildCut(p: Plan, cur: PlanFragment, fits: bool, kind: SourceType, t: FragmentType) returns (ok: bool)
      requires cur.Valid() && cur.source.None?
      modifies this, cur
      ensures cur.Valid() && fresh(cur.Repr - old(cur.Repr))
      ensures var cut := SetSource(SetType(AddOp(old(cur.tree), p.node), t), kind, p.node.id);
              Agrees(ok, if fits then BuildAll(LeftRight(p), cut, old(fragmentId)) else Failed, cur.tree, fragmentId)
      decreases WeightAll(LeftRight(p)), 3
    {
      if !fits { return false; }
      cur.AddOperator(p.node);
      cur.SetFragmentType(t);
      cur.SetSourceNode(kind, p.node.id);
      ok := AddChildren(LeftRight(p), cur);
    }

    method AddChildren(ps: seq<Plan>, cur: PlanFragment) returns (ok: bool)
      requires cur.Valid()
      modifies this, cur
      ensures cur.Valid() && fresh(cur.Repr - old(cur.Repr))
      ensures Agrees(ok, BuildAll(ps, old(cur.tree), old(fragmentId)), cur.tree, fragmentId)
      decreases WeightAll(ps), 2
    {
      var i := 0;
      while i < |ps|
        invariant 0 <= i <= |ps|
        invariant cur.Valid() && fresh(cur.Repr - old(cur.Repr))
        invariant BuildAll(ps[i..], cur.tree, fragmentId) == BuildAll(ps, old(cur.tree), old(fragmentId))
      {
        WeighsLess(ps, i);
        assert ps[i..][0] == ps[i] && ps[i..][1..] == ps[i + 1..];
        var c := new PlanFragment(fragmentId, ToQueue, ps[i].node.id);
        fragmentId := fragmentId + 1;
        ok := BuildFragments(ps[i], c);
        if !ok { return; }
        cur.AddChild(c);
        i := i + 1;
      }
      ok := true;
    }

    lemma {:induction false} WeighsLess(ps: seq<Plan>, i: nat)
      requires i < |ps|
      ensures Weight(ps[i]) <= WeightAll(ps)
    {
      if i > 0 { WeighsLess(ps[1..], i - 1); }
    }

    method BuildExplain(p: Plan, cur: PlanFragment) returns (ok: bool)
      requires cur.Valid()
      modifies this, cur
      ensures cur.Valid() && fresh(cur.Repr - old(cur.Repr))
      ensures Agrees(ok, FragmentModel.BuildExplain(p, old(cur.tree), old(fragmentId)), cur.tree, fragmentId)
      decreases if p.left.Some? then Weight(p.left.value) else 0, 3
    {
      match p.node.explain
      case Analyze => ok := false;
      case InvalidExplain => ok := false;
      case Ast => cur.AddOperator(p.node); ok := true;
      case UnOpt => cur.AddOperator(p.node); ok := true;
      case Opt => cur.AddOperator(p.node); ok := true;
      case Physical => cur.AddOperator(p.node); ok := true;
      case ByFragment =>
        if p.left.None? { return false; }
        var r := BuildFragment(p.left.value);
        if r == null { return false; }
        cur.AddOperator(p.node);
        ok := true;
      case Pipeline =>
        if p.left.None? { return false; }
        var r := BuildFragment(p.left.value);
        if r == null { return false; }
        cur.AddOperator(p.node);
        cur.AddChild(r);
        ok := true;
    }

    /** BuildFragment for one plan; null stands for the exception. */
    method BuildFragment(p: Plan) returns (f: PlanFragment?)
      modifies this
      ensures f == null ==> BuildRoot(p, old(fragmentId)) == Failed
      ensures f != null ==> f.Valid() && fresh(f.Repr) && BuildRoot(p, old(fragmentId)) == Built(f.tree, fragmentId)
      decreases Weight(p), 1
    {
      var root := new PlanFragment(fragmentId, ToResult, p.node.id);
      fragmentId := fragmentId + 1;
      var ok := BuildFragments(p, root);
      if !ok { return null; }
      if root.source.None? { root.SetSourceNode(FromEmpty, p.node.id); }
      f := root;
    }
  }
}
