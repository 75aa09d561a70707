/** The walk back of enqueue along prev_, on any queue: where it ends, and what a dequeue that
    folds pages away does to it. */
module MpscWalk {
  import opened Basics
  import opened MpscModel
  import opened MpscConsumer
  import opened MpscSystem
  import opened MpscRuns
  import opened MpscProgress

  /** The producer when its walk back is over; the walk only reads the queue. */
  ghost function Walked<T>(q: Queue<T>, p: Producer<T>): (r: Producer<T>)
    requires Shape(q) && p.Placing? && p.page < |q.pages|
    ensures r.Crashed? || (r.Placing? && r.loc == p.loc && r.x == p.x && r.page < |q.pages| && r.base <= p.loc)
    decreases p.page
  {
    assert PageOk(q, p.page);
    if p.base <= p.loc then p
    else
      var p' := ProducerStep(q, p).1;
      if p'.Crashed? then p' else Walked(q, p')
  }

  lemma {:induction false} BaseAdds(size: nat, a: nat, b: nat)
    ensures Base(size, a + b) == Base(size, a) + Base(size, b)
  {
    if b > 0 { BaseAdds(size, a, b - 1); }
  }

  /** A producer whose prev_size is that of a page `d` positions too high ends its walk off
      the list, or with a prev_size at least as wrong. */
  lemma {:induction false} WalkKeepsLoss<T>(q: Queue<T>, p: Producer<T>, d: nat) returns (e: nat)
    requires Shape(q) && p.Placing? && p.page < |q.pages| && p.base == Base(q.size, p.page + d) && p.loc < p.base
    ensures var r := Walked(q, p);
            r.Crashed? || (d <= e && r.base == Base(q.size, r.page + e) && r.base <= p.loc < r.base + q.size)
    decreases p.page
  {
    assert PageOk(q, p.page);
    e := d;
    if q.pages[p.page].prev.Some? {
      var m := q.pages[p.page].prev.value;
      var p' := Placing(p.x, p.loc, true, m, p.base - q.size);
      assert ProducerStep(q, p).1 == p';
      e := d + p.page - 1 - m;
      assert m + e == p.page + d - 1;
      if p.loc < p'.base { e := WalkKeepsLoss(q, p', e); }
    }
  }

  /** The write that follows a walk with a wrong prev_size: `e` pages too low. */
  lemma WriteTooLow<T>(q: Queue<T>, p: Producer<T>, e: nat)
    requires Shape(q) && p.Placing? && p.page < |q.pages| && p.base == Base(q.size, p.page + e)
             && p.base <= p.loc < p.base + q.size
    ensures var r := ProducerStep(q, p).1;
            r.Raising? && r.page == p.page && Loc(q.size, r.page, r.index) + Base(q.size, e) == p.loc
  {
    assert PageOk(q, p.page);
    BaseAdds(q.size, p.page, e);
  }

  lemma {:induction false} StraightWalk<T>(q: Queue<T>, p: Producer<T>)
    requires Shape(q) && p.Placing? && p.page < |q.pages| && p.base == Base(q.size, p.page)
             && Straight(q, p.page, p.loc)
    ensures var r := Walked(q, p); r.Placing? && r.base == Base(q.size, r.page)
    decreases p.page
  {
    assert PageOk(q, p.page);
    if p.loc < p.base {
      var p' := ProducerStep(q, p).1;
      assert p' == Placing(p.x, p.loc, true, p.page - 1, Base(q.size, p.page - 1));
      StraightWalk(q, p');
    }
  }

  lemma BentIsBehind<T>(q: Queue<T>, m: nat, loc: nat)
    requires Shape(q) && m < |q.pages| && !Straight(q, m, loc)
    ensures 0 < m && loc < Base(q.size, m) && q.pages[m].prev.Some? && q.pages[m].prev.value < m
    ensures q.pages[m].prev == Some(m - 1) ==> !Straight(q, m - 1, loc)
  {
    assert PageOk(q, m);
    var k :| 0 < k <= m && k < |q.pages| && loc < Base(q.size, k) && q.pages[k].prev != Some(k - 1);
    if k < m { BaseOrder(q.size, k, m); }
  }

  lemma {:induction false} BentWalk<T>(q: Queue<T>, p: Producer<T>) returns (e: nat)
    requires Shape(q) && p.Placing? && p.page < |q.pages| && p.base == Base(q.size, p.page)
             && !Straight(q, p.page, p.loc)
    ensures var r := Walked(q, p);
            r.Crashed? || (0 < e && r.base == Base(q.size, r.page + e) && r.base <= p.loc < r.base + q.size)
    decreases p.page
  {
    BentIsBehind(q, p.page, p.loc);
    var m := q.pages[p.page].prev.value;
    var p' := Placing(p.x, p.loc, true, m, p.base - q.size);
    assert ProducerStep(q, p).1 == p' && Walked(q, p) == Walked(q, p');
    if m == p.page - 1 {
      e := BentWalk(q, p');
    } else {
      e := p.page - 1 - m;
      if p.loc < p'.base { e := WalkKeepsLoss(q, p', e); }
    }
  }

  /** How a walk ends when it is not at the page of the location: on a null prev_, or one or
      more whole pages too low, where the producer then writes. */
  ghost predicate Misplaced<T>(q: Queue<T>, r: Producer<T>, loc: nat)
    requires Shape(q)
  {
    || r.Crashed?
    || (r.Placing? && r.page < |q.pages|
        && exists e: nat :: 0 < e && var w := ProducerStep(q, r).1;
                            w.Raising? && Loc(q.size, w.page, w.index) + Base(q.size, e) == loc)
  }

  /** The walk from page `m` ends at the page of the location exactly when the pages between
      are consecutive; otherwise the element is misplaced. */
  lemma WalkRightIff<T>(q: Queue<T>, x: T, loc: nat, back: bool, m: nat)
    requires Shape(q) && m < |q.pages|
    ensures var r := Walked(q, Placing(x, loc, back, m, Base(q.size, m)));
            && (Straight(q, m, loc) <==> r.Placing? && r.base == Base(q.size, r.page))
            && (!Straight(q, m, loc) ==> Misplaced(q, r, loc))
  {
    var p := Placing(x, loc, back, m, Base(q.size, m));
    var r := Walked(q, p);
    if Straight(q, m, loc) {
      StraightWalk(q, p);
    } else {
      var e := BentWalk(q, p);
      if !r.Crashed? {
        WriteTooLow(q, r, e);
        BaseOrder(q.size, r.page, r.page + e);
      }
    }
  }

  // ----- a dequeue in between -----

  /** After a dequeue the pages are consecutive for the walk exactly when it has folded no
      page behind the location whose successor the walk still passes. */
  lemma StraightAfterIff<T>(q: Queue<T>, loc: nat, m: nat)
    requires QueueInv(q) && m < |q.pages| && Unset(q, loc) && Straight(q, m, loc)
    ensures forall k :: k in Folds(q) ==> Foldable(q, k)
    ensures |Dequeue(q).0.pages| == |q.pages| && Dequeue(q).0.size == q.size
    ensures Straight(Dequeue(q).0, m, loc) <==> Harmless(q, loc, m)
  {
    var q' := Dequeue(q).0;
    DequeueOutcome(q);
    DequeueRelinks(q, m);
    if Straight(q', m, loc) {
      forall k | k in Folds(q) && loc < Base(q.size, k) ensures m < q.pages[k].next.value {
        assert PageOk(q, k);
        var n := q.pages[k].next.value;
        DequeueRelinks(q, n);
        BaseOrder(q.size, k, n);
      }
    } else {
      var n :| 0 < n <= m && n < |q'.pages| && loc < Base(q'.size, n) && q'.pages[n].prev != Some(n - 1);
      DequeueRelinks(q, n);
      var k :| k in Folds(q) && q.pages[k].next == Some(n);
      if Base(q.size, k) <= loc { FoldedNextIsNotPast(q, k, n, loc); }
    }
  }

  /** The exact harm of a fold.  A producer holds location `loc` and walks back from page `m`.
      With a dequeue in between it still finds its page exactly when the dequeue has folded
      no page behind `loc` whose successor the walk passes; otherwise it dereferences a null
      prev_ or writes whole pages too low. */
  lemma FoldHarmsIff<T>(q: Queue<T>, x: T, loc: nat, back: bool, m: nat)
    requires QueueInv(q) && m < |q.pages| && Unset(q, loc) && Straight(q, m, loc)
    ensures forall k :: k in Folds(q) ==> Foldable(q, k)
    ensures var q' := Dequeue(q).0;
            && Shape(q') && q'.size == q.size && m < |q'.pages|
            && var r := Walked(q', Placing(x, loc, back, m, Base(q.size, m)));
               if Harmless(q, loc, m) then r.Placing? && r.base == Base(q.size, r.page) else Misplaced(q', r, loc)
  {
    DequeueOutcome(q);
    StraightAfterIff(q, loc, m);
    WalkRightIff(Dequeue(q).0, x, loc, back, m);
  }

  // ----- the runs that are left out -----

  /** Every producer that is walking back ends its walk at the page of its location, if
      nobody else moves. */
  ghost predicate WalksEndRight<T>(s: System<T>)
    requires WellFormed(s)
  {
    forall i :: 0 <= i < |s.producers| && s.producers[i].Descending(s.q.size) ==> EndsRight(s.q, s.producers[i])
  }

  ghost predicate EndsRight<T>(q: Queue<T>, p: Producer<T>)
    requires Shape(q) && InBounds(q, p) && p.Placing?
  {
    var r := Walked(q, p);
    r.Placing? && r.base == Base(q.size, r.page)
  }

  lemma EndsRightIff<T>(q: Queue<T>, p: Producer<T>)
    requires Shape(q) && InBounds(q, p) && p.Placing? && p.base == Base(q.size, p.page)
    ensures EndsRight(q, p) <==> Straight(q, p.page, p.loc)
  {
    WalkRightIff(q, p.x, p.loc, p.back, p.page);
  }

  /** An action of the code belongs to a run that keeps the invariant exactly when after it
      every walk back still ends at its page. */
  lemma EnabledIff<T>(s: System<T>, a: Action<T>)
    requires Inv(s) && WellFormed(s) && Allowed(s, a)
    ensures WellFormed(Next(s, a))
    ensures Enabled(s, a) <==> WalksEndRight(Next(s, a))
  {
    var s' := Next(s, a);
    NextWellFormed(s, a);
    if Enabled(s, a) {
      NextInv(s, a, s');
      forall i | 0 <= i < |s'.producers| && s'.producers[i].Descending(s'.q.size)
        ensures EndsRight(s'.q, s'.producers[i])
      {
        assert ProducerOk(s', i);
        EndsRightIff(s'.q, s'.producers[i]);
      }
    } else if a.Step? {
      BentLoad(s, a.i);
    } else {
      HarmfulFold(s);
    }
  }

  lemma BentLoad<T>(s: System<T>, i: nat)
    requires Inv(s) && WellFormed(s) && Allowed(s, Step(i)) && !WalkIsSafe(s.q, s.producers[i])
    ensures var p' := Next(s, Step(i)).producers[i];
            Next(s, Step(i)).q == s.q && p'.Descending(s.q.size) && InBounds(s.q, p') && !EndsRight(s.q, p')
  {
    assert PageOk(s.q, s.q.tailPage);
    BentIsBehind(s.q, s.q.tailPage, s.producers[i].loc);
    EndsRightIff(s.q, Next(s, Step(i)).producers[i]);
  }

  lemma HarmfulFold<T>(s: System<T>)
    requires Inv(s) && WellFormed(s) && !FoldIsSafe(s)
    ensures WellFormed(Next(s, Consume)) && !WalksEndRight(Next(s, Consume))
  {
    NextWellFormed(s, Consume);
    var s' := Next(s, Consume);
    var i :| 0 <= i < |s.producers| && s.producers[i].Descending(s.q.size)
             && !Harmless(s.q, s.producers[i].loc, s.producers[i].page);
    var p := s.producers[i];
    assert ProducerOk(s, i);
    StraightAfterIff(s.q, p.loc, p.page);
    EndsRightIff(s'.q, p);
    assert s'.producers[i] == p;
  }
}
