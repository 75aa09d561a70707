/** Whole calls of enqueue and dequeue, one after the other: the paged queue is a FIFO sequence. */
module MpscFifo {
  import opened Basics
  import opened MpscModel
  import opened MpscConsumer
  import opened MpscSystem

  /** The pages behind the location of a call point to the page before them. */
  ghost predicate Unbroken<T>(q: Queue<T>, p: Producer<T>) {
    p.Searching() ==>
      forall k :: 0 < k < |q.pages| && p.loc < Base(q.size, k) ==> q.pages[k].prev == Some(k - 1)
  }

  /** No other producer moves: the page numbers of the call fit tail_of_queue_. */
  ghost predicate Alone<T>(q: Queue<T>, p: Producer<T>) {
    && Unbroken(q, p)
    && (p.Placing? ==> p.page <= q.tailPage && (Base(q.size, p.page) + q.size <= p.loc ==> p.page == q.tailPage))
    && (p.Advancing? || p.Extending? || p.Swinging? ==> p.page == q.tailPage)
    && (p.Extending? ==> p.page < |q.pages| && q.pages[p.page].next.None?)
    && (p.Storing? ==> q.tailPage < p.page)
    && (p.Swinging? ==> q.tailPage < p.next)
    && (p.Raising? ==> p.page <= q.tailPage)
  }

  /** How far the location lies behind the first location of the tail page. */
  ghost function Distance<T>(q: Queue<T>, p: Producer<T>): nat {
    if p.Searching() && Base(q.size, q.tailPage) <= p.loc then p.loc - Base(q.size, q.tailPage) + 1 else 0
  }

  ghost function Phase<T>(p: Producer<T>): nat {
    match p
    case Seeking(_, _, _) => 6
    case Placing(_, _, _, _, _) => 5
    case Advancing(_, _, _, _) => 4
    case Extending(_, _, _, _) => 3
    case Storing(_, _, _, _) => 2
    case Swinging(_, _, _, _, _) => 2
    case Raising(_, _, _, _, _) => 2
    case Reserving(_) => 1
    case Idle => 0
    case Crashed => 0
  }

  ghost function Steps<T>(p: Producer<T>): nat {
    if p.Placing? then p.page else 0
  }

  ghost predicate RankDrops<T>(q: Queue<T>, p: Producer<T>, q': Queue<T>, p': Producer<T>) {
    || Distance(q', p') < Distance(q, p)
    || (Distance(q', p') == Distance(q, p) && Phase(p') < Phase(p))
    || (Distance(q', p') == Distance(q, p) && Phase(p') == Phase(p) && Steps(p') < Steps(p))
  }

  lemma AlonePlacing<T>(q: Queue<T>, p: Producer<T>)
    requires Shape(q) && LocalOk(q, p) && Alone(q, p) && p.Placing?
    ensures var (q', p') := ProducerStep(q, p); Alone(q', p') && q.tailPage <= q'.tailPage && RankDrops(q, p, q', p')
  {
    assert PageOk(q, p.page);
    StaysUnbroken(q, p);
    if p.page < q.tailPage { BaseOrder(q.size, p.page, q.tailPage); }
  }

  lemma StaysUnbroken<T>(q: Queue<T>, p: Producer<T>)
    requires Shape(q) && InBounds(q, p) && Unbroken(q, p)
    ensures var (q', p') := ProducerStep(q, p); Unbroken(q', p')
  {
    if p.Placing? || p.Raising? || p.Extending? || p.Reserving? { assert PageOk(q, p.page); }
  }

  lemma AloneStep<T>(q: Queue<T>, p: Producer<T>)
    requires Shape(q) && LocalOk(q, p) && Alone(q, p) && !p.Idle?
    ensures var (q', p') := ProducerStep(q, p); Alone(q', p') && q.tailPage <= q'.tailPage && RankDrops(q, p, q', p')
  {
    assert PageOk(q, q.tailPage);
    StaysUnbroken(q, p);
    if p.Placing? { AlonePlacing(q, p); }
    if p.Storing? { BaseOrder(q.size, q.tailPage, p.page); }
    if p.Swinging? { BaseOrder(q.size, q.tailPage, p.next); }
  }

  /** The rest of one enqueue, run to its end without interruption.  It terminates: every
      round of the outer loop brings the tail page closer to the location. */
  ghost function RunProducer<T>(q: Queue<T>, p: Producer<T>): (q': Queue<T>)
    requires QueueInv(q) && LocalOk(q, p) && Alone(q, p)
    decreases Distance(q, p), Phase(p), Steps(p)
  {
    if p.Idle? then q
    else
      StepKeeps(q, p);
      AloneStep(q, p);
      RunProducer(ProducerStep(q, p).0, ProducerStep(q, p).1)
  }

  /** Every published element lies at or before the tail page. */
  ghost predicate TailCovers<T>(q: Queue<T>) {
    forall k: nat, i: nat :: Published(q, k, i) ==> k <= q.tailPage
  }

  /** `q'` is `q` with element `x` published at location `l` and nothing else changed. */
  ghost predicate Adds<T>(q: Queue<T>, q': Queue<T>, l: nat, x: T) {
    && q'.size == q.size && q'.tail == q.tail && |q.pages| <= |q'.pages|
    && (forall k: nat, i: nat ::
          Published(q', k, i) <==> Published(q, k, i) || (Cell(q', k, i) && Loc(q.size, k, i) == l))
    && (forall k: nat, i: nat :: Gone(q', k, i) <==> Gone(q, k, i))
    && (forall k: nat, i: nat :: Published(q, k, i) ==> q'.pages[k].slots[i] == q.pages[k].slots[i])
    && (forall k: nat, i: nat :: Cell(q', k, i) && Loc(q.size, k, i) == l ==> q'.pages[k].slots[i].data == Some(x))
    && l < Base(q'.size, |q'.pages|)
  }

  /** Pages may appear, but no element does. */
  ghost predicate NoNews<T>(q: Queue<T>, q': Queue<T>) {
    && q'.size == q.size && q'.tail == q.tail && |q.pages| <= |q'.pages|
    && (forall k: nat, i: nat :: Cell(q, k, i) ==> Cell(q', k, i))
    && (forall k: nat, i: nat :: Published(q', k, i) <==> Published(q, k, i))
    && (forall k: nat, i: nat :: Gone(q', k, i) <==> Gone(q, k, i))
    && (forall k: nat, i: nat :: Published(q, k, i) ==> q'.pages[k].slots[i] == q.pages[k].slots[i])
  }

  lemma HoldingIsNoNews<T>(q: Queue<T>, p: Producer<T>, q1: Queue<T>, p1: Producer<T>)
    requires QueueInv(q) && StepOk(q, p, q1, p1) && (p.Holding() ==> p1.Holding())
    ensures NoNews(q, q1)
  {
    ProducesSame(q, q1, Own(p));
    forall k: nat, i: nat | Cell(q, k, i) ensures Cell(q1, k, i) { assert PageOk(q, k) && PageOk(q1, k); }
    if p.Holding() { assert Unset(q1, p.loc); }
  }

  lemma NoNewsThenAdds<T>(q: Queue<T>, q1: Queue<T>, q2: Queue<T>, l: nat, x: T)
    requires NoNews(q, q1) && Adds(q1, q2, l, x)
    ensures Adds(q, q2, l, x)
  {
  }

  lemma AddsThenNoNews<T>(q: Queue<T>, q1: Queue<T>, q2: Queue<T>, l: nat, x: T)
    requires Shape(q1) && Shape(q2) && Adds(q, q1, l, x) && NoNews(q1, q2)
    ensures Adds(q, q2, l, x)
  {
    BasesGrow(q.size, |q1.pages|, |q2.pages|);
    forall k: nat, i: nat | Cell(q2, k, i) && Loc(q.size, k, i) == l ensures Cell(q1, k, i) {
      if |q1.pages| <= k { BasesGrow(q.size, |q1.pages|, k); }
      assert PageOk(q1, k);
    }
  }

  lemma RaiseAdds<T>(q: Queue<T>, p: Producer<T>)
    requires QueueInv(q) && LocalOk(q, p) && p.Raising?
    ensures Adds(q, ProducerStep(q, p).0, p.loc, p.x)
  {
    StepKeeps(q, p);
    var (q1, p1) := ProducerStep(q, p);
    ProducesSame(q, q1, p.loc);
    assert PageOk(q, p.page);
    BaseOrder(q.size, p.page, |q.pages|);
    forall k: nat, i: nat | Cell(q1, k, i) && Loc(q.size, k, i) == p.loc ensures k == p.page && i == p.index {
      LocOrder(q.size, k, i, p.page, p.index);
    }
  }

  ghost predicate Publishes<T>(q: Queue<T>, q': Queue<T>, l: nat, x: T) {
    && QueueInv(q') && Adds(q, q', l, x) && q.tailPage <= q'.tailPage
    && (TailCovers(q) ==> TailCovers(q'))
  }

  lemma RaisePublishes<T>(q: Queue<T>, p: Producer<T>)
    requires QueueInv(q) && LocalOk(q, p) && Alone(q, p) && p.Raising?
    ensures Publishes(q, ProducerStep(q, p).0, p.loc, p.x)
  {
    StepKeeps(q, p);
    RaiseAdds(q, p);
    var q1 := ProducerStep(q, p).0;
    forall k: nat, i: nat | Published(q1, k, i) && !Published(q, k, i) ensures k == p.page {
      LocOrder(q.size, k, i, p.page, p.index);
    }
  }

  /** Every step but the raising of the flag. */
  lemma OtherStep<T>(q: Queue<T>, p: Producer<T>)
    requires QueueInv(q) && LocalOk(q, p) && Alone(q, p) && !p.Idle? && !p.Raising?
    ensures var (q1, p1) := ProducerStep(q, p);
            && QueueInv(q1) && LocalOk(q1, p1) && Alone(q1, p1) && NoNews(q, q1) && q.tailPage <= q1.tailPage
            && (p.Searching() ==> p1.Holding() && p1.loc == p.loc && p1.x == p.x)
            && (p.Reserving? ==> p1.Idle?)
  {
    StepKeeps(q, p);
    AloneStep(q, p);
    HoldingIsNoNews(q, p, ProducerStep(q, p).0, ProducerStep(q, p).1);
  }

  lemma RaiseRun<T>(q: Queue<T>, p: Producer<T>)
    requires QueueInv(q) && LocalOk(q, p) && Alone(q, p) && p.Raising?
    ensures Publishes(q, RunProducer(q, p), p.loc, p.x)
  {
    StepKeeps(q, p);
    AloneStep(q, p);
    RaisePublishes(q, p);
    var (q1, p1) := ProducerStep(q, p);
    assert RunProducer(q, p) == RunProducer(q1, p1);
    if p1.Reserving? { ReserveRun(q, q1, p1, p.loc, p.x); }
  }

  lemma ReserveRun<T>(q: Queue<T>, q1: Queue<T>, p1: Producer<T>, l: nat, x: T)
    requires Publishes(q, q1, l, x) && LocalOk(q1, p1) && Alone(q1, p1) && p1.Reserving?
    ensures Publishes(q, RunProducer(q1, p1), l, x)
  {
    OtherStep(q1, p1);
    var (q2, p2) := ProducerStep(q1, p1);
    assert RunProducer(q1, p1) == q2;
    AddsThenNoNews(q, q1, q2, l, x);
  }

  lemma NoNewsThenPublishes<T>(q: Queue<T>, q1: Queue<T>, q2: Queue<T>, l: nat, x: T)
    requires NoNews(q, q1) && q.tailPage <= q1.tailPage && Publishes(q1, q2, l, x)
    ensures Publishes(q, q2, l, x)
  {
    NoNewsThenAdds(q, q1, q2, l, x);
  }

  /** A finished enqueue has published its element at its location. */
  lemma {:induction false} RunPublishes<T>(q: Queue<T>, p: Producer<T>)
    requires QueueInv(q) && LocalOk(q, p) && Alone(q, p) && p.Holding()
    ensures Publishes(q, RunProducer(q, p), p.loc, p.x)
    decreases Distance(q, p), Phase(p), Steps(p)
  {
    if p.Raising? {
      RaiseRun(q, p);
    } else {
      AloneStep(q, p);
      OtherStep(q, p);
      var (q1, p1) := ProducerStep(q, p);
      RunPublishes(q1, p1);
      assert RunProducer(q, p) == RunProducer(q1, p1);
      NoNewsThenPublishes(q, q1, RunProducer(q1, p1), p.loc, p.x);
    }
  }

  // ----- the rounds of the loop in enqueue -----

  /** A call of enqueue stands at `p` and will end in queue `goal`. */
  ghost predicate At<T>(q: Queue<T>, p: Producer<T>, goal: Queue<T>) {
    QueueInv(q) && LocalOk(q, p) && Alone(q, p) && RunProducer(q, p) == goal
  }

  /** The effect of the last actions of enqueue, once the page is found. */
  ghost function Placed<T>(q: Queue<T>, k: nat, i: nat, x: T, back: bool): Queue<T>
    requires k < |q.pages| && i < |q.pages[k].slots|
  {
    var q1 := SetSlot(q, k, i, q.pages[k].slots[i].(data := Some(x)));
    var q2 := SetSlot(q1, k, i, q1.pages[k].slots[i].(flag := Set));
    if i == 1 && !back && q2.pages[k].next.None? then LinkPage(q2, k) else q2
  }

  /** The effect of one round of enqueue that moves tail_of_queue_ forward. */
  ghost function Advanced<T>(q: Queue<T>): Queue<T>
    requires q.tailPage < |q.pages|
  {
    if q.pages[q.tailPage].next.None? then LinkPage(q, q.tailPage).(tailPage := |q.pages|)
    else q.(tailPage := q.pages[q.tailPage].next.value)
  }

  lemma Along<T>(q: Queue<T>, p: Producer<T>, goal: Queue<T>)
    requires At(q, p, goal) && !p.Idle?
    ensures At(ProducerStep(q, p).0, ProducerStep(q, p).1, goal)
  {
    StepKeeps(q, p);
    AloneStep(q, p);
  }

  /** The walk back from the tail page to page `m` of the location. */
  lemma WalkAlong<T>(q: Queue<T>, x: T, loc: nat, m: nat, goal: Queue<T>)
    requires At(q, Seeking(x, loc, false), goal) && m <= q.tailPage && Base(q.size, m) <= loc
    requires m < q.tailPage ==> loc < Base(q.size, m) + q.size
    ensures At(q, Placing(x, loc, m < q.tailPage, m, Base(q.size, m)), goal)
  {
    assert PageOk(q, q.tailPage);
    Along(q, Seeking(x, loc, false), goal);
    WalkFrom(q, x, loc, false, q.tailPage, m, goal);
  }

  lemma {:induction false} WalkFrom<T>(q: Queue<T>, x: T, loc: nat, back: bool, k: nat, m: nat, goal: Queue<T>)
    requires At(q, Placing(x, loc, back, k, Base(q.size, k)), goal) && m <= k && Base(q.size, m) <= loc
    requires m < k ==> loc < Base(q.size, m) + q.size
    ensures At(q, Placing(x, loc, back || m < k, m, Base(q.size, m)), goal)
    decreases k
  {
    if m < k {
      BaseOrder(q.size, m, k);
      Along(q, Placing(x, loc, back, k, Base(q.size, k)), goal);
      StepBack(q, Placing(x, loc, back, k, Base(q.size, k)));
      WalkFrom(q, x, loc, true, k - 1, m, goal);
    }
  }

  lemma PlaceAlong<T>(q: Queue<T>, x: T, loc: nat, back: bool, k: nat, goal: Queue<T>)
    requires At(q, Placing(x, loc, back, k, Base(q.size, k)), goal) && Base(q.size, k) <= loc < Base(q.size, k) + q.size
    ensures k < |q.pages| && |q.pages[k].slots| == q.size && goal == Placed(q, k, loc - Base(q.size, k), x, back)
  {
    assert PageOk(q, k);
    var p := Placing(x, loc, back, k, Base(q.size, k));
    Along(q, p, goal);
    var (q1, p1) := ProducerStep(q, p);
    RaiseAlong(q1, p1, goal);
  }

  lemma RaiseAlong<T>(q: Queue<T>, p: Producer<T>, goal: Queue<T>)
    requires At(q, p, goal) && p.Raising? && |q.pages[p.page].slots| == q.size
    ensures var q2 := SetSlot(q, p.page, p.index, q.pages[p.page].slots[p.index].(flag := Set));
            goal == (if p.index == 1 && !p.back && q2.pages[p.page].next.None? then LinkPage(q2, p.page) else q2)
  {
    Along(q, p, goal);
    var (q2, p2) := ProducerStep(q, p);
    if p2.Reserving? { Along(q2, p2, goal); }
  }

  lemma ExtendAlong<T>(q: Queue<T>, x: T, loc: nat, goal: Queue<T>)
    requires At(q, Extending(x, loc, false, q.tailPage), goal)
    ensures At(Advanced(q), Seeking(x, loc, false), goal)
  {
    var k := q.tailPage;
    Along(q, Extending(x, loc, false, k), goal);
    Along(LinkPage(q, k), Storing(x, loc, false, |q.pages|), goal);
  }

  lemma AdvanceAlong<T>(q: Queue<T>, x: T, loc: nat, goal: Queue<T>)
    requires At(q, Placing(x, loc, false, q.tailPage, Base(q.size, q.tailPage)), goal)
    requires Base(q.size, q.tailPage) + q.size <= loc
    ensures At(Advanced(q), Seeking(x, loc, false), goal)
  {
    var k := q.tailPage;
    Along(q, Placing(x, loc, false, k, Base(q.size, k)), goal);
    Along(q, Advancing(x, loc, false, k), goal);
    if q.pages[k].next.None? {
      ExtendAlong(q, x, loc, goal);
    } else {
      Along(q, Swinging(x, loc, false, k, q.pages[k].next.value), goal);
    }
  }

  /** One round of the outer loop: page `m` is where the walk back ends. */
  lemma RoundAlong<T>(q: Queue<T>, x: T, loc: nat, m: nat, goal: Queue<T>)
    requires At(q, Seeking(x, loc, false), goal) && m <= q.tailPage && Base(q.size, m) <= loc
    requires m < q.tailPage ==> loc < Base(q.size, m) + q.size
    ensures if loc < Base(q.size, m) + q.size
            then
              && m < |q.pages| && |q.pages[m].slots| == q.size
              && goal == Placed(q, m, loc - Base(q.size, m), x, m < q.tailPage)
            else
              && At(Advanced(q), Seeking(x, loc, false), goal)
              && Base(q.size, q.tailPage) < Base(q.size, Advanced(q).tailPage) <= loc
  {
    WalkAlong(q, x, loc, m, goal);
    if loc < Base(q.size, m) + q.size {
      PlaceAlong(q, x, loc, m < q.tailPage, m, goal);
    } else {
      AdvanceAlong(q, x, loc, goal);
      AdvanceIsCloser(q, loc);
    }
  }

  lemma AdvanceIsCloser<T>(q: Queue<T>, loc: nat)
    requires QueueInv(q) && Unset(q, loc) && Base(q.size, q.tailPage) + q.size <= loc
    ensures Base(q.size, q.tailPage) < Base(q.size, Advanced(q).tailPage) <= loc
  {
    var k := q.tailPage;
    assert PageOk(q, k);
    BaseOrder(q.size, k, Advanced(q).tailPage);
    if q.pages[k].next.Some? { NextIsNotPast(q, k, q.pages[k].next.value, loc); }
  }

  // ----- the FIFO sequence -----

  /** Between whole calls: every location below tail_ is published, and those below `first`
      have been taken. */
  ghost predicate Quiet<T>(q: Queue<T>, first: nat) {
    && QueueInv(q) && TailCovers(q) && first <= q.tail <= Base(q.size, |q.pages|)
    && (forall k: nat, i: nat :: Cell(q, k, i) ==> (Published(q, k, i) <==> Loc(q.size, k, i) < q.tail))
    && (forall k: nat, i: nat :: Cell(q, k, i) ==> (Gone(q, k, i) <==> Loc(q.size, k, i) < first))
    && (forall k: nat, i: nat :: Published(q, k, i) ==> q.pages[k].slots[i].data.Some?)
  }

  ghost function ElementAt<T>(q: Queue<T>, l: nat): Option<T> {
    if q.size > 0 && l / q.size < |q.pages| && l % q.size < |q.pages[l / q.size].slots|
    then q.pages[l / q.size].slots[l % q.size].data else None
  }

  ghost function Contents<T>(q: Queue<T>, first: nat): seq<Option<T>>
    requires first <= q.tail
  {
    seq(q.tail - first, j requires 0 <= j => ElementAt(q, first + j))
  }

  lemma ElementAtCell<T>(q: Queue<T>, k: nat, i: nat)
    requires Cell(q, k, i)
    ensures ElementAt(q, Loc(q.size, k, i)) == q.pages[k].slots[i].data
  {
    LocIsDivMod(q.size, k, i);
  }

  lemma StartsSeeking<T>(q: Queue<T>, x: T)
    requires QueueInv(q)
    ensures var q' := q.(tail := q.tail + 1);
            QueueInv(q') && LocalOk(q', Seeking(x, q.tail, false)) && Alone(q', Seeking(x, q.tail, false))
  {
    TailGrows(q);
    forall k | 0 <= k < |q.pages| && q.tail < Base(q.size, k)
        ensures q.pages[k].prev == Some(k - 1) { BehindTail(q, k); }
  }

  /** One whole enqueue. */
  ghost function Enqueue<T>(q: Queue<T>, x: T): Queue<T>
    requires QueueInv(q)
  {
    StartsSeeking(q, x);
    RunProducer(q.(tail := q.tail + 1), Seeking(x, q.tail, false))
  }

  /** An enqueue appends to the sequence. */
  lemma EnqueueAppends<T>(q: Queue<T>, first: nat, x: T)
    requires Quiet(q, first)
    ensures var q' := Enqueue(q, x);
            && Quiet(q', first)
            && Contents(q', first) == Contents(q, first) + [Some(x)]
  {
    StartsSeeking(q, x);
    var q1 := q.(tail := q.tail + 1);
    var q' := Enqueue(q, x);
    RunPublishes(q1, Seeking(x, q.tail, false));
    EnqueueQuiet(q, q1, q', first, x);
    forall l: nat | first <= l <= q.tail ensures ElementAt(q', l) == (if l < q.tail then ElementAt(q, l) else Some(x)) {
      ElementKept(q, q1, q', x, l);
    }
  }

  lemma EnqueueQuiet<T>(q: Queue<T>, q1: Queue<T>, q': Queue<T>, first: nat, x: T)
    requires Quiet(q, first) && q1 == q.(tail := q.tail + 1) && QueueInv(q') && Adds(q1, q', q.tail, x)
    requires TailCovers(q1) ==> TailCovers(q')
    ensures Quiet(q', first)
  {
    TailGrows(q);
    forall k: nat, i: nat | Cell(q', k, i)
      ensures Published(q', k, i) <==> Loc(q'.size, k, i) < q'.tail
      ensures Gone(q', k, i) <==> Loc(q'.size, k, i) < first
    {
      if k < |q.pages| {
        assert PageOk(q, k);
        assert Cell(q, k, i);
      } else {
        BasesGrow(q.size, |q.pages|, k);
      }
    }
    assert forall k: nat, i: nat :: Published(q', k, i) ==> q'.pages[k].slots[i].data.Some?;
  }

  lemma ElementKept<T>(q: Queue<T>, q1: Queue<T>, q': Queue<T>, x: T, l: nat)
    requires QueueInv(q) && q1 == q.(tail := q.tail + 1) && QueueInv(q') && Adds(q1, q', q.tail, x)
    requires forall k: nat, i: nat :: Cell(q, k, i) && Loc(q.size, k, i) < q.tail ==> Published(q, k, i)
    requires l <= q.tail <= Base(q.size, |q.pages|)
    ensures ElementAt(q', l) == if l < q.tail then ElementAt(q, l) else Some(x)
  {
    TailGrows(q);
    var k, i := FindCell(q.size, l, if l < q.tail then |q.pages| else |q'.pages|);
    assert PageOk(q', k);
    ElementAtCell(q', k, i);
    if l < q.tail {
      assert PageOk(q, k);
      assert Cell(q, k, i);
      ElementAtCell(q, k, i);
    }
  }

  /** The ready element of least location is the oldest one, and the tail page never hides it. */
  lemma OldestIsTaken<T>(q: Queue<T>, first: nat, q': Queue<T>, r: Option<Taken<T>>)
    requires Quiet(q, first) && first < q.tail && Outcome(q, q.headPage, q', r)
    ensures r.Some? && Loc(q.size, r.value.page, r.value.index) == first && r.value.data == ElementAt(q, first)
  {
    var k, i := FindCell(q.size, first, |q.pages|);
    assert PageOk(q, k);
    assert Cell(q, k, i);
    assert Ready(q, k, i);
    assert Ready(q, r.value.page, r.value.index);
    ElementAtCell(q, r.value.page, r.value.index);
  }

  lemma TakenIsQuiet<T>(q: Queue<T>, first: nat, q': Queue<T>, r: Option<Taken<T>>)
    requires Quiet(q, first) && QueueInv(q') && Takes(q, q', r)
    requires r.Some? ==>
               Cell(q, r.value.page, r.value.index) && Loc(q.size, r.value.page, r.value.index) == first < q.tail
    ensures Quiet(q', if r.Some? then first + 1 else first)
  {
    forall k: nat, i: nat | Cell(q', k, i)
      ensures Gone(q', k, i) <==> Loc(q.size, k, i) < (if r.Some? then first + 1 else first)
    {
      if r.Some? { LocOrder(q.size, k, i, r.value.page, r.value.index); }
    }
  }

  lemma TakenKeepsElement<T>(q: Queue<T>, q': Queue<T>, r: Option<Taken<T>>, l: nat)
    requires QueueInv(q) && QueueInv(q') && Takes(q, q', r)
    ensures ElementAt(q', l) == ElementAt(q, l)
  {
    var k, i := l / q.size, l % q.size;
    if k < |q.pages| {
      assert PageOk(q, k) && PageOk(q', k);
      assert Cell(q, k, i);
    }
  }

  lemma TakenKeepsContents<T>(q: Queue<T>, q': Queue<T>, r: Option<Taken<T>>, first: nat)
    requires QueueInv(q) && QueueInv(q') && Takes(q, q', r) && first <= q.tail
    ensures Contents(q', first) == Contents(q, first)
    ensures first < q.tail ==> Contents(q', first + 1) == Contents(q, first)[1..]
  {
    forall l: nat ensures ElementAt(q', l) == ElementAt(q, l) { TakenKeepsElement(q, q', r, l); }
  }

  lemma DequeueOfNothing<T>(q: Queue<T>, q': Queue<T>, r: Option<Taken<T>>)
    requires Quiet(q, q.tail) && Outcome(q, q.headPage, q', r)
    ensures r.None? && Quiet(q', q.tail)
  {
    assert forall k: nat, i: nat :: !Ready(q, k, i);
    TakenIsQuiet(q, q.tail, q', r);
  }

  lemma DequeueOfOldest<T>(q: Queue<T>, first: nat, q': Queue<T>, r: Option<Taken<T>>)
    requires Quiet(q, first) && first < q.tail && Outcome(q, q.headPage, q', r)
    ensures r.Some? && r.value.data == ElementAt(q, first)
    ensures Quiet(q', first + 1) && Contents(q', first + 1) == Contents(q, first)[1..]
  {
    OldestIsTaken(q, first, q', r);
    TakenIsQuiet(q, first, q', r);
    TakenKeepsContents(q, q', r, first);
  }

  /** A dequeue returns the oldest element and removes it; it returns false exactly when
      there is none. */
  lemma DequeueRemoves<T>(q: Queue<T>, first: nat)
    requires Quiet(q, first)
    ensures var (q', r) := Dequeue(q);
            if first == q.tail then r.None? && Quiet(q', first) && Contents(q', first) == []
            else
              && r.Some? && r.value.data == Contents(q, first)[0]
              && Quiet(q', first + 1) && Contents(q', first + 1) == Contents(q, first)[1..]
  {
    DequeueOutcome(q);
    if first == q.tail {
      DequeueOfNothing(q, Dequeue(q).0, Dequeue(q).1);
    } else {
      DequeueOfOldest(q, first, Dequeue(q).0, Dequeue(q).1);
    }
  }

  // ----- sequences of calls -----

  datatype Call<+T> = Put(x: T) | Get

  /** What the calls answer on the queue; a Get answers None for false. */
  ghost function Answers<T>(q: Queue<T>, calls: seq<Call<T>>): seq<Option<T>>
    requires QueueInv(q)
    decreases |calls|
  {
    if calls == [] then []
    else if calls[0].Put? then
      EnqueueInv(q, calls[0].x);
      Answers(Enqueue(q, calls[0].x), calls[1..])
    else
      DequeueOutcome(q);
      var (q', r) := Dequeue(q);
      [if r.None? then None else r.value.data] + Answers(q', calls[1..])
  }

  /** The same calls on a plain sequence. */
  ghost function FifoAnswers<T>(s: seq<T>, calls: seq<Call<T>>): seq<Option<T>>
    decreases |calls|
  {
    if calls == [] then []
    else if calls[0].Put? then FifoAnswers(s + [calls[0].x], calls[1..])
    else if s == [] then [None] + FifoAnswers(s, calls[1..])
    else [Some(s[0])] + FifoAnswers(s[1..], calls[1..])
  }

  lemma EnqueueInv<T>(q: Queue<T>, x: T)
    requires QueueInv(q)
    ensures QueueInv(Enqueue(q, x))
  {
    StartsSeeking(q, x);
    RunPublishes(q.(tail := q.tail + 1), Seeking(x, q.tail, false));
  }

  ghost predicate Holds<T>(q: Queue<T>, first: nat, s: seq<T>) {
    && Quiet(q, first) && |Contents(q, first)| == |s|
    && forall j :: 0 <= j < |s| ==> Contents(q, first)[j] == Some(s[j])
  }

  lemma HoldsPut<T>(q: Queue<T>, first: nat, s: seq<T>, x: T)
    requires Holds(q, first, s)
    ensures Holds(Enqueue(q, x), first, s + [x])
  {
    EnqueueAppends(q, first, x);
  }

  /** What a dequeue does to a queue that holds the sequence `s`. */
  ghost predicate Pops<T>(s: seq<T>, first: nat, q': Queue<T>, r: Option<Taken<T>>) {
    if s == [] then r.None? && Holds(q', first, s)
    else r.Some? && r.value.data == Some(s[0]) && Holds(q', first + 1, s[1..])
  }

  lemma HoldsGet<T>(q: Queue<T>, first: nat, s: seq<T>)
    requires Holds(q, first, s)
    ensures Pops(s, first, Dequeue(q).0, Dequeue(q).1)
  {
    DequeueRemoves(q, first);
    assert Contents(q, first)[0..] == Contents(q, first);
  }

  /** Every sequence of whole calls gets the answers of a plain FIFO sequence. */
  lemma {:induction false} RefinesFifo<T>(q: Queue<T>, first: nat, s: seq<T>, calls: seq<Call<T>>)
    requires Holds(q, first, s)
    ensures Answers(q, calls) == FifoAnswers(s, calls)
    decreases |calls|
  {
    if calls != [] {
      if calls[0].Put? {
        HoldsPut(q, first, s, calls[0].x);
        RefinesFifo(Enqueue(q, calls[0].x), first, s + [calls[0].x], calls[1..]);
      } else {
        HoldsGet(q, first, s);
        var (q', r) := Dequeue(q);
        if s == [] { RefinesFifo(q', first, s, calls[1..]); }
        else { RefinesFifo(q', first + 1, s[1..], calls[1..]); }
      }
    }
  }

  /** A new queue answers as the empty sequence does. */
  lemma NewQueueIsFifo<T>(size: nat, calls: seq<Call<T>>)
    requires 0 < size
    ensures QueueInv(EmptyQueue<T>(size))
    ensures Answers(EmptyQueue<T>(size), calls) == FifoAnswers([], calls)
  {
    var q := EmptyQueue<T>(size);
    assert PageOk(q, 0) && LinksOk(q, 0);
    assert forall k: nat, i: nat :: !Published(q, k, i) && !Gone(q, k, i);
    RefinesFifo(q, 0, [], calls);
  }
}
