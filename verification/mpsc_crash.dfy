/** A run of the code, for every page size, in which a dequeue folds a page away that a producer
    still has to cross: the producer then dereferences a null prev_. */
module MpscCrash {
  import opened Basics
  import opened MpscModel
  import opened MpscConsumer
  import opened MpscSystem
  import opened MpscRuns
  import opened MpscFifo
  import opened MpscWalk
  import opened MpscLimits

  /** A state of some run in which dequeues may fold as the code does. */
  ghost predicate FreelyReachable(s: System<int>, size: nat, n: nat) {
    exists run: seq<System<int>>, acts: seq<Action<int>> :: FreeRun(run, acts, size, n) && run[|acts|] == s
  }

  lemma ReachableIsFree(s: System<int>, size: nat, n: nat)
    requires Reachable(s, size, n)
    ensures FreelyReachable(s, size, n)
  {
    var run: seq<System<int>>, acts: seq<Action<int>> :| IsRun(run, acts, size, n) && run[|acts|] == s;
    RunIsFree(run, acts, size, n);
  }

  lemma FreeReach(s: System<int>, a: Action<int>, size: nat, n: nat)
    requires FreelyReachable(s, size, n) && WellFormed(s) && Allowed(s, a)
    ensures FreelyReachable(Next(s, a), size, n)
  {
    var run: seq<System<int>>, acts: seq<Action<int>> :| FreeRun(run, acts, size, n) && run[|acts|] == s;
    var run', acts' := run + [Next(s, a)], acts + [a];
    forall j | 0 <= j < |acts'| ensures FreelyFollows(run'[j], acts'[j], run'[j + 1]) {
      if j < |acts| { assert FreelyFollows(run[j], acts[j], run[j + 1]); }
    }
    assert FreeRun(run', acts', size, n) && run'[|acts'|] == Next(s, a);
  }

  /** Lets producer `i` walk back to the end of its walk. */
  lemma {:induction false} WalkFreely(s: System<int>, i: nat, size: nat, n: nat)
    requires FreelyReachable(s, size, n) && WellFormed(s) && i < |s.producers| && s.producers[i].Placing?
    ensures FreelyReachable(s.(producers := s.producers[i := Walked(s.q, s.producers[i])]), size, n)
    decreases s.producers[i].page
  {
    var p := s.producers[i];
    assert PageOk(s.q, p.page);
    if p.base <= p.loc {
      assert s.producers[i := p] == s.producers;
    } else {
      var s1 := Next(s, Step(i));
      FreeReach(s, Step(i), size, n);
      assert s1 == s.(producers := s.producers[i := ProducerStep(s.q, p).1]);
      if !s1.producers[i].Crashed? {
        WalkFreely(s1, i, size, n);
        assert s1.producers[i := Walked(s.q, p)] == s.producers[i := Walked(s.q, p)];
      }
    }
  }

  // ----- the run: producer 0 draws location 0 and stalls -----

  ghost predicate Stalled(s: System<int>, size: nat, tail: nat, gone: nat) {
    && Reachable(s, size, 2) && s.producers == [Seeking(0, 0, false), Idle] && QueueInv(s.q)
    && s.q.size == size && s.q.tail == tail <= Base(size, |s.q.pages|)
    && Consecutive(s.q) && TailCovers(s.q) && s.q.headPage == 0
    && (forall k: nat, i: nat :: Cell(s.q, k, i) ==> (Published(s.q, k, i) <==> 1 <= Loc(size, k, i) < tail))
    && (forall k: nat, i: nat :: Cell(s.q, k, i) ==> (Gone(s.q, k, i) <==> 1 <= Loc(size, k, i) < gone))
  }

  lemma FirstStalls(size: nat) returns (s: System<int>)
    requires 0 < size && Roomy(size)
    ensures Stalled(s, size, 1, 1)
  {
    Bases(size);
    InitReachable(size, 2);
    var s0 := Init<int>(size, 2);
    ReachableInv(s0, size, 2);
    assert s0.producers == [Idle, Idle];
    s := Reach(s0, Start(0, 0), size, 2);
    ReachableInv(s, size, 2);
  }

  /** Slot 0 of the first page is unset, so the head stays there. */
  lemma HeadIsFirst(q: Queue<int>, low: nat)
    requires QueueInv(q) && 0 < low
    requires forall k: nat, i: nat :: Cell(q, k, i) && Gone(q, k, i) ==> low <= Loc(q.size, k, i)
    ensures q.headPage == 0
  {
    assert PageOk(q, 0);
    assert Cell(q, 0, 0) && Loc(q.size, 0, 0) == 0;
    assert !Gone(q, 0, 0);
    assert !Done(q, 0);
  }

  lemma PutBehind(s: System<int>, size: nat, tail: nat) returns (r: System<int>)
    requires Stalled(s, size, tail, 1) && 1 <= tail && tail + size < LOCATIONS
    ensures Stalled(r, size, tail + 1, 1)
  {
    r := WholeCall(s, 1, 0, size, 2);
    StartsSeeking(s.q, 0);
    var q1 := s.q.(tail := tail + 1);
    TailGrows(s.q);
    RunPublishes(q1, Seeking(0, tail, false));
    PutCells(s.q, q1, r.q);
    HeadIsFirst(r.q, 1);
  }

  lemma PutCells(q: Queue<int>, q1: Queue<int>, q': Queue<int>)
    requires QueueInv(q) && QueueInv(q') && 1 <= q.tail <= Base(q.size, |q.pages|) && q1 == q.(tail := q.tail + 1)
    requires Adds(q1, q', q.tail, 0)
    requires forall k: nat, i: nat :: Cell(q1, k, i) <==> Cell(q, k, i)
    requires forall k: nat, i: nat :: Gone(q1, k, i) <==> Gone(q, k, i)
    requires forall k: nat, i: nat :: Published(q1, k, i) <==> Published(q, k, i)
    requires forall k: nat, i: nat :: Cell(q, k, i) ==> (Published(q, k, i) <==> 1 <= Loc(q.size, k, i) < q.tail)
    requires forall k: nat, i: nat :: !Gone(q, k, i)
    ensures forall k: nat, i: nat :: Cell(q', k, i) ==> (Published(q', k, i) <==> 1 <= Loc(q.size, k, i) < q.tail + 1)
    ensures forall k: nat, i: nat :: !Gone(q', k, i)
  {
    forall k: nat, i: nat | Cell(q', k, i) ensures Published(q', k, i) <==> 1 <= Loc(q.size, k, i) < q.tail + 1 {
      if k < |q.pages| {
        assert PageOk(q, k);
        assert Cell(q, k, i);
      } else {
        BasesGrow(q.size, |q.pages|, k);
      }
    }
  }

  lemma {:induction false} PutAll(s: System<int>, size: nat, tail: nat) returns (r: System<int>)
    requires Stalled(s, size, tail, 1) && 1 <= tail <= size + size + 1 && Roomy(size)
    ensures Stalled(r, size, size + size + 1, 1)
    decreases size + size + 1 - tail
  {
    Bases(size);
    r := s;
    if tail <= size + size {
      r := PutBehind(s, size, tail);
      r := PutAll(r, size, tail + 1);
    }
  }

  /** While a location of the second page is left, nothing can be folded. */
  lemma NoneFoldable(q: Queue<int>, gone: nat)
    requires QueueInv(q) && q.headPage == 0 && gone < Base(q.size, 2)
    requires forall k: nat, i: nat :: Cell(q, k, i) ==> (Gone(q, k, i) <==> 1 <= Loc(q.size, k, i) < gone)
    ensures Folds(q) == {}
  {
    DequeueRelinks(q, 0);
    forall k: nat ensures !Foldable(q, k) {
      if 0 < k < |q.pages| {
        assert PageOk(q, k);
        BasesGrow(q.size, 1, k);
        assert Base(q.size, 2) == Base(q.size, 1) + q.size;
        assert !Gone(q, k, q.size - 1);
      }
    }
  }

  lemma LeastIsNext(q: Queue<int>, q': Queue<int>, t: Option<Taken<int>>, gone: nat)
    requires QueueInv(q) && TailCovers(q) && 1 <= gone < q.tail <= Base(q.size, |q.pages|)
    requires forall k: nat, i: nat :: Cell(q, k, i) ==> (Published(q, k, i) <==> 1 <= Loc(q.size, k, i) < q.tail)
    requires forall k: nat, i: nat :: Cell(q, k, i) ==> (Gone(q, k, i) <==> 1 <= Loc(q.size, k, i) < gone)
    requires Outcome(q, q.headPage, q', t)
    ensures t.Some? && Cell(q, t.value.page, t.value.index) && Loc(q.size, t.value.page, t.value.index) == gone
    ensures forall k: nat, i: nat :: Cell(q', k, i) ==> (Gone(q', k, i) <==> 1 <= Loc(q.size, k, i) < gone + 1)
  {
    var k, i := FindCell(q.size, gone, |q.pages|);
    assert PageOk(q, k);
    assert Cell(q, k, i) && Ready(q, k, i);
    assert Ready(q, t.value.page, t.value.index);
    forall k': nat, i': nat | Cell(q', k', i') ensures Gone(q', k', i') <==> 1 <= Loc(q.size, k', i') < gone + 1 {
      LocOrder(q.size, k', i', t.value.page, t.value.index);
    }
  }

  lemma TakeNext(s: System<int>, size: nat, tail: nat, gone: nat) returns (r: System<int>)
    requires Stalled(s, size, tail, gone) && 1 <= gone < size + size < tail
    ensures Stalled(r, size, tail, gone + 1)
  {
    Bases(size);
    NoneFoldable(s.q, gone);
    DequeueOutcome(s.q);
    LeastIsNext(s.q, Dequeue(s.q).0, Dequeue(s.q).1, gone);
    ConsumeConsecutive(s.q);
    r := Reach(s, Consume, size, 2);
    HeadIsFirst(r.q, 1);
  }

  lemma {:induction false} TakeAll(s: System<int>, size: nat, gone: nat) returns (r: System<int>)
    requires Stalled(s, size, size + size + 1, gone) && 1 <= gone <= size + size
    ensures Stalled(r, size, size + size + 1, size + size)
    decreases size + size - gone
  {
    r := s;
    if gone < size + size {
      r := TakeNext(s, size, size + size + 1, gone);
      r := TakeAll(r, size, gone + 1);
    }
  }

  // ----- the fold -----

  /** A scan over slots none of which is set comes to the end of the page. */
  lemma {:induction false} ScanPasses(q: Queue<int>, k: nat, i: nat, moved: bool, all: bool) returns (a: bool)
    requires Shape(q) && k < |q.pages| && PageOk(q, k) && i <= q.size && (moved ==> 0 < k)
    requires forall j :: i <= j < q.size ==> q.pages[k].slots[j].flag != Set
    requires moved ==> forall j :: i <= j < q.size ==> q.pages[k].slots[j].flag == Handled
    ensures (moved ==> a == all) && ScanFolds(q, k, i, moved, all) == ScanNextFolds(q, k, moved, a)
    decreases q.size - i
  {
    a := all;
    if i < q.size {
      a := all && q.pages[k].slots[i].flag != Empty;
      if i + 1 < q.size { a := ScanPasses(q, k, i + 1, moved, a); }
    }
  }

  lemma BasesOrdered(size: nat, n: nat, m: nat)
    ensures n <= m ==> Base(size, n) <= Base(size, m)
  {
    if n < m { BaseOrder(size, n, m); }
  }

  /** The dequeue that takes location 2 * size folds the second page. */
  lemma SecondPageIsFolded(s: System<int>, size: nat)
    requires 0 < size && Stalled(s, size, size + size + 1, size + size)
    ensures 2 <= s.q.tailPage && 1 in Folds(s.q)
  {
    Bases(size);
    var q := s.q;
    BasesOrdered(size, |q.pages|, 2);
    assert PageOk(q, 0) && PageOk(q, 1) && PageOk(q, 2) && PageOk(q, q.tailPage);
    assert Cell(q, 2, 0) && Loc(size, 2, 0) == size + size;
    assert Published(q, 2, 0);
    assert Cell(q, 0, 0) && Loc(size, 0, 0) == 0 && !Gone(q, 0, 0) && !Published(q, 0, 0);
    DequeueScans(q);
    forall j | 0 <= j < size ensures q.pages[0].slots[j].flag != Set { assert Cell(q, 0, j); }
    forall j | q.pages[1].head <= j < size ensures q.pages[1].slots[j].flag == Handled { assert Cell(q, 1, j); }
    var a := ScanPasses(q, 0, 0, false, true);
    var b := ScanPasses(q, 1, q.pages[1].head, true, true);
  }

  /** For every page size: the code has a run of two producers in which an enqueue dereferences
      a null prev_, because a dequeue has folded a page away that it had to cross. */
  lemma UnsafeFoldCrashes(size: nat) returns (s: System<int>)
    requires 0 < size && Roomy(size)
    ensures FreelyReachable(s, size, 2) && |s.producers| == 2 && s.producers[0].Crashed?
  {
    var s0 := FirstStalls(size);
    s0 := PutAll(s0, size, 1);
    s0 := TakeAll(s0, size, 1);
    s := CrashFrom(s0, size);
  }

  lemma CrashFrom(s0: System<int>, size: nat) returns (s: System<int>)
    requires 0 < size && Stalled(s0, size, size + size + 1, size + size)
    ensures FreelyReachable(s, size, 2) && |s.producers| == 2 && s.producers[0].Crashed?
  {
    SecondPageIsFolded(s0, size);
    ReachableInv(s0, size, 2);
    assert ProducerOk(s0, 0);
    var m := s0.q.tailPage;
    var s1 := FoldFreely(s0, size);
    WalkFreely(s1, 0, size, 2);
    s := s1.(producers := s1.producers[0 := Walked(s1.q, s1.producers[0])]);
    WalkEndsNowhere(s0.q, m);
  }

  /** The dequeue, and the load of tail_of_queue_ by producer 0. */
  lemma FoldFreely(s0: System<int>, size: nat) returns (s: System<int>)
    requires Reachable(s0, size, 2) && s0.producers == [Seeking(0, 0, false), Idle] && s0.q.size == size
             && QueueInv(s0.q)
    ensures FreelyReachable(s, size, 2) && WellFormed(s) && s.q == Dequeue(s0.q).0
    ensures s.producers == [Placing(0, 0, false, s0.q.tailPage, Base(size, s0.q.tailPage)), Idle]
  {
    ReachableIsFree(s0, size, 2);
    s := ConsumeFreely(s0, size);
    s := SeekFreely(s, size);
  }

  lemma ConsumeFreely(s0: System<int>, size: nat) returns (s: System<int>)
    requires FreelyReachable(s0, size, 2) && s0.producers == [Seeking(0, 0, false), Idle] && s0.q.size == size
             && QueueInv(s0.q)
    ensures FreelyReachable(s, size, 2) && s.producers == s0.producers && s.q == Dequeue(s0.q).0
    ensures Shape(s.q) && s.q.size == size && s.q.tailPage == s0.q.tailPage
  {
    assert WellFormed(s0);
    FreeReach(s0, Consume, size, 2);
    s := Next(s0, Consume);
    DequeueOutcome(s0.q);
  }

  lemma SeekFreely(s0: System<int>, size: nat) returns (s: System<int>)
    requires FreelyReachable(s0, size, 2) && s0.producers == [Seeking(0, 0, false), Idle] && s0.q.size == size
             && Shape(s0.q)
    ensures FreelyReachable(s, size, 2) && WellFormed(s) && s.q == s0.q
    ensures s.producers == [Placing(0, 0, false, s0.q.tailPage, Base(size, s0.q.tailPage)), Idle]
  {
    assert WellFormed(s0) && PageOk(s0.q, s0.q.tailPage);
    FreeReach(s0, Step(0), size, 2);
    s := Next(s0, Step(0));
  }

  /** From behind the folded page the walk to location 0 runs off the list. */
  lemma WalkEndsNowhere(q: Queue<int>, m: nat)
    requires QueueInv(q) && Consecutive(q) && 2 <= m < |q.pages| && 1 in Folds(q) && Unset(q, 0)
    ensures var q' := Dequeue(q).0;
            Shape(q') && m < |q'.pages| && Walked(q', Placing(0, 0, false, m, Base(q.size, m))).Crashed?
  {
    FoldHarmsIff(q, 0, 0, false, m);
    BaseOrder(q.size, 0, 1);
    assert q.pages[1].next == Some(2);
    assert Foldable(q, 1) && 0 < Base(q.size, 1);
    assert !Harmless(q, 0, m);
    forall e: nat | 0 < e ensures 0 < Base(q.size, e) { BaseOrder(q.size, 0, e); }
  }
}
