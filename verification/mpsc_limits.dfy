/** Runs in which the queue falls short of its promise, for every page size: dequeue misses an
    element although all enqueues have returned. */
module MpscLimits {
  import opened Basics
  import opened MpscModel
  import opened MpscConsumer
  import opened MpscSystem
  import opened MpscRuns
  import opened MpscFifo

  // ----- reaching states -----

  /** A state of some run of `n` producers over pages of `size` slots. */
  ghost predicate Reachable(s: System<int>, size: nat, n: nat) {
    exists run: seq<System<int>>, acts: seq<Action<int>> :: IsRun(run, acts, size, n) && run[|acts|] == s
  }

  lemma ReachableInv(s: System<int>, size: nat, n: nat)
    requires Reachable(s, size, n)
    ensures Inv(s) && s.q.size == size
  {
    var run: seq<System<int>>, acts: seq<Action<int>> :| IsRun(run, acts, size, n) && run[|acts|] == s;
    RunInv(run, acts, size, n, |acts|);
  }

  lemma InitReachable(size: nat, n: nat)
    requires 0 < size < LOCATIONS
    ensures Reachable(Init(size, n), size, n)
  {
    var run: seq<System<int>>, acts: seq<Action<int>> := [Init(size, n)], [];
    assert IsRun(run, acts, size, n) && run[|acts|] == Init(size, n);
  }

  /** Extends a run by one action. */
  lemma Reach(s: System<int>, a: Action<int>, size: nat, n: nat) returns (s': System<int>)
    requires Reachable(s, size, n) && Enabled(s, a)
    ensures WellFormed(s) && s' == Next(s, a) && Reachable(s', size, n)
  {
    var run: seq<System<int>>, acts: seq<Action<int>> :| IsRun(run, acts, size, n) && run[|acts|] == s;
    RunInv(run, acts, size, n, |acts|);
    forall i | 0 <= i < |s.producers| ensures InBounds(s.q, s.producers[i]) { assert ProducerOk(s, i); }
    s' := Next(s, a);
    var run', acts' := run + [s'], acts + [a];
    forall j | 0 <= j < |acts'| ensures Follows(run'[j], acts'[j], run'[j + 1]) {
      if j < |acts| { assert Follows(run[j], acts[j], run[j + 1]); }
    }
    assert IsRun(run', acts', size, n) && run'[|acts'|] == s';
  }

  /** One step of producer `i` while nobody else moves. */
  lemma StepAlone(s: System<int>, i: nat, size: nat, n: nat) returns (s1: System<int>)
    requires Reachable(s, size, n) && i < |s.producers| && QueueInv(s.q) && !s.producers[i].Idle?
    requires LocalOk(s.q, s.producers[i]) && Alone(s.q, s.producers[i])
    ensures var (q', p') := ProducerStep(s.q, s.producers[i]);
            && Reachable(s1, size, n) && s1 == s.(q := q', producers := s.producers[i := p'])
            && QueueInv(q') && LocalOk(q', p') && Alone(q', p') && RankDrops(s.q, s.producers[i], q', p')
            && RunProducer(s.q, s.producers[i]) == RunProducer(q', p')
            && (Consecutive(s.q) ==> Consecutive(q'))
  {
    var p := s.producers[i];
    StepKeeps(s.q, p);
    AloneStep(s.q, p);
    if Consecutive(s.q) { StepConsecutive(s.q, p); }
    s1 := Reach(s, Step(i), size, n);
  }

  /** Lets producer `i` finish its call while nobody else moves. */
  lemma {:induction false} FinishCall(s: System<int>, i: nat, size: nat, n: nat) returns (r: System<int>)
    requires Reachable(s, size, n) && i < |s.producers| && QueueInv(s.q)
    requires LocalOk(s.q, s.producers[i]) && Alone(s.q, s.producers[i])
    ensures Reachable(r, size, n)
    ensures r == s.(q := RunProducer(s.q, s.producers[i]), producers := s.producers[i := Idle])
    ensures Consecutive(s.q) ==> Consecutive(r.q)
    decreases Distance(s.q, s.producers[i]), Phase(s.producers[i]), Steps(s.producers[i])
  {
    if s.producers[i].Idle? {
      r := s;
      assert s.producers[i := Idle] == s.producers;
    } else {
      var s1 := StepAlone(s, i, size, n);
      r := FinishCall(s1, i, size, n);
      assert s1.producers[i := Idle] == s.producers[i := Idle];
    }
  }

  /** One whole enqueue by producer `i`. */
  lemma WholeCall(s: System<int>, i: nat, x: int, size: nat, n: nat) returns (r: System<int>)
    requires Reachable(s, size, n) && i < |s.producers| && s.producers[i].Idle? && s.q.tail + size < LOCATIONS
    ensures QueueInv(s.q) && Reachable(r, size, n) && r.q == Enqueue(s.q, x) && r.producers == s.producers
    ensures Consecutive(s.q) ==> Consecutive(r.q)
  {
    ReachableInv(s, size, n);
    StartsSeeking(s.q, x);
    var s1 := Reach(s, Start(i, x), size, n);
    r := FinishCall(s1, i, size, n);
    assert s1.producers[i := Idle] == s.producers;
  }

  // ----- an element that is missed -----

  /** A queue of `np` linked pages from which nothing was taken: the locations below `tail`
      are published, except for those that their producers hold. */
  ghost predicate Looks(q: Queue<int>, tail: nat, tp: nat, np: nat, held: set<nat>) {
    && q.tail == tail && q.tailPage == tp < np == |q.pages| && q.headPage == 0 && Consecutive(q)
    && (forall k: nat, i: nat :: Cell(q, k, i) ==>
          (Published(q, k, i) <==> Loc(q.size, k, i) < tail && Loc(q.size, k, i) !in held))
    && (forall k: nat, i: nat :: !Gone(q, k, i))
    && (forall l: nat :: Base(q.size, np) <= l < tail ==> l in held)
  }

  lemma LinkLooks(q: Queue<int>, tail: nat, tp: nat, np: nat, held: set<nat>)
    requires QueueInv(q) && Looks(q, tail, tp, np, held)
    ensures QueueInv(LinkPage(q, np - 1)) && Looks(LinkPage(q, np - 1), tail, tp, np + 1, held)
  {
    LinkCell(q, np - 1);
    var q' := LinkPage(q, np - 1);
    ProducesSame(q, q', -1);
    forall k: nat, i: nat | Cell(q', k, i)
      ensures Published(q', k, i) <==> Loc(q'.size, k, i) < tail && Loc(q'.size, k, i) !in held
    {
      if k < np { assert PageOk(q, k); assert Cell(q, k, i); }
    }
  }

  lemma SetLooks(q: Queue<int>, tail: nat, tp: nat, np: nat, held: set<nat>, k: nat, i: nat, x: int)
    requires QueueInv(q) && Looks(q, tail, tp, np, held) && Cell(q, k, i) && Loc(q.size, k, i) in held
             && Loc(q.size, k, i) < tail
    ensures var q' := SetSlot(q, k, i, Slot(Some(x), Set));
            QueueInv(q') && Looks(q', tail, tp, np, held - {Loc(q.size, k, i)})
  {
    var q' := SetSlot(q, k, i, Slot(Some(x), Set));
    var l := Loc(q.size, k, i);
    assert !Published(q, k, i);
    WriteCell(q, k, i, Slot(Some(x), Set));
    ProducesSame(q, q', l);
    forall k': nat, i': nat | Cell(q', k', i')
      ensures Published(q', k', i') <==> Loc(q'.size, k', i') < tail && Loc(q'.size, k', i') !in held - {l}
    {
      assert Cell(q, k', i');
      LocOrder(q.size, k, i, k', i');
    }
    forall l': nat | Base(q'.size, np) <= l' < tail ensures l' in held - {l} { BaseOrder(q.size, k, np); }
  }

  /** The last actions of an enqueue, once page and slot are found. */
  lemma PlacedLooks(q: Queue<int>, tail: nat, tp: nat, np: nat, held: set<nat>, k: nat, i: nat, x: int, back: bool)
    requires QueueInv(q) && Looks(q, tail, tp, np, held) && Cell(q, k, i) && Loc(q.size, k, i) in held
             && Loc(q.size, k, i) < tail
    ensures var links := i == 1 && !back && k == np - 1;
            Looks(Placed(q, k, i, x, back), tail, tp, if links then np + 1 else np, held - {Loc(q.size, k, i)})
  {
    SetLooks(q, tail, tp, np, held, k, i, x);
    var q' := SetSlot(q, k, i, Slot(Some(x), Set));
    PlacedIsSet(q, k, i, x, back);
    if i == 1 && !back && k == np - 1 { LinkLooks(q', tail, tp, np, held - {Loc(q.size, k, i)}); }
  }

  lemma PlacedIsSet(q: Queue<int>, k: nat, i: nat, x: int, back: bool)
    requires k < |q.pages| && i < |q.pages[k].slots| && Consecutive(q)
    ensures var q' := SetSlot(q, k, i, Slot(Some(x), Set));
            Placed(q, k, i, x, back) == if i == 1 && !back && k == |q.pages| - 1 then LinkPage(q', k) else q'
  {
    var q1 := SetSlot(q, k, i, q.pages[k].slots[i].(data := Some(x)));
    var q2 := SetSlot(q1, k, i, q1.pages[k].slots[i].(flag := Set));
    assert q1.pages[k].slots[i := Slot(Some(x), Set)] == q.pages[k].slots[i := Slot(Some(x), Set)];
    assert q2.pages == SetSlot(q, k, i, Slot(Some(x), Set)).pages;
  }

  lemma PlacedAtLooks(q: Queue<int>, tail: nat, tp: nat, np: nat, held: set<nat>, x: int, loc: nat, m: nat, links: bool)
    requires QueueInv(q) && Looks(q, tail, tp, np, held) && loc in held && loc < tail && m <= tp
    requires Base(q.size, m) <= loc < Base(q.size, m) + q.size
    requires links <==> loc == Base(q.size, m) + 1 && m == tp == np - 1
    ensures m < |q.pages| && |q.pages[m].slots| == q.size
    ensures Looks(Placed(q, m, loc - Base(q.size, m), x, m < tp), tail, tp, if links then np + 1 else np, held - {loc})
  {
    assert PageOk(q, m);
    assert Cell(q, m, loc - Base(q.size, m)) && Loc(q.size, m, loc - Base(q.size, m)) == loc;
    PlacedLooks(q, tail, tp, np, held, m, loc - Base(q.size, m), x, m < tp);
  }

  /** The rest of the call that holds location `loc` in page `m`. */
  lemma FinishLooks(q: Queue<int>, tail: nat, tp: nat, np: nat, held: set<nat>, x: int, loc: nat, m: nat)
    requires QueueInv(q) && Looks(q, tail, tp, np, held) && LocalOk(q, Seeking(x, loc, false))
    requires loc in held && m <= tp && Base(q.size, m) <= loc < Base(q.size, m) + q.size
    ensures var links := loc == Base(q.size, m) + 1 && m == tp == np - 1;
            Looks(RunProducer(q, Seeking(x, loc, false)), tail, tp, if links then np + 1 else np, held - {loc})
  {
    PlacedAtLooks(q, tail, tp, np, held, x, loc, m, loc == Base(q.size, m) + 1 && m == tp == np - 1);
    FinishIsPlaced(q, x, loc, m);
  }

  lemma FinishIsPlaced(q: Queue<int>, x: int, loc: nat, m: nat)
    requires QueueInv(q) && Consecutive(q) && LocalOk(q, Seeking(x, loc, false)) && m <= q.tailPage
    requires Base(q.size, m) <= loc < Base(q.size, m) + q.size
    ensures Alone(q, Seeking(x, loc, false)) && m < |q.pages| && |q.pages[m].slots| == q.size
    ensures RunProducer(q, Seeking(x, loc, false)) == Placed(q, m, loc - Base(q.size, m), x, m < q.tailPage)
  {
    RoundAlong(q, x, loc, m, RunProducer(q, Seeking(x, loc, false)));
  }

  lemma StartLooks(q: Queue<int>, tail: nat, tp: nat, np: nat, held: set<nat>)
    requires QueueInv(q) && Looks(q, tail, tp, np, held)
    ensures QueueInv(q.(tail := tail + 1)) && Looks(q.(tail := tail + 1), tail + 1, tp, np, held + {tail})
  {
    TailGrows(q);
    var q' := q.(tail := tail + 1);
    forall k: nat, i: nat | Cell(q', k, i)
      ensures Published(q', k, i) <==> Loc(q'.size, k, i) < tail + 1 && Loc(q'.size, k, i) !in held + {tail}
    {
      assert Cell(q, k, i);
    }
  }

  /** A whole enqueue into the tail page. */
  lemma EnqueueLooks(q: Queue<int>, tail: nat, tp: nat, np: nat, held: set<nat>, x: int)
    requires QueueInv(q) && Looks(q, tail, tp, np, held) && tail !in held
             && Base(q.size, tp) <= tail < Base(q.size, tp) + q.size
    ensures var links := tail == Base(q.size, tp) + 1 && tp == np - 1;
            Looks(Enqueue(q, x), tail + 1, tp, if links then np + 1 else np, held)
  {
    StartsSeeking(q, x);
    StartLooks(q, tail, tp, np, held);
    FinishLooks(q.(tail := tail + 1), tail + 1, tp, np, held + {tail}, x, tail, tp);
    assert held + {tail} - {tail} == held;
  }

  lemma MoveTailLooks(q: Queue<int>, tail: nat, tp: nat, np: nat, held: set<nat>, n: nat)
    requires QueueInv(q) && Looks(q, tail, tp, np, held) && n < np
    ensures QueueInv(q.(tailPage := n)) && Looks(q.(tailPage := n), tail, n, np, held)
  {
    MoveTail(q, n);
    var q' := q.(tailPage := n);
    ProducesSame(q, q', -1);
    assert forall k: nat, i: nat :: Cell(q', k, i) <==> Cell(q, k, i);
  }

  lemma AdvanceLooks(q: Queue<int>, tail: nat, tp: nat, np: nat, held: set<nat>, x: int, loc: nat, goal: Queue<int>)
    requires At(q, Seeking(x, loc, false), goal) && Looks(q, tail, tp, np, held) && tp + 1 < np
    requires Base(q.size, tp + 1) <= loc
    ensures At(q.(tailPage := tp + 1), Seeking(x, loc, false), goal)
    ensures Looks(q.(tailPage := tp + 1), tail, tp + 1, np, held)
  {
    assert PageOk(q, tp);
    RoundAlong(q, x, loc, tp, goal);
    MoveTailLooks(q, tail, tp, np, held, tp + 1);
  }

  /** A whole enqueue into the page behind the tail page. */
  lemma EnqueueNextLooks(q: Queue<int>, tail: nat, tp: nat, np: nat, held: set<nat>, x: int)
    requires QueueInv(q) && Looks(q, tail, tp, np, held) && tail !in held && tp + 1 < np
    requires Base(q.size, tp + 1) <= tail < Base(q.size, tp + 1) + q.size
    ensures var links := tail == Base(q.size, tp + 1) + 1 && tp + 1 == np - 1;
            Looks(Enqueue(q, x), tail + 1, tp + 1, if links then np + 1 else np, held)
  {
    StartsSeeking(q, x);
    StartLooks(q, tail, tp, np, held);
    AdvanceLooks(q.(tail := tail + 1), tail + 1, tp, np, held + {tail}, x, tail, Enqueue(q, x));
    var q2 := q.(tail := tail + 1).(tailPage := tp + 1);
    FinishLooks(q2, tail + 1, tp + 1, np, held + {tail}, x, tail, tp + 1);
    assert held + {tail} - {tail} == held;
  }

  // The run.  Producer 0 makes whole calls, producers 1 and 2 stall.

  /** The state of a run of three producers. */
  ghost predicate Stage(s: System<int>, size: nat, tail: nat, tp: nat, np: nat, held: set<nat>, p1: Producer<int>,
        p2: Producer<int>) {
    && Reachable(s, size, 3) && s.q.size == size && QueueInv(s.q)
    && Looks(s.q, tail, tp, np, held) && s.producers == [Idle, p1, p2]
  }

  /** Enough room below 2^32 for the locations of the run. */
  ghost predicate Roomy(size: nat) {
    Base(size, 4) < LOCATIONS
  }

  /** Producer 0 fills the tail page up to location `upto`, behind its second slot. */
  lemma {:induction false} Fill(s: System<int>, size: nat, tail: nat, tp: nat, np: nat, held: set<nat>,
        p1: Producer<int>, p2: Producer<int>, upto: nat)
    returns (r: System<int>)
    requires Stage(s, size, tail, tp, np, held, p1, p2) && tail <= upto && upto + size < LOCATIONS
    requires Base(size, tp) + 2 <= tail && upto <= Base(size, tp) + size && (forall l :: l in held ==> l < tail)
    ensures Stage(r, size, upto, tp, np, held, p1, p2)
    decreases upto - tail
  {
    r := s;
    if tail < upto {
      r := WholeCall(s, 0, 0, size, 3);
      EnqueueLooks(s.q, tail, tp, np, held, 0);
      ReachableInv(r, size, 3);
      r := Fill(r, size, tail + 1, tp, np, held, p1, p2, upto);
    }
  }

  lemma PutHere(s: System<int>, size: nat, tail: nat, tp: nat, np: nat, held: set<nat>, p1: Producer<int>,
        p2: Producer<int>)
    returns (r: System<int>)
    requires Stage(s, size, tail, tp, np, held, p1, p2) && tail + size < LOCATIONS && tail !in held
    requires Base(size, tp) <= tail < Base(size, tp) + size
    ensures var grows := tail == Base(size, tp) + 1 && tp == np - 1;
            Stage(r, size, tail + 1, tp, if grows then np + 1 else np, held, p1, p2)
  {
    r := WholeCall(s, 0, 0, size, 3);
    EnqueueLooks(s.q, tail, tp, np, held, 0);
    ReachableInv(r, size, 3);
  }

  lemma PutNext(s: System<int>, size: nat, tail: nat, tp: nat, np: nat, held: set<nat>, p1: Producer<int>,
        p2: Producer<int>)
    returns (r: System<int>)
    requires Stage(s, size, tail, tp, np, held, p1, p2) && tail + size < LOCATIONS && tail !in held && tp + 1 < np
    requires Base(size, tp + 1) <= tail < Base(size, tp + 1) + size
    ensures var grows := tail == Base(size, tp + 1) + 1 && tp + 1 == np - 1;
            Stage(r, size, tail + 1, tp + 1, if grows then np + 1 else np, held, p1, p2)
  {
    r := WholeCall(s, 0, 0, size, 3);
    EnqueueNextLooks(s.q, tail, tp, np, held, 0);
    ReachableInv(r, size, 3);
  }

  lemma Draw(s: System<int>, size: nat, tail: nat, tp: nat, np: nat, held: set<nat>, p1: Producer<int>,
        p2: Producer<int>, i: nat)
    returns (r: System<int>)
    requires Stage(s, size, tail, tp, np, held, p1, p2) && tail + size < LOCATIONS && (i == 1 || i == 2)
             && [Idle, p1, p2][i] == Idle
    ensures var p := Seeking(i, tail, false);
            Stage(r, size, tail + 1, tp, np, held + {tail}, if i == 1 then p else p1, if i == 2 then p else p2)
  {
    r := Reach(s, Start(i, i), size, 3);
    StartLooks(s.q, tail, tp, np, held);
  }

  /** The first part: location 1 is held, the other locations of page 1 are published. */
  lemma FirstPage(size: nat) returns (r: System<int>)
    requires 2 <= size && Roomy(size)
    ensures Stage(r, size, size, 0, 1, {1}, Seeking(1, 1, false), Idle)
  {
    Bases(size);
    r := Init(size, 3);
    InitReachable(size, 3);
    ReachableInv(r, size, 3);
    assert r.producers == [Idle, Idle, Idle];
    assert Stage(r, size, 0, 0, 1, {}, Idle, Idle);
    r := PutHere(r, size, 0, 0, 1, {}, Idle, Idle);
    r := Draw(r, size, 1, 0, 1, {}, Idle, Idle, 1);
    assert {} + {1} == {1};
    r := Fill(r, size, 2, 0, 1, {1}, Seeking(1, 1, false), Idle, size);
  }

  lemma StepSecond(s: System<int>, size: nat, tail: nat, tp: nat, np: nat, held: set<nat>, p1: Producer<int>,
        p2: Producer<int>)
    returns (r: System<int>)
    requires Stage(s, size, tail, tp, np, held, p1, p2) && !p2.Idle? && !p2.Crashed?
    ensures WellFormed(s) && InBounds(s.q, p2) && Reachable(r, size, 3) && Inv(r) && r.q.size == size
    ensures r.q == ProducerStep(s.q, p2).0 && r.producers == [Idle, p1, ProducerStep(s.q, p2).1]
  {
    assert s.producers[2] == p2;
    r := Reach(s, Step(2), size, 3);
    ReachableInv(r, size, 3);
  }

  lemma Bases(size: nat)
    ensures Base(size, 0) == 0 && Base(size, 1) == size && Base(size, 2) == size + size
    ensures Base(size, 3) == size + size + size && Base(size, 4) == size + size + size + size
  {
    assert Base(size, 3) == Base(size, 2) + size;
  }

  lemma DrawSecondPage(s: System<int>, size: nat) returns (r: System<int>)
    requires 2 <= size && Roomy(size) && Stage(s, size, size, 0, 1, {1}, Seeking(1, 1, false), Idle)
    ensures Stage(r, size, size + 1, 0, 1, {1, size}, Seeking(1, 1, false), Placing(2, size, false, 0, 0))
  {
    Bases(size);
    var p1, h := Seeking(1, 1, false), {1, size};
    r := Draw(s, size, size, 0, 1, {1}, p1, Idle, 2);
    assert {1} + {size} == h;
    r := StepSecond(r, size, size + 1, 0, 1, h, p1, Seeking(2, size, false));
  }

  /** The producer of location `size` links the second page and stalls before its store. */
  lemma LinkAndStall(s: System<int>, size: nat) returns (r: System<int>)
    requires 2 <= size && Stage(s, size, size + 1, 0, 1, {1, size}, Seeking(1, 1, false), Placing(2, size, false, 0, 0))
    ensures Stage(r, size, size + 1, 0, 2, {1, size}, Seeking(1, 1, false), Storing(2, size, false, 1))
  {
    var p1, h := Seeking(1, 1, false), {1, size};
    r := StepSecond(s, size, size + 1, 0, 1, h, p1, Placing(2, size, false, 0, 0));
    assert Stage(r, size, size + 1, 0, 1, h, p1, Advancing(2, size, false, 0));
    r := StepSecond(r, size, size + 1, 0, 1, h, p1, Advancing(2, size, false, 0));
    assert Stage(r, size, size + 1, 0, 1, h, p1, Extending(2, size, false, 0));
    LinkLooks(r.q, size + 1, 0, 1, h);
    r := StepSecond(r, size, size + 1, 0, 1, h, p1, Extending(2, size, false, 0));
  }

  /** Producer 0 publishes everything up to location 2 * size, which lies in the third page. */
  lemma PublishOn(s: System<int>, size: nat) returns (r: System<int>)
    requires 2 <= size && Roomy(size)
    requires Stage(s, size, size + 1, 0, 2, {1, size}, Seeking(1, 1, false), Storing(2, size, false, 1))
    ensures Stage(r, size, size + size + 1, 2, 3, {1, size}, Seeking(1, 1, false), Storing(2, size, false, 1))
  {
    Bases(size);
    var p1, p2, h := Seeking(1, 1, false), Storing(2, size, false, 1), {1, size};
    r := PutNext(s, size, size + 1, 0, 2, h, p1, p2);
    r := Fill(r, size, size + 2, 1, 3, h, p1, p2, size + size);
    r := PutNext(r, size, size + size, 1, 3, h, p1, p2);
  }

  /** The late plain store moves tail_of_queue_ back. */
  lemma StoreLate(s: System<int>, size: nat) returns (r: System<int>)
    requires Stage(s, size, size + size + 1, 2, 3, {1, size}, Seeking(1, 1, false), Storing(2, size, false, 1))
    ensures Stage(r, size, size + size + 1, 1, 3, {1, size}, Seeking(1, 1, false), Seeking(2, size, false))
  {
    var t := size + size + 1;
    r := StepSecond(s, size, t, 2, 3, {1, size}, Seeking(1, 1, false), Storing(2, size, false, 1));
    MoveTailLooks(s.q, t, 2, 3, {1, size}, 1);
  }

  lemma FinishSecond(s: System<int>, size: nat) returns (r: System<int>)
    requires 2 <= size && Stage(s, size, size + size + 1, 1, 3, {1, size}, Seeking(1, 1, false),
             Seeking(2, size, false))
    ensures Stage(r, size, size + size + 1, 1, 3, {1}, Seeking(1, 1, false), Idle)
  {
    Bases(size);
    ReachableInv(s, size, 3);
    assert ProducerOk(s, 2);
    FinishLooks(s.q, size + size + 1, 1, 3, {1, size}, 2, size, 1);
    r := FinishCall(s, 2, size, 3);
    ReachableInv(r, size, 3);
    assert {1, size} - {size} == {1};
  }

  lemma FinishFirst(s: System<int>, size: nat) returns (r: System<int>)
    requires 2 <= size && Stage(s, size, size + size + 1, 1, 3, {1}, Seeking(1, 1, false), Idle)
    ensures Stage(r, size, size + size + 1, 1, 3, {}, Idle, Idle)
  {
    Bases(size);
    ReachableInv(s, size, 3);
    assert ProducerOk(s, 1);
    FinishLooks(s.q, size + size + 1, 1, 3, {1}, 1, 1, 0);
    r := FinishCall(s, 1, size, 3);
    ReachableInv(r, size, 3);
    assert {1} - {1} == {};
  }

  /** All calls have returned; the locations below `taken` have been delivered. */
  ghost predicate Draining(s: System<int>, size: nat, taken: nat) {
    && Reachable(s, size, 3) && s.producers == [Idle, Idle, Idle] && QueueInv(s.q)
    && s.q.size == size && s.q.tail == size + size + 1 && s.q.tailPage == 1 && |s.q.pages| == 3
    && Reaches(s.q, s.q.headPage, 1)
    && (forall k: nat, i: nat :: Cell(s.q, k, i) ==> (Published(s.q, k, i) <==> Loc(size, k, i) < size + size + 1))
    && (forall k: nat, i: nat :: Cell(s.q, k, i) ==> (Gone(s.q, k, i) <==> Loc(size, k, i) < taken))
  }

  lemma StartsDraining(s: System<int>, size: nat)
    requires 2 <= size && Stage(s, size, size + size + 1, 1, 3, {}, Idle, Idle)
    ensures Draining(s, size, 0)
  {
    assert Reaches(s.q, 1, 1);
  }

  /** No page can be folded: the second is the tail page and the third the last. */
  lemma NothingFolds(q: Queue<int>)
    requires QueueInv(q) && |q.pages| == 3 && q.tailPage == 1
    ensures Folds(q) == {}
  {
    DequeueRelinks(q, 0);
    assert PageOk(q, 2);
    assert forall k: nat :: !Foldable(q, k);
  }

  /** The head never moves beyond the tail page. */
  lemma {:induction false} HeadStaysBefore(q: Queue<int>)
    requires QueueInv(q) && Reaches(q, q.headPage, q.tailPage) && Folds(q) == {}
    ensures var q' := Dequeue(q).0; Shape(q') && q'.headPage < |q'.pages| && Reaches(q', q'.headPage, q.tailPage)
    decreases |q.pages| - q.headPage, q.size - q.pages[q.headPage].head
  {
    var k := q.headPage;
    var h := q.pages[k].head;
    assert PageOk(q, k) && PageOk(q, q.tailPage);
    DequeueOutcome(q);
    if !(k == q.tailPage && h == q.tail - Base(q.size, k)) && h < q.size && q.pages[k].slots[h].flag == Handled {
      var q1 := SetHead(q, k, h + 1);
      assert Gone(q, k, h);
      SetHeadTakes(q, k, None);
      DequeueSkips(q);
      ReachesSame(q, q1, k, q.tailPage);
      HeadStaysBefore(q1);
    } else if h == q.size && k != q.tailPage && q.pages[k].next.Some? {
      var q1 := q.(headPage := q.pages[k].next.value);
      MoveHeadTakes(q, q.pages[k].next.value);
      DequeueLeaves(q);
      ReachesSame(q, q1, q1.headPage, q.tailPage);
      HeadStaysBefore(q1);
    } else if !(k == q.tailPage && h == q.tail - Base(q.size, k)) && h < q.size && q.pages[k].slots[h].flag == Empty {
      DequeueScans(q);
      ScanKeepsHead(q, k, h, false, true);
      HeadStays(q);
    } else {
      DequeueStays(q);
      HeadStays(q);
    }
  }

  lemma {:induction false} ScanKeepsHead(q: Queue<int>, k: nat, i: nat, moved: bool, all: bool)
    requires Shape(q) && k < |q.pages| && i <= q.size && (moved ==> 0 < k)
    ensures Scan(q, k, i, moved, all).0.headPage == q.headPage
    decreases |q.pages| - k, q.size - i, 1
  {
    assert PageOk(q, k);
    if i < q.size {
      var f := q.pages[k].slots[i].flag;
      if f != Set && i + 1 < q.size {
        ScanKeepsHead(q, k, i + 1, moved, all && f != Empty);
      } else if f != Set {
        ScanNextKeepsHead(q, k, moved, all && f != Empty);
      }
    } else {
      ScanNextKeepsHead(q, k, moved, all);
    }
  }

  lemma {:induction false} ScanNextKeepsHead(q: Queue<int>, k: nat, moved: bool, all: bool)
    requires Shape(q) && k < |q.pages| && (moved ==> 0 < k)
    ensures ScanNext(q, k, moved, all).0.headPage == q.headPage
    decreases |q.pages| - k, 0, 0
  {
    assert PageOk(q, k);
    if !(all && moved && k == q.tailPage) && q.pages[k].next.Some? {
      ScanNextCases(q, k, moved, all);
      var q1, n := if all && moved then Unlink(q, k) else q, q.pages[k].next.value;
      ScanKeepsHead(q1, n, q1.pages[n].head, true, true);
    }
  }

  lemma HeadStays(q: Queue<int>)
    requires QueueInv(q) && Reaches(q, q.headPage, q.tailPage) && Folds(q) == {} && Dequeue(q).0.headPage == q.headPage
    ensures var q' := Dequeue(q).0; Shape(q') && q'.headPage < |q'.pages| && Reaches(q', q'.headPage, q.tailPage)
  {
    DequeueOutcome(q);
    var q' := Dequeue(q).0;
    forall j | 0 <= j < |q.pages| ensures q'.pages[j].next == q.pages[j].next { DequeueRelinks(q, j); }
    ReachesSame(q, q', q.headPage, q.tailPage);
  }

  /** While locations of the first two pages are left, a dequeue delivers the next one. */
  lemma DrainNext(s: System<int>, size: nat, taken: nat) returns (r: System<int>)
    requires 2 <= size && Draining(s, size, taken) && taken < size + size
    ensures Draining(r, size, taken + 1)
  {
    Bases(size);
    NothingFolds(s.q);
    DequeueOutcome(s.q);
    HeadStaysBefore(s.q);
    var q', t := Dequeue(s.q).0, Dequeue(s.q).1;
    NextIsTaken(s.q, q', t, taken);
    assert FoldIsSafe(s);
    r := Reach(s, Consume, size, 3);
    forall k: nat, i: nat | Cell(q', k, i) ensures Gone(q', k, i) <==> Loc(size, k, i) < taken + 1 {
      LocOrder(size, k, i, t.value.page, t.value.index);
    }
  }

  lemma NextIsTaken(q: Queue<int>, q': Queue<int>, t: Option<Taken<int>>, taken: nat)
    requires QueueInv(q) && q.tailPage == 1 && |q.pages| == 3 && taken < Base(q.size, 2) <= q.tail
    requires forall k: nat, i: nat :: Cell(q, k, i) ==> (Published(q, k, i) <==> Loc(q.size, k, i) < q.tail)
    requires forall k: nat, i: nat :: Cell(q, k, i) ==> (Gone(q, k, i) <==> Loc(q.size, k, i) < taken)
    requires Outcome(q, q.headPage, q', t)
    ensures t.Some? && Cell(q, t.value.page, t.value.index) && Loc(q.size, t.value.page, t.value.index) == taken
  {
    var k, i := FindCell(q.size, taken, 2);
    assert PageOk(q, k);
    assert Cell(q, k, i) && Ready(q, k, i);
    assert Ready(q, t.value.page, t.value.index);
  }

  lemma {:induction false} Drain(s: System<int>, size: nat, taken: nat) returns (r: System<int>)
    requires 2 <= size && Draining(s, size, taken) && taken <= size + size
    ensures Draining(r, size, size + size)
    decreases size + size - taken
  {
    r := s;
    if taken < size + size {
      r := DrainNext(s, size, taken);
      r := Drain(r, size, taken + 1);
    }
  }

  lemma MissedState(s: System<int>, size: nat)
    requires 2 <= size && Draining(s, size, size + size)
    ensures ReadyAt(s, size + size) && NothingFrom(s.q, s.q.headPage)
  {
    Bases(size);
    assert PageOk(s.q, 1) && PageOk(s.q, 2);
    assert Cell(s.q, 2, 0) && Ready(s.q, 2, 0) && Loc(size, 2, 0) == size + size;
    forall i | 0 <= i < size ensures Gone(s.q, 1, i) { assert Cell(s.q, 1, i); }
    forall k: nat, i: nat | Ready(s.q, k, i) ensures 1 < k {
      if k < 2 { BaseOrder(size, k, 2); }
    }
  }

  /** For every page size of two or more: a run of three producers ends with every enqueue
      returned and an element that was never delivered, and dequeue finds nothing. */
  lemma FinishedElementIsMissed(size: nat) returns (s: System<int>)
    requires 2 <= size && Roomy(size)
    ensures Reachable(s, size, 3) && Shape(s.q)
    ensures forall i :: 0 <= i < |s.producers| ==> s.producers[i].Idle?
    ensures ReadyAt(s, size + size) && NothingFrom(s.q, s.q.headPage)
  {
    s := FirstPage(size);
    s := DrawSecondPage(s, size);
    s := LinkAndStall(s, size);
    s := PublishOn(s, size);
    s := StoreLate(s, size);
    s := FinishSecond(s, size);
    s := FinishFirst(s, size);
    StartsDraining(s, size);
    s := Drain(s, size, 0);
    MissedState(s, size);
  }
}
