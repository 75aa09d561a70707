/** Theorems about whole runs of the queue. */
module MpscRuns {
  import opened Basics
  import opened MpscModel
  import opened MpscConsumer
  import opened MpscSystem

  /** A run of `n` producers and the consumer over pages of `size` slots: any interleaving. */
  ghost predicate IsRun<T(!new)>(run: seq<System<T>>, acts: seq<Action<T>>, size: nat, n: nat) {
    && 0 < size < LOCATIONS
    && |run| == |acts| + 1
    && run[0] == Init(size, n)
    && forall j :: 0 <= j < |acts| ==> Follows(run[j], acts[j], run[j + 1])
  }

  ghost predicate Follows<T>(s: System<T>, a: Action<T>, s': System<T>) {
    Enabled(s, a) && (WellFormed(s) ==> s' == Next(s, a))
  }

  /** A run of the code, with every dequeue that it allows. */
  ghost predicate FreeRun<T(!new)>(run: seq<System<T>>, acts: seq<Action<T>>, size: nat, n: nat) {
    && 0 < size < LOCATIONS
    && |run| == |acts| + 1
    && run[0] == Init(size, n)
    && forall j :: 0 <= j < |acts| ==> FreelyFollows(run[j], acts[j], run[j + 1])
  }

  ghost predicate FreelyFollows<T>(s: System<T>, a: Action<T>, s': System<T>) {
    Allowed(s, a) && (WellFormed(s) ==> s' == Next(s, a))
  }

  lemma InitInv<T>(size: nat, n: nat)
    requires 0 < size < LOCATIONS
    ensures Inv<T>(Init(size, n))
  {
    var s := Init<T>(size, n);
    assert PageOk(s.q, 0);
    assert forall k: nat, i: nat :: !Published(s.q, k, i);
    assert forall k: nat, i: nat :: !Gone(s.q, k, i);
    assert LinksOk(s.q, 0);
  }

  lemma NextInv<T>(s: System<T>, a: Action<T>, s': System<T>)
    requires Inv(s) && Follows(s, a, s')
    ensures WellFormed(s) && s' == Next(s, a) && Inv(s')
  {
    forall i | 0 <= i < |s.producers| ensures InBounds(s.q, s.producers[i]) { assert ProducerOk(s, i); }
    match a
    case Start(i, x) => StartInv(s, i, x);
    case Step(i) => StepInv(s, i);
    case Consume => ConsumeInv(s);
  }

  /** Every state of every run satisfies the invariant. */
  lemma {:induction false} RunInv<T(!new)>(run: seq<System<T>>, acts: seq<Action<T>>, size: nat, n: nat, j: nat)
    requires IsRun(run, acts, size, n) && j < |run|
    ensures Inv(run[j]) && run[j].q.size == size
  {
    if j == 0 {
      InitInv<T>(size, n);
    } else {
      RunInv(run, acts, size, n, j - 1);
      NextInv(run[j - 1], acts[j - 1], run[j]);
      SizeKept(run[j - 1], acts[j - 1]);
    }
  }

  lemma RunIsFree<T(!new)>(run: seq<System<T>>, acts: seq<Action<T>>, size: nat, n: nat)
    requires IsRun(run, acts, size, n)
    ensures FreeRun(run, acts, size, n)
  {
    forall j | 0 <= j < |acts| ensures FreelyFollows(run[j], acts[j], run[j + 1]) {
      assert Follows(run[j], acts[j], run[j + 1]);
    }
  }

  lemma SizeKept<T>(s: System<T>, a: Action<T>)
    requires Inv(s) && WellFormed(s) && Enabled(s, a)
    ensures Next(s, a).q.size == s.q.size
  {
    if a.Consume? { DequeueOutcome(s.q); }
  }

  // ----- conservation -----

  ghost predicate PublishedAt<T>(s: System<T>, l: nat) {
    exists k: nat, i: nat :: Published(s.q, k, i) && Loc(s.q.size, k, i) == l
  }

  ghost predicate ReadyAt<T>(s: System<T>, l: nat) {
    exists k: nat, i: nat :: Ready(s.q, k, i) && Loc(s.q.size, k, i) == l
  }

  /** In every state of every run: a location that was drawn is either in flight or
      published; the published ones are exactly the delivered ones and the ones still to be
      taken; nothing is delivered twice; and what is delivered for a location is the
      element that was enqueued there. */
  lemma Conservation<T(!new)>(run: seq<System<T>>, acts: seq<Action<T>>, size: nat, n: nat, j: nat)
    requires IsRun(run, acts, size, n) && j < |run|
    ensures var s := run[j];
            && (forall l: nat :: l < |s.claims| <==> InFlight(s, l) || PublishedAt(s, l))
            && (forall l: nat :: !(InFlight(s, l) && PublishedAt(s, l)))
            && (forall l: nat :: PublishedAt(s, l) <==> Delivered(s, l) || ReadyAt(s, l))
            && (forall l: nat :: !(Delivered(s, l) && ReadyAt(s, l)))
            && (forall a, b :: 0 <= a < b < |s.out| ==> s.out[a].loc != s.out[b].loc)
            && (forall a :: 0 <= a < |s.out| ==>
                  s.out[a].loc < |s.claims| && s.out[a].value == Some(s.claims[s.out[a].loc].value))
  {
    RunInv(run, acts, size, n, j);
    var s := run[j];
    forall l: nat
      ensures l < |s.claims| <==> InFlight(s, l) || PublishedAt(s, l)
      ensures !(InFlight(s, l) && PublishedAt(s, l))
      ensures PublishedAt(s, l) <==> Delivered(s, l) || ReadyAt(s, l)
      ensures !(Delivered(s, l) && ReadyAt(s, l))
    {
      LocationState(s, l);
    }
  }

  lemma LocationState<T>(s: System<T>, l: nat)
    requires Inv(s)
    ensures l < |s.claims| <==> InFlight(s, l) || PublishedAt(s, l)
    ensures !(InFlight(s, l) && PublishedAt(s, l))
    ensures PublishedAt(s, l) <==> Delivered(s, l) || ReadyAt(s, l)
    ensures !(Delivered(s, l) && ReadyAt(s, l))
  {
    if InFlight(s, l) { assert ProducerOk(s, s.claims[l].producer); }
    if l < Base(s.q.size, |s.q.pages|) {
      var k, i := FindCell(s.q.size, l, |s.q.pages|);
      CellState(s, k, i);
    } else {
      forall k: nat, i: nat | Cell(s.q, k, i) ensures Loc(s.q.size, k, i) < l {
        BaseOrder(s.q.size, k, |s.q.pages|);
      }
    }
  }

  lemma CellState<T>(s: System<T>, k: nat, i: nat)
    requires Inv(s) && k < |s.q.pages| && i < s.q.size
    ensures PublishedAt(s, Loc(s.q.size, k, i)) <==> Published(s.q, k, i)
    ensures ReadyAt(s, Loc(s.q.size, k, i)) <==> Ready(s.q, k, i)
    ensures Delivered(s, Loc(s.q.size, k, i)) <==> Gone(s.q, k, i)
    ensures !Published(s.q, k, i) && Loc(s.q.size, k, i) < |s.claims| ==> InFlight(s, Loc(s.q.size, k, i))
  {
    assert PageOk(s.q, k);
    assert Cell(s.q, k, i);
    forall k': nat, i': nat | Cell(s.q, k', i') && Loc(s.q.size, k', i') == Loc(s.q.size, k, i)
      ensures k' == k && i' == i
    {
      LocOrder(s.q.size, k, i, k', i');
    }
  }

  // ----- order -----

  ghost predicate TakesLeast<T>(s: System<T>, s': System<T>) {
    && |s'.out| == |s.out| + 1 && s'.out[..|s.out|] == s.out
    && ReadyAt(s, s'.out[|s.out|].loc)
    && forall l: nat :: ReadyAt(s, l) ==> s'.out[|s.out|].loc <= l
  }

  lemma ConsumeEffect<T>(s: System<T>)
    requires Inv(s) && WellFormed(s) && Enabled(s, Consume)
    ensures var s' := Next(s, Consume);
            if NothingFrom(s.q, s.q.headPage) then s'.out == s.out else TakesLeast(s, s')
  {
    DequeueOutcome(s.q);
    var (q', r) := Dequeue(s.q);
    if r.Some? {
      assert Ready(s.q, r.value.page, r.value.index);
    }
  }

  /** Every dequeue in a run takes the ready element of least location, or finds nothing
      under exactly the condition of `NothingFrom`. */
  lemma DequeueInRun<T(!new)>(run: seq<System<T>>, acts: seq<Action<T>>, size: nat, n: nat, j: nat)
    requires IsRun(run, acts, size, n) && j < |acts| && acts[j] == Consume
    ensures Shape(run[j].q)
    ensures if NothingFrom(run[j].q, run[j].q.headPage) then run[j + 1].out == run[j].out
            else TakesLeast(run[j], run[j + 1])
  {
    RunInv(run, acts, size, n, j);
    NextInv(run[j], acts[j], run[j + 1]);
    ConsumeEffect(run[j]);
  }

  /** Location `m` has been delivered, and before location `l` if `l` was delivered too. */
  ghost predicate DeliveredInOrder<T>(s: System<T>, m: nat, l: nat) {
    forall b :: 0 <= b < |s.out| && s.out[b].loc == l ==> exists a :: 0 <= a < b && s.out[a].loc == m
  }

  /** If an element is published at location `m` before location `l` is drawn, then the
      consumer never gets `l` unless it got `m` before. */
  lemma {:induction false} RealTimeOrder<T(!new)>(run: seq<System<T>>, acts: seq<Action<T>>, size: nat, n: nat,
                                                  i: nat, j: nat, m: nat, l: nat)
    requires IsRun(run, acts, size, n) && i <= j < |run|
    requires PublishedAt(run[i], m) && |run[i].claims| <= l
    ensures PublishedAt(run[j], m) && DeliveredInOrder(run[j], m, l)
    decreases j
  {
    RunInv(run, acts, size, n, j);
    RunInv(run, acts, size, n, i);
    LocationState(run[i], m);
    if i < j {
      RunInv(run, acts, size, n, j - 1);
      RealTimeOrder(run, acts, size, n, i, j - 1, m, l);
      NextInv(run[j - 1], acts[j - 1], run[j]);
      OrderNext(run[j - 1], acts[j - 1], m, l);
    }
  }

  lemma OrderNext<T>(s: System<T>, a: Action<T>, m: nat, l: nat)
    requires Inv(s) && WellFormed(s) && Enabled(s, a)
    requires m < l && PublishedAt(s, m) && DeliveredInOrder(s, m, l)
    ensures PublishedAt(Next(s, a), m) && DeliveredInOrder(Next(s, a), m, l)
  {
    PublishedStays(s, a, m);
    LocationState(s, m);
    if a == Consume { ConsumeEffect(s); }
    OrderStep(s, Next(s, a), m, l);
  }

  lemma PublishedStays<T>(s: System<T>, a: Action<T>, m: nat)
    requires Inv(s) && WellFormed(s) && Enabled(s, a) && PublishedAt(s, m)
    ensures PublishedAt(Next(s, a), m)
  {
    var k: nat, i: nat :| Published(s.q, k, i) && Loc(s.q.size, k, i) == m;
    match a
    case Start(_, _) =>
      TailGrows(s.q);
      assert Published(Next(s, a).q, k, i);
    case Step(j) =>
      assert ProducerOk(s, j);
      StepKeeps(s.q, s.producers[j]);
      ProducesSame(s.q, Next(s, a).q, Own(s.producers[j]));
      assert Published(Next(s, a).q, k, i);
    case Consume =>
      DequeueOutcome(s.q);
      assert Published(Next(s, a).q, k, i);
  }

  lemma OrderStep<T>(s: System<T>, s': System<T>, m: nat, l: nat)
    requires s'.out == s.out || TakesLeast(s, s')
    requires m < l && (Delivered(s, m) || ReadyAt(s, m)) && DeliveredInOrder(s, m, l)
    ensures DeliveredInOrder(s', m, l)
  {
    forall b | 0 <= b < |s'.out| && s'.out[b].loc == l ensures exists a :: 0 <= a < b && s'.out[a].loc == m {
      if b < |s.out| {
        assert s.out[b].loc == l;
        var a :| 0 <= a < b && s.out[a].loc == m;
        assert s'.out[a].loc == m;
      } else {
        var a :| 0 <= a < |s.out| && s.out[a].loc == m;
        assert s'.out[a].loc == m;
      }
    }
  }

  // ----- placement -----

  /** A producer step writes nothing but the slot of the location that this producer drew:
      slot `l % size` of the page in position `l / size + 1`. */
  lemma WritesOwnSlot<T(!new)>(run: seq<System<T>>, acts: seq<Action<T>>, size: nat, n: nat, j: nat, k: nat, c: nat)
    requires IsRun(run, acts, size, n) && j < |acts| && acts[j].Step?
    requires Cell(run[j].q, k, c) && Cell(run[j + 1].q, k, c)
    requires run[j + 1].q.pages[k].slots[c] != run[j].q.pages[k].slots[c]
    ensures var p := run[j].producers[acts[j].i];
            && p.Holding() && p.loc < |run[j].claims| && run[j].claims[p.loc] == Claim(acts[j].i, p.x)
            && run[j].q.pages[k].pos == p.loc / size + 1 && c == p.loc % size
  {
    RunInv(run, acts, size, n, j);
    NextInv(run[j], acts[j], run[j + 1]);
    var s := run[j];
    assert ProducerOk(s, acts[j].i);
    StepKeeps(s.q, s.producers[acts[j].i]);
    assert PageOk(s.q, k);
    LocIsDivMod(size, k, c);
  }

  ghost predicate Consecutive<T>(q: Queue<T>) {
    forall k :: 0 <= k < |q.pages| ==>
      && q.pages[k].pos == k + 1
      && q.pages[k].next == (if k + 1 < |q.pages| then Some(k + 1) else None)
      && q.pages[k].prev == (if k > 0 then Some(k - 1) else None)
  }

  /** Runs in which no dequeue folds a page. */
  ghost predicate FoldFree<T(!new)>(run: seq<System<T>>, acts: seq<Action<T>>)
    requires |run| == |acts| + 1
  {
    forall j :: 0 <= j < |acts| && acts[j] == Consume && Shape(run[j].q) ==> Folds(run[j].q) == {}
  }

  /** Without folds the pages stay a doubly linked list of consecutive positions, and
      tail_of_queue_ is one of them. */
  lemma {:induction false} PagesStayConsecutive<T(!new)>(run: seq<System<T>>, acts: seq<Action<T>>, size: nat,
        n: nat, j: nat)
    requires IsRun(run, acts, size, n) && FoldFree(run, acts) && j < |run|
    ensures Consecutive(run[j].q) && run[j].q.tailPage < |run[j].q.pages|
    ensures j > 0 ==> |run[j - 1].q.pages| <= |run[j].q.pages|
  {
    RunInv(run, acts, size, n, j);
    if j > 0 {
      RunInv(run, acts, size, n, j - 1);
      PagesStayConsecutive(run, acts, size, n, j - 1);
      NextInv(run[j - 1], acts[j - 1], run[j]);
      var s, a := run[j - 1], acts[j - 1];
      if a.Step? {
        assert ProducerOk(s, a.i);
        StepKeeps(s.q, s.producers[a.i]);
        StepConsecutive(s.q, s.producers[a.i]);
      } else if a == Consume {
        ConsumeConsecutive(s.q);
      }
    }
  }

  lemma ConsumeConsecutive<T>(q: Queue<T>)
    requires QueueInv(q) && Consecutive(q) && Folds(q) == {}
    ensures Consecutive(Dequeue(q).0) && |q.pages| == |Dequeue(q).0.pages|
  {
    var q' := Dequeue(q).0;
    DequeueOutcome(q);
    forall k | 0 <= k < |q'.pages|
      ensures q'.pages[k].pos == k + 1 && q'.pages[k].next == q.pages[k].next && q'.pages[k].prev == q.pages[k].prev
    {
      assert PageOk(q', k);
      DequeueRelinks(q, k);
    }
  }

  lemma StepConsecutive<T>(q: Queue<T>, p: Producer<T>)
    requires Shape(q) && InBounds(q, p) && Consecutive(q)
    ensures Consecutive(ProducerStep(q, p).0) && |q.pages| <= |ProducerStep(q, p).0.pages|
  {
    if p.Placing? || p.Raising? { assert PageOk(q, p.page); }
  }

  /** A page that has a next page keeps it: no page ever gets a second one. */
  lemma {:induction false} OneSuccessor<T(!new)>(run: seq<System<T>>, acts: seq<Action<T>>, size: nat, n: nat,
        i: nat, j: nat, k: nat)
    requires IsRun(run, acts, size, n) && FoldFree(run, acts) && i <= j < |run|
    requires k < |run[i].q.pages| && run[i].q.pages[k].next.Some?
    ensures k < |run[j].q.pages| && run[j].q.pages[k].next == run[i].q.pages[k].next
    decreases j
  {
    PagesStayConsecutive(run, acts, size, n, i);
    PagesStayConsecutive(run, acts, size, n, j);
    if i < j {
      PagesStayConsecutive(run, acts, size, n, j - 1);
      OneSuccessor(run, acts, size, n, i, j - 1, k);
    }
  }

  /** `location`, `prev_size` and `global_size` of enqueue and `prev_size` of dequeue fit an
      unsigned int. */
  lemma NoWrapAround<T(!new)>(run: seq<System<T>>, acts: seq<Action<T>>, size: nat, n: nat, j: nat, i: nat)
    requires IsRun(run, acts, size, n) && j < |run| && i < |run[j].producers|
    ensures var p := run[j].producers[i];
            && (p.Holding() ==> p.loc + size < LOCATIONS)
            && (p.Placing? ==> 0 <= p.base && p.base + size < LOCATIONS)
    ensures Base(size, run[j].q.tailPage) + size < LOCATIONS
  {
    RunInv(run, acts, size, n, j);
    assert ProducerOk(run[j], i);
    PlacingBelowTail(run, acts, size, n, j, i);
  }

  lemma {:induction false} PlacingBelowTail<T(!new)>(run: seq<System<T>>, acts: seq<Action<T>>, size: nat, n: nat,
        j: nat, i: nat)
    requires IsRun(run, acts, size, n) && j < |run| && i < |run[j].producers|
    ensures run[j].producers[i].Placing? ==> run[j].producers[i].base < |run[j].claims|
  {
    RunInv(run, acts, size, n, j);
    if j > 0 {
      RunInv(run, acts, size, n, j - 1);
      NextInv(run[j - 1], acts[j - 1], run[j]);
      PlacingBelowTail(run, acts, size, n, j - 1, i);
      PlacingNext(run[j - 1], acts[j - 1], i);
    }
  }

  lemma PlacingNext<T>(s: System<T>, a: Action<T>, i: nat)
    requires Inv(s) && WellFormed(s) && Allowed(s, a) && i < |s.producers|
    requires s.producers[i].Placing? ==> s.producers[i].base < |s.claims|
    ensures var s' := Next(s, a);
            i < |s'.producers| && (s'.producers[i].Placing? ==> s'.producers[i].base < |s'.claims|)
  {
    assert ProducerOk(s, i);
    assert PageOk(s.q, s.q.tailPage);
  }
}
