/** Every enqueue returns after a bounded number of its own steps, whatever the other producers
    and the consumer do. */
module MpscProgress {
  import opened Basics
  import opened MpscModel
  import opened MpscSystem
  import opened MpscRuns

  // ----- every action of the code keeps the pages well formed -----

  /** What a dequeue leaves alone. */
  ghost predicate SameFrame<T>(q: Queue<T>, q': Queue<T>) {
    Shape(q') && q'.size == q.size && q'.tailPage == q.tailPage && |q'.pages| == |q.pages|
  }

  lemma TakeSlotFrame<T>(q: Queue<T>, k: nat, i: nat, moved: bool)
    requires Shape(q) && k < |q.pages| && i < q.size && i < |q.pages[k].slots|
    ensures SameFrame(q, TakeSlot(q, k, i, moved))
  {
    var q' := TakeSlot(q, k, i, moved);
    forall j | 0 <= j < |q'.pages| ensures PageOk(q', j) { assert PageOk(q, j); }
  }

  lemma {:induction false} ScanFrame<T>(q: Queue<T>, k: nat, i: nat, moved: bool, all: bool)
    requires Shape(q) && k < |q.pages| && i <= q.size && (moved ==> 0 < k)
    ensures SameFrame(q, Scan(q, k, i, moved, all).0)
    decreases |q.pages| - k, q.size - i, 1
  {
    assert PageOk(q, k);
    if i < q.size {
      var f := q.pages[k].slots[i].flag;
      if f == Set {
        TakeSlotFrame(q, k, i, moved);
      } else if i + 1 < q.size {
        ScanFrame(q, k, i + 1, moved, all && f != Empty);
      } else {
        ScanNextFrame(q, k, moved, all && f != Empty);
      }
    } else {
      ScanNextFrame(q, k, moved, all);
    }
  }

  lemma {:induction false} ScanNextFrame<T>(q: Queue<T>, k: nat, moved: bool, all: bool)
    requires Shape(q) && k < |q.pages| && (moved ==> 0 < k)
    ensures SameFrame(q, ScanNext(q, k, moved, all).0)
    decreases |q.pages| - k, 0, 0
  {
    assert PageOk(q, k);
    if q.pages[k].next.Some? && !(all && moved && k == q.tailPage) {
      var n := q.pages[k].next.value;
      assert PageOk(q, n);
      if all && moved {
        UnlinkShape(q, k);
        var q1 := Unlink(q, k);
        assert PageOk(q1, n);
        ScanFrame(q1, n, q1.pages[n].head, true, true);
      } else {
        ScanFrame(q, n, q.pages[n].head, true, true);
      }
    }
  }

  lemma {:induction false} DequeueFrame<T>(q: Queue<T>)
    requires Shape(q)
    ensures SameFrame(q, Dequeue(q).0)
    decreases |q.pages| - q.headPage, q.size - q.pages[q.headPage].head
  {
    var k := q.headPage;
    var h := q.pages[k].head;
    assert PageOk(q, k);
    if k == q.tailPage && h == q.tail - Base(q.size, q.pages[q.tailPage].pos - 1) {
    } else if h < q.size {
      match q.pages[k].slots[h].flag
      case Handled =>
        SetHeadShape(q, k, h + 1);
        DequeueFrame(SetHead(q, k, h + 1));
      case Set => SetHeadShape(q, k, h + 1);
      case Empty => ScanFrame(q, k, h, false, true);
    } else if k != q.tailPage && q.pages[k].next.Some? {
      var n := q.pages[k].next.value;
      MoveHeadShape(q, n);
      DequeueFrame(q.(headPage := n));
    }
  }

  lemma LinkShape<T>(q: Queue<T>, k: nat)
    requires Shape(q) && k < |q.pages| && q.pages[k].next.None?
    ensures Shape(LinkPage(q, k)) && k + 1 == |q.pages|
  {
    var q' := LinkPage(q, k);
    assert PageOk(q, k);
    forall j | 0 <= j < |q'.pages| ensures PageOk(q', j) { if j < |q.pages| { assert PageOk(q, j); } }
  }

  lemma WriteShape<T>(q: Queue<T>, k: nat, i: nat, x: Slot<T>)
    requires Shape(q) && k < |q.pages| && i < |q.pages[k].slots|
    ensures Shape(SetSlot(q, k, i, x))
  {
    var q' := SetSlot(q, k, i, x);
    forall j | 0 <= j < |q'.pages| ensures PageOk(q', j) { assert PageOk(q, j); }
  }

  lemma TailShape<T>(q: Queue<T>, n: nat, tail: nat)
    requires Shape(q) && n < |q.pages|
    ensures Shape(q.(tailPage := n)) && Shape(q.(tail := tail))
  {
    var a, b := q.(tailPage := n), q.(tail := tail);
    forall j | 0 <= j < |q.pages| ensures PageOk(a, j) && PageOk(b, j) { assert PageOk(q, j); }
  }

  // ----- what a producer knows of its location -----

  /** A producer that has not yet loaded the page of its location, or a later one. */
  ghost predicate Ahead<T>(p: Producer<T>, size: nat) {
    p.Searching() && !p.Descending(size)
  }

  /** The pages that a producer in this phase holds lie before the page of its location. */
  ghost predicate Sound<T>(p: Producer<T>, size: nat) {
    && (p.Placing? ==> p.loc < p.base + size || p.base == Base(size, p.page))
    && (p.Advancing? || p.Extending? ==> Base(size, p.page) + size <= p.loc)
    && (p.Storing? ==> Base(size, p.page) <= p.loc)
    && (p.Swinging? ==> p.page < p.next && Base(size, p.page) + size <= p.loc)
  }

  lemma WriteKeeps<T>(q: Queue<T>, p: Producer<T>)
    requires Shape(q) && InBounds(q, p) && (p.Placing? || p.Raising?)
    ensures var q' := ProducerStep(q, p).0; Shape(q') && q'.size == q.size && |q.pages| == |q'.pages|
  {
    assert PageOk(q, p.page);
    match p
    case Placing(x, loc, back, page, base) =>
      if base <= loc < base + q.size {
        WriteShape(q, page, loc - base, q.pages[page].slots[loc - base].(data := Some(x)));
      }
    case Raising(_, _, _, page, index) => WriteShape(q, page, index, q.pages[page].slots[index].(flag := Set));
  }

  lemma LinkKeeps<T>(q: Queue<T>, p: Producer<T>)
    requires Shape(q) && InBounds(q, p) && !p.Placing? && !p.Raising?
    ensures var q' := ProducerStep(q, p).0; Shape(q') && q'.size == q.size && |q.pages| <= |q'.pages|
  {
    match p
    case Reserving(page) => if q.pages[page].next.None? { LinkShape(q, page); }
    case Extending(_, _, _, page) => if q.pages[page].next.None? { LinkShape(q, page); }
    case Storing(_, _, _, page) => TailShape(q, page, 0);
    case Swinging(_, _, _, _, next) => TailShape(q, next, 0);
    case _ =>
  }

  lemma StaysInBounds<T>(q: Queue<T>, p: Producer<T>)
    requires Shape(q) && InBounds(q, p)
    ensures var (q', p') := ProducerStep(q, p);
            Shape(q') && q'.size == q.size && |q.pages| <= |q'.pages| && InBounds(q', p')
  {
    assert PageOk(q, q.tailPage);
    if p.Placing? || p.Raising? || p.Advancing? || p.Extending? { assert PageOk(q, p.page); }
    if p.Placing? || p.Raising? { WriteKeeps(q, p); } else { LinkKeeps(q, p); }
  }

  lemma StaysSound<T>(q: Queue<T>, p: Producer<T>)
    requires Shape(q) && InBounds(q, p) && Sound(p, q.size)
    ensures Sound(ProducerStep(q, p).1, q.size)
  {
    assert PageOk(q, q.tailPage);
    if p.Placing? || p.Raising? || p.Advancing? || p.Extending? { assert PageOk(q, p.page); }
  }

  /** Whatever the code does, the pages stay well formed. */
  lemma NextWellFormed<T>(s: System<T>, a: Action<T>)
    requires WellFormed(s) && Allowed(s, a)
    ensures WellFormed(Next(s, a)) && Next(s, a).q.size == s.q.size && |Next(s, a).producers| == |s.producers|
  {
    var s' := Next(s, a);
    match a
    case Start(i, x) => TailShape(s.q, s.q.tailPage, s.q.tail + 1);
    case Step(i) => StaysInBounds(s.q, s.producers[i]);
    case Consume => DequeueFrame(s.q);
    forall j | 0 <= j < |s'.producers| ensures InBounds(s'.q, s'.producers[j]) {
      assert InBounds(s.q, s.producers[j]);
    }
  }

  /** Well-formed pages, and every producer with what it knows. */
  ghost predicate Steady<T>(s: System<T>, size: nat, n: nat) {
    && WellFormed(s) && s.q.size == size && |s.producers| == n
    && forall i :: 0 <= i < n ==> Sound(s.producers[i], size)
  }

  lemma NextSteady<T>(s: System<T>, a: Action<T>, size: nat, n: nat)
    requires Steady(s, size, n) && Allowed(s, a)
    ensures Steady(Next(s, a), size, n)
  {
    NextWellFormed(s, a);
    var s' := Next(s, a);
    forall j | 0 <= j < n ensures Sound(s'.producers[j], size) {
      assert Sound(s.producers[j], size) && InBounds(s.q, s.producers[j]);
      if a == Step(j) { StaysSound(s.q, s.producers[j]); }
    }
  }

  lemma {:induction false} RunSteady<T(!new)>(run: seq<System<T>>, acts: seq<Action<T>>, size: nat, n: nat, j: nat)
    requires FreeRun(run, acts, size, n) && j < |run|
    ensures Steady(run[j], size, n)
    ensures j < |acts| ==> Allowed(run[j], acts[j]) && run[j + 1] == Next(run[j], acts[j])
  {
    if j == 0 {
      assert PageOk(run[0].q, 0);
    } else {
      RunSteady(run, acts, size, n, j - 1);
      assert FreelyFollows(run[j - 1], acts[j - 1], run[j]);
      NextSteady(run[j - 1], acts[j - 1], size, n);
    }
    if j < |acts| { assert FreelyFollows(run[j], acts[j], run[j + 1]); }
  }

  // ----- a potential that no step raises -----

  /** Pages up to `t` that have not been linked yet. */
  function Missing(pages: nat, t: nat): nat {
    if pages <= t then t + 1 - pages else 0
  }

  /** How far tail_of_queue_ is from page `t`. */
  function Behind(tail: nat, t: nat): nat {
    if tail < t then t - tail else 0
  }

  /** A producer about to store a page up to `t` in tail_of_queue_, maybe backwards. */
  function Stores<T>(p: Producer<T>, t: nat): nat {
    if p.Storing? && p.page <= t then 1 else 0
  }

  function AllStores<T>(ps: seq<Producer<T>>, t: nat): nat {
    if ps == [] then 0 else Stores(ps[0], t) + AllStores(ps[1..], t)
  }

  lemma {:induction false} StoresUpdate<T>(ps: seq<Producer<T>>, i: nat, p: Producer<T>, t: nat)
    requires i < |ps|
    ensures AllStores(ps[i := p], t) + Stores(ps[i], t) == AllStores(ps, t) + Stores(p, t)
  {
    if i == 0 {
      assert ps[i := p][1..] == ps[1..];
    } else {
      assert ps[i := p][1..] == ps[1..][i - 1 := p];
      StoresUpdate(ps[1..], i - 1, p, t);
    }
  }

  lemma {:induction false} StoresBound<T>(ps: seq<Producer<T>>, t: nat)
    ensures AllStores(ps, t) <= |ps|
  {
    if ps != [] { StoresBound(ps[1..], t); }
  }

  /** Every missing page costs one linking and one store; every store costs the way that the
      tail has to go again. */
  function Level(pages: nat, tail: nat, stores: nat, t: nat): nat {
    Base(t + 1, Missing(pages, t) + stores) + Behind(tail, t) + Missing(pages, t)
  }

  ghost function Potential<T>(s: System<T>, t: nat): nat {
    Level(|s.q.pages|, s.q.tailPage, AllStores(s.producers, t), t)
  }

  lemma ReserveLowers(pages: nat, tail: nat, stores: nat, t: nat)
    ensures Level(pages + 1, tail, stores, t) <= Level(pages, tail, stores, t)
    ensures pages <= t ==> Level(pages + 1, tail, stores, t) < Level(pages, tail, stores, t)
  {
  }

  lemma LinkLowers(pages: nat, tail: nat, stores: nat, t: nat)
    requires pages <= t
    ensures Level(pages + 1, tail, stores + 1, t) < Level(pages, tail, stores, t)
  {
    assert Missing(pages + 1, t) + (stores + 1) == Missing(pages, t) + stores;
  }

  lemma StoreLowers(pages: nat, tail: nat, stores: nat, page: nat, t: nat)
    requires stores > 0
    ensures Level(pages, page, stores - 1, t) < Level(pages, tail, stores, t)
  {
    var m := Missing(pages, t) + stores;
    assert Base(t + 1, m) == Base(t + 1, m - 1) + (t + 1);
  }

  lemma MoveLowers(pages: nat, tail: nat, stores: nat, page: nat, t: nat)
    requires tail <= page || t <= page
    ensures Level(pages, page, stores, t) <= Level(pages, tail, stores, t)
    ensures tail < t && tail != page ==> Level(pages, page, stores, t) < Level(pages, tail, stores, t)
  {
  }

  /** The potential does not rise; it falls when the tail leaves a page before `t` and when a
      page up to `t` is linked. */
  ghost predicate Lowers<T>(s: System<T>, s': System<T>, t: nat) {
    && Potential(s', t) <= Potential(s, t)
    && |s.q.pages| <= |s'.q.pages|
    && (s.q.tailPage < t && s'.q.tailPage != s.q.tailPage ==> Potential(s', t) < Potential(s, t))
    && (|s.q.pages| <= t && |s'.q.pages| != |s.q.pages| ==> Potential(s', t) < Potential(s, t))
  }

  lemma ExtendLowers<T>(s: System<T>, i: nat, t: nat)
    requires WellFormed(s) && i < |s.producers| && (s.producers[i].Extending? || s.producers[i].Reserving?)
    ensures Lowers(s, Next(s, Step(i)), t)
  {
    var p, s' := s.producers[i], Next(s, Step(i));
    var pages, tail, stores := |s.q.pages|, s.q.tailPage, AllStores(s.producers, t);
    StoresUpdate(s.producers, i, s'.producers[i], t);
    assert InBounds(s.q, p) && PageOk(s.q, p.page);
    ReserveLowers(pages, tail, stores, t);
    if s.q.pages[p.page].next.None? && p.Extending? && pages <= t { LinkLowers(pages, tail, stores, t); }
  }

  lemma TailLowers<T>(s: System<T>, i: nat, t: nat)
    requires WellFormed(s) && i < |s.producers| && (s.producers[i].Storing? || s.producers[i].Swinging?)
    requires Sound(s.producers[i], s.q.size)
    ensures Lowers(s, Next(s, Step(i)), t)
    ensures Stores(s.producers[i], t) == 1 ==> Potential(Next(s, Step(i)), t) < Potential(s, t)
  {
    var p, s' := s.producers[i], Next(s, Step(i));
    var pages, tail, stores := |s.q.pages|, s.q.tailPage, AllStores(s.producers, t);
    StoresUpdate(s.producers, i, s'.producers[i], t);
    if p.Storing? && p.page <= t {
      StoreLowers(pages, tail, stores, p.page, t);
    } else {
      MoveLowers(pages, tail, stores, if p.Storing? then p.page else if tail == p.page then p.next else tail, t);
    }
  }

  lemma StepLowers<T>(s: System<T>, i: nat, t: nat, size: nat, n: nat)
    requires Steady(s, size, n) && i < n && Allowed(s, Step(i))
    ensures Lowers(s, Next(s, Step(i)), t)
    ensures Stores(s.producers[i], t) == 1 ==> Potential(Next(s, Step(i)), t) < Potential(s, t)
  {
    var p := s.producers[i];
    if p.Extending? || p.Reserving? {
      ExtendLowers(s, i, t);
    } else if p.Storing? || p.Swinging? {
      TailLowers(s, i, t);
    } else {
      StoresUpdate(s.producers, i, Next(s, Step(i)).producers[i], t);
    }
  }

  lemma NextLowers<T>(s: System<T>, a: Action<T>, t: nat, size: nat, n: nat)
    requires Steady(s, size, n) && Allowed(s, a)
    ensures Lowers(s, Next(s, a), t)
  {
    match a
    case Start(i, x) => StoresUpdate(s.producers, i, Seeking(x, s.q.tail, false), t);
    case Step(i) => StepLowers(s, i, t, size, n);
    case Consume => DequeueFrame(s.q);
  }

  // ----- the steps that a call still has to take -----

  /** The steps of the round that the producer is in; one that is bound to fail, because the
      tail or the last page has changed, needs four more. */
  function Round<T>(p: Producer<T>, tail: nat, pages: nat): nat {
    match p
    case Seeking(_, _, _) => 4
    case Placing(_, _, _, page, _) => if tail == page then 3 else 7
    case Advancing(_, _, _, page) => if tail == page then 2 else 6
    case Swinging(_, _, _, page, _) => if tail == page then 1 else 5
    case Extending(_, _, _, page) => if pages == page + 1 then 1 else 5
    case Storing(_, _, _, _) => 1
    case _ => 0
  }

  /** A bound on the steps until the producer loads its page or a later one. */
  ghost function Left<T>(s: System<T>, i: nat, t: nat): nat
    requires i < |s.producers|
  {
    4 * Potential(s, t) + Round(s.producers[i], s.q.tailPage, |s.q.pages|)
  }

  /** A bound on the steps after that. */
  function Down<T>(p: Producer<T>): nat {
    if p.Placing? then p.page + 3 else if p.Raising? then 2 else if p.Reserving? then 1 else 0
  }

  ghost predicate OnPage(size: nat, loc: nat, t: nat) {
    Base(size, t) <= loc < Base(size, t) + size
  }

  lemma PageBefore(size: nat, k: nat, loc: nat, t: nat)
    requires OnPage(size, loc, t)
    ensures Base(size, k) + size <= loc ==> k < t
    ensures Base(size, k) <= loc ==> k <= t
  {
    if t < k { BaseOrder(size, t, k); }
  }

  /** The others cannot make a call longer. */
  lemma OthersNeverDelay<T>(s: System<T>, s': System<T>, i: nat, t: nat, size: nat)
    requires i < |s.producers| == |s'.producers| && s'.producers[i] == s.producers[i] && Lowers(s, s', t)
    requires var p := s.producers[i]; Ahead(p, size) && Sound(p, size) && OnPage(size, p.loc, t)
    ensures Left(s', i, t) <= Left(s, i, t)
  {
    var p := s.producers[i];
    if !p.Seeking? { PageBefore(size, p.page, p.loc, t); }
  }

  /** An own step of a producer that is still ahead makes the call shorter, or loads its page
      or a later one. */
  lemma OwnStepCounts<T>(s: System<T>, i: nat, t: nat, size: nat, n: nat)
    requires Steady(s, size, n) && i < n && Allowed(s, Step(i))
    requires var p := s.producers[i]; Ahead(p, size) && OnPage(size, p.loc, t)
    ensures var p, p' := s.producers[i], Next(s, Step(i)).producers[i];
            if Ahead(p', size) then p'.loc == p.loc && Left(Next(s, Step(i)), i, t) < Left(s, i, t)
            else p.Seeking? && p'.Placing? && p'.page == s.q.tailPage
  {
    var p := s.producers[i];
    StepLowers(s, i, t, size, n);
    assert Sound(p, size) && InBounds(s.q, p);
    assert PageOk(s.q, s.q.tailPage);
    if !p.Seeking? {
      PageBefore(size, p.page, p.loc, t);
      assert PageOk(s.q, p.page);
    }
  }

  lemma DownStep<T>(q: Queue<T>, p: Producer<T>)
    requires Shape(q) && InBounds(q, p) && !Ahead(p, q.size) && !p.Idle? && !p.Crashed?
    ensures var p' := ProducerStep(q, p).1; !Ahead(p', q.size) && Down(p') < Down(p)
  {
    if p.Placing? || p.Raising? { assert PageOk(q, p.page); }
  }

  // ----- whole calls -----

  /** The steps of producer `i` from state `a` to state `b` of a run. */
  function StepsOf<T>(acts: seq<Action<T>>, i: nat, a: nat, b: nat): nat
    requires b <= |acts|
    decreases b
  {
    if b <= a then 0 else StepsOf(acts, i, a, b - 1) + if acts[b - 1].Step? && acts[b - 1].i == i then 1 else 0
  }

  /** Producer `i` starts no other call in between. */
  ghost predicate OneCall<T>(acts: seq<Action<T>>, i: nat, a: nat, b: nat)
    requires b <= |acts|
  {
    forall j :: a <= j < b ==> !(acts[j].Start? && acts[j].i == i)
  }

  /** The account of a call that began at `s0` and stands at `s` after `k` own steps. */
  ghost predicate Account<T>(s0: System<T>, s: System<T>, i: nat, t: nat, k: nat, size: nat)
    requires i < |s0.producers| && i < |s.producers|
  {
    var p := s.producers[i];
    if Ahead(p, size) then OnPage(size, p.loc, t) && k + Left(s, i, t) <= Left(s0, i, t)
    else k + Down(p) <= Left(s0, i, t) + |s.q.pages|
  }

  lemma AccountNext<T>(s0: System<T>, s: System<T>, a: Action<T>, i: nat, t: nat, k: nat, size: nat, n: nat)
    requires Steady(s, size, n) && i < n && i < |s0.producers| && Account(s0, s, i, t, k, size)
    requires Allowed(s, a) && !(a.Start? && a.i == i)
    ensures var own := if a.Step? && a.i == i then 1 else 0;
            |Next(s, a).producers| == n && Account(s0, Next(s, a), i, t, k + own, size)
  {
    NextSteady(s, a, size, n);
    NextLowers(s, a, t, size, n);
    var p := s.producers[i];
    if a == Step(i) {
      if Ahead(p, size) {
        OwnStepCounts(s, i, t, size, n);
        assert s.q.tailPage < |s.q.pages|;
      } else {
        assert InBounds(s.q, p);
        DownStep(s.q, p);
      }
    } else {
      assert Next(s, a).producers[i] == p;
      if Ahead(p, size) {
        assert Sound(p, size);
        OthersNeverDelay(s, Next(s, a), i, t, size);
      }
    }
  }

  lemma {:induction false} CallAccount<T(!new)>(run: seq<System<T>>, acts: seq<Action<T>>, size: nat, n: nat,
        a: nat, b: nat, i: nat, t: nat)
    requires FreeRun(run, acts, size, n) && a <= b < |run| && i < n && OneCall(acts, i, a, b)
    ensures |run[a].producers| == |run[b].producers| == n
    ensures run[a].producers[i].Seeking? && OnPage(size, run[a].producers[i].loc, t) ==>
              Account(run[a], run[b], i, t, StepsOf(acts, i, a, b), size)
    decreases b
  {
    RunSteady(run, acts, size, n, a);
    RunSteady(run, acts, size, n, b);
    if a < b {
      CallAccount(run, acts, size, n, a, b - 1, i, t);
      RunSteady(run, acts, size, n, b - 1);
      if run[a].producers[i].Seeking? && OnPage(size, run[a].producers[i].loc, t) {
        AccountNext(run[a], run[b - 1], acts[b - 1], i, t, StepsOf(acts, i, a, b - 1), size, n);
      }
    }
  }

  /** The number of steps of a call for a location on page `t`, with `n` producers, before it
      loads that page or a later one. */
  function Bound(t: nat, n: nat): nat {
    4 * ((t + 1) * (t + n) + 2 * t + 1)
  }

  lemma {:induction false} BaseGrows(size: nat, a: nat, b: nat)
    requires a <= b
    ensures Base(size, a) <= Base(size, b)
  {
    if a < b { BaseGrows(size, a, b - 1); }
  }

  lemma PotentialBound<T>(s: System<T>, t: nat)
    requires Shape(s.q)
    ensures Potential(s, t) <= (t + 1) * (t + |s.producers|) + 2 * t
  {
    var stores := AllStores(s.producers, t);
    StoresBound(s.producers, t);
    BaseGrows(t + 1, Missing(|s.q.pages|, t) + stores, t + |s.producers|);
    BaseIsProduct(t + 1, t + |s.producers|);
  }

  lemma LeftBound<T>(s: System<T>, i: nat, t: nat)
    requires Shape(s.q) && i < |s.producers| && s.producers[i].Seeking?
    ensures Left(s, i, t) <= Bound(t, |s.producers|)
  {
    PotentialBound(s, t);
  }

  lemma AccountEnds<T>(s0: System<T>, s: System<T>, i: nat, t: nat, k: nat, size: nat, bound: nat)
    requires i < |s0.producers| && i < |s.producers| && Account(s0, s, i, t, k, size) && Left(s0, i, t) <= bound
    ensures k <= bound + |s.q.pages|
    ensures s.producers[i].Idle? || s.producers[i].Crashed? || k < bound + |s.q.pages| || |s.q.pages| == 0
  {
  }

  /** Every enqueue is wait-free: while it has not returned, it has taken fewer steps than a
      bound in the page of its location, the number of producers and the number of pages. */
  lemma EnqueueIsWaitFree<T(!new)>(run: seq<System<T>>, acts: seq<Action<T>>, size: nat, n: nat,
        a: nat, b: nat, i: nat, t: nat)
    requires FreeRun(run, acts, size, n) && a <= b < |run| && i < n && OneCall(acts, i, a, b)
    requires |run[a].producers| == n && run[a].producers[i].Seeking? && OnPage(size, run[a].producers[i].loc, t)
    ensures |run[b].producers| == n
    ensures StepsOf(acts, i, a, b) <= Bound(t, n) + |run[b].q.pages|
    ensures var p := run[b].producers[i];
            p.Idle? || p.Crashed? || StepsOf(acts, i, a, b) < Bound(t, n) + |run[b].q.pages|
  {
    CallAccount(run, acts, size, n, a, b, i, t);
    RunSteady(run, acts, size, n, a);
    RunSteady(run, acts, size, n, b);
    LeftBound(run[a], i, t);
    AccountEnds(run[a], run[b], i, t, StepsOf(acts, i, a, b), size, Bound(t, n));
  }

  /** In the runs without unsafe folds no call fails, so every enqueue returns. */
  lemma EnqueueReturns<T(!new)>(run: seq<System<T>>, acts: seq<Action<T>>, size: nat, n: nat,
        a: nat, b: nat, i: nat, t: nat)
    requires IsRun(run, acts, size, n) && a <= b < |run| && i < n && OneCall(acts, i, a, b)
    requires |run[a].producers| == n && run[a].producers[i].Seeking? && OnPage(size, run[a].producers[i].loc, t)
    ensures |run[b].producers| == n
    ensures StepsOf(acts, i, a, b) >= Bound(t, n) + |run[b].q.pages| ==> run[b].producers[i].Idle?
  {
    RunIsFree(run, acts, size, n);
    EnqueueIsWaitFree(run, acts, size, n, a, b, i, t);
    RunInv(run, acts, size, n, b);
    assert ProducerOk(run[b], i);
  }
}
