/** Any number of producers and one consumer on the paged queue: every interleaving of the
    producers' atomic actions, with one whole dequeue as one step. */
module MpscSystem {
  import opened Basics
  import opened MpscModel
  import opened MpscConsumer

  /** `claims[l]` records who drew location `l` from tail_ and for which element;
      `out` records what the consumer was given.  Both are history only. */
  datatype Claim<+T> = Claim(producer: nat, value: T)

  datatype Delivery<+T> = Delivery(loc: nat, value: Option<T>)

  datatype System<+T> = System(q: Queue<T>, producers: seq<Producer<T>>, claims: seq<Claim<T>>, out: seq<Delivery<T>>)

  datatype Action<+T> = Start(i: nat, x: T) | Step(i: nat) | Consume

  const LOCATIONS: nat := 0x1_0000_0000

  function Init<T>(size: nat, n: nat): System<T> {
    System(EmptyQueue(size), seq(n, _ => Idle), [], [])
  }

  /** Every page from `m` down to the page of the location points to the page before it. */
  ghost predicate Straight<T>(q: Queue<T>, m: nat, loc: nat) {
    forall k :: 0 < k <= m && k < |q.pages| && loc < Base(q.size, k) ==> q.pages[k].prev == Some(k - 1)
  }

  /** The dequeue folds no page behind the location whose successor a walk from `m` passes. */
  ghost predicate Harmless<T>(q: Queue<T>, loc: nat, m: nat)
    requires Shape(q)
  {
    forall k :: k in Folds(q) && Foldable(q, k) && loc < Base(q.size, k) ==> m < q.pages[k].next.value
  }

  /** No dequeue folds a page away in front of a producer that is walking back. */
  ghost predicate FoldIsSafe<T>(s: System<T>)
    requires Shape(s.q)
  {
    forall i :: 0 <= i < |s.producers| && s.producers[i].Descending(s.q.size) ==>
      Harmless(s.q, s.producers[i].loc, s.producers[i].page)
  }

  /** A producer that loads tail_of_queue_ finds the way back to its location. */
  ghost predicate WalkIsSafe<T>(q: Queue<T>, p: Producer<T>) {
    p.Seeking? ==> Straight(q, q.tailPage, p.loc)
  }

  /** What the code can do next. */
  ghost predicate Allowed<T>(s: System<T>, a: Action<T>) {
    match a
    case Start(i, _) => i < |s.producers| && s.producers[i].Idle? && s.q.tail + s.q.size < LOCATIONS
    case Step(i) => i < |s.producers| && !s.producers[i].Idle? && !s.producers[i].Crashed?
    case Consume => true
  }

  /** The same, without the walks back that lose count. */
  ghost predicate Enabled<T>(s: System<T>, a: Action<T>) {
    && Allowed(s, a)
    && (a.Consume? ==> Shape(s.q) && FoldIsSafe(s))
    && (a.Step? ==> WalkIsSafe(s.q, s.producers[a.i]))
  }

  ghost predicate WellFormed<T>(s: System<T>) {
    Shape(s.q) && forall i :: 0 <= i < |s.producers| ==> InBounds(s.q, s.producers[i])
  }

  ghost function Next<T>(s: System<T>, a: Action<T>): System<T>
    requires WellFormed(s) && Allowed(s, a)
  {
    match a
    case Start(i, x) =>
      s.(q := s.q.(tail := s.q.tail + 1),
         producers := s.producers[i := Seeking(x, s.q.tail, false)],
         claims := s.claims + [Claim(i, x)])
    case Step(i) =>
      var (q', p') := ProducerStep(s.q, s.producers[i]);
      s.(q := q', producers := s.producers[i := p'])
    case Consume =>
      var (q', r) := Dequeue(s.q);
      s.(q := q',
         out := if r.None? then s.out
                else s.out + [Delivery(Loc(s.q.size, r.value.page, r.value.index), r.value.data)])
  }

  // ----- the invariant -----

  ghost predicate Unset<T>(q: Queue<T>, loc: nat) {
    forall k: nat, i: nat :: Cell(q, k, i) && Loc(q.size, k, i) == loc ==> !Published(q, k, i)
  }

  /** The bookkeeping of one producer fits the queue. */
  ghost predicate LocalOk<T>(q: Queue<T>, p: Producer<T>) {
    && InBounds(q, p) && !p.Crashed?
    && (p.Holding() ==> p.loc < q.tail && Unset(q, p.loc))
    && (p.Descending(q.size) ==> Straight(q, p.page, p.loc))
    && (p.Placing? ==> p.base == Base(q.size, p.page))
    && (p.Raising? ==> Loc(q.size, p.page, p.index) == p.loc && Cell(q, p.page, p.index)
                       && q.pages[p.page].slots[p.index].data == Some(p.x))
    && (p.Advancing? || p.Extending? ==> Base(q.size, p.page) + q.size <= p.loc)
    && (p.Storing? ==> Base(q.size, p.page) <= p.loc)
    && (p.Swinging? ==> Base(q.size, p.next) <= p.loc)
  }

  ghost predicate ProducerOk<T>(s: System<T>, i: nat)
    requires i < |s.producers|
  {
    var p := s.producers[i];
    LocalOk(s.q, p) && (p.Holding() ==> p.loc < |s.claims| && s.claims[p.loc] == Claim(i, p.x))
  }

  /** Location `l` is still owned by the producer that drew it. */
  ghost predicate InFlight<T>(s: System<T>, l: nat) {
    && l < |s.claims| && s.claims[l].producer < |s.producers|
    && s.producers[s.claims[l].producer].Holding() && s.producers[s.claims[l].producer].loc == l
  }

  ghost predicate Delivered<T>(s: System<T>, l: nat) {
    exists a :: 0 <= a < |s.out| && s.out[a].loc == l
  }

  /** Every location drawn so far is in flight or published. */
  ghost predicate Covered<T>(s: System<T>) {
    && (forall k: nat, i: nat :: Cell(s.q, k, i) && Loc(s.q.size, k, i) < s.q.tail && !Published(s.q, k, i)
                                 ==> InFlight(s, Loc(s.q.size, k, i)))
    && (forall l :: Base(s.q.size, |s.q.pages|) <= l < s.q.tail ==> InFlight(s, l))
  }

  ghost predicate ElementsOk<T>(s: System<T>) {
    forall k: nat, i: nat :: Published(s.q, k, i)
                             ==> Loc(s.q.size, k, i) < |s.claims|
                                 && s.q.pages[k].slots[i].data == Some(s.claims[Loc(s.q.size, k, i)].value)
  }

  ghost predicate OutputOk<T>(s: System<T>) {
    && (forall a, b :: 0 <= a < b < |s.out| ==> s.out[a].loc != s.out[b].loc)
    && (forall a :: 0 <= a < |s.out| ==>
          && s.out[a].loc < |s.claims|
          && s.out[a].value == Some(s.claims[s.out[a].loc].value)
          && s.out[a].loc < Base(s.q.size, |s.q.pages|))
    && (forall k: nat, i: nat :: Cell(s.q, k, i) ==> (Gone(s.q, k, i) <==> Delivered(s, Loc(s.q.size, k, i))))
  }

  ghost predicate Inv<T>(s: System<T>) {
    && QueueInv(s.q)
    && |s.claims| == s.q.tail
    && s.q.tail + s.q.size <= LOCATIONS
    && (s.q.tailPage == 0 || Base(s.q.size, s.q.tailPage) < s.q.tail)
    && (forall i :: 0 <= i < |s.producers| ==> ProducerOk(s, i))
    && Covered(s)
    && ElementsOk(s)
    && OutputOk(s)
  }

  // ----- what a producer step changes -----

  /** Only the cell of location `w` may change; pages may be added; links only appear. */
  ghost predicate Produces<T>(q: Queue<T>, q': Queue<T>, w: int) {
    && q'.size == q.size && q'.tail == q.tail && q'.headPage == q.headPage && |q.pages| <= |q'.pages|
    && (forall k :: 0 <= k < |q.pages| ==>
          && q'.pages[k].head == q.pages[k].head && q'.pages[k].prev == q.pages[k].prev
          && |q'.pages[k].slots| == |q.pages[k].slots|)
    && (forall k :: |q.pages| <= k < |q'.pages| ==> q'.pages[k].head == 0 && q'.pages[k].prev == Some(k - 1))
    && (forall k: nat, i: nat :: Cell(q, k, i) && Loc(q.size, k, i) != w ==>
          q'.pages[k].slots[i] == q.pages[k].slots[i])
    && (forall k: nat, i: nat :: Cell(q, k, i) && Loc(q.size, k, i) == w ==>
          !Published(q, k, i) && !Gone(q, k, i) && !Gone(q', k, i))
    && (forall k: nat, i: nat :: Cell(q', k, i) && |q.pages| <= k ==> !Published(q', k, i))
  }

  lemma ProducesSame<T>(q: Queue<T>, q': Queue<T>, w: int)
    requires QueueInv(q) && Produces(q, q', w)
    ensures forall k: nat, i: nat :: Gone(q', k, i) <==> Gone(q, k, i)
    ensures forall k: nat, i: nat :: Published(q, k, i) ==>
              Published(q', k, i) && q'.pages[k].slots[i] == q.pages[k].slots[i]
    ensures forall k: nat, i: nat :: Published(q', k, i) ==>
              Published(q, k, i) || (Cell(q, k, i) && Loc(q.size, k, i) == w)
    ensures forall k: nat :: Done(q, k) ==> Done(q', k)
  {
    forall k: nat | Done(q, k) ensures Done(q', k) {
      forall i | 0 <= i < q'.size ensures Gone(q', k, i) { assert Gone(q, k, i); }
    }
  }

  lemma ProducesInv<T>(q: Queue<T>, q': Queue<T>, w: int)
    requires QueueInv(q) && Produces(q, q', w) && Shape(q') && w < q.tail
    requires forall k :: 0 <= k < |q.pages| && q.pages[k].next.Some? ==> q'.pages[k].next == q.pages[k].next
    requires forall k :: 0 <= k < |q'.pages| && q'.pages[k].next.Some? && !(k < |q.pages| && q.pages[k].next.Some?)
                         ==> q'.pages[k].next == Some(k + 1)
    ensures QueueInv(q')
  {
    ProducesSame(q, q', w);
    forall k | 0 <= k < |q'.pages| ensures LinksOk(q', k) {
      if k < |q.pages| { assert LinksOk(q, k); }
    }
  }

  /** Writing to the unset cell of location `w`. */
  lemma WriteCell<T>(q: Queue<T>, k: nat, i: nat, x: Slot<T>)
    requires QueueInv(q) && Cell(q, k, i) && !Published(q, k, i) && x.flag != Handled && Loc(q.size, k, i) < q.tail
    ensures var q' := SetSlot(q, k, i, x); QueueInv(q') && Produces(q, q', Loc(q.size, k, i))
  {
    var q' := SetSlot(q, k, i, x);
    assert PageOk(q, k);
    assert Shape(q') by {
      forall j | 0 <= j < |q'.pages| ensures PageOk(q', j) { assert PageOk(q, j); }
    }
    assert !Gone(q, k, i);
    forall k': nat, i': nat | Cell(q, k', i') ensures Loc(q.size, k', i') == Loc(q.size, k, i) <==> k' == k && i' == i {
      LocOrder(q.size, k, i, k', i');
    }
    ProducesInv(q, q', Loc(q.size, k, i));
  }

  lemma LinkCell<T>(q: Queue<T>, k: nat)
    requires QueueInv(q) && k < |q.pages| && q.pages[k].next.None?
    ensures QueueInv(LinkPage(q, k)) && Produces(q, LinkPage(q, k), -1)
  {
    var q' := LinkPage(q, k);
    assert PageOk(q, k);
    assert Shape(q') by {
      forall j | 0 <= j < |q'.pages| ensures PageOk(q', j) { if j < |q.pages| { assert PageOk(q, j); } }
    }
    ProducesInv(q, q', -1);
  }

  lemma MoveTail<T>(q: Queue<T>, n: nat)
    requires QueueInv(q) && n < |q.pages|
    ensures QueueInv(q.(tailPage := n)) && Produces(q, q.(tailPage := n), -1)
  {
    var q' := q.(tailPage := n);
    assert Shape(q') by {
      forall j | 0 <= j < |q'.pages| ensures PageOk(q', j) { assert PageOk(q, j); }
    }
    ProducesInv(q, q', -1);
  }

  /** A location below `Base(size, n)` has a page and a slot. */
  lemma {:induction false} FindCell(size: nat, l: nat, n: nat) returns (k: nat, i: nat)
    requires l < Base(size, n)
    ensures k < n && i < size && Loc(size, k, i) == l
  {
    if Base(size, n - 1) <= l {
      k, i := n - 1, l - Base(size, n - 1);
    } else {
      k, i := FindCell(size, l, n - 1);
    }
  }

  // ----- one producer step keeps the invariant -----

  ghost function Own<T>(p: Producer<T>): int {
    if p.Holding() then p.loc else -1
  }

  /** A step of producer `p` on the queue: it touches only its own cell, keeps its own
      bookkeeping right, and keeps its location until the cell is published. */
  ghost predicate StepOk<T>(q: Queue<T>, p: Producer<T>, q': Queue<T>, p': Producer<T>) {
    && QueueInv(q') && Produces(q, q', Own(p)) && LocalOk(q', p')
    && (p'.Holding() ==> p.Holding() && p'.loc == p.loc && p'.x == p.x)
    && (p.Holding() && !p'.Holding() ==> exists k: nat, i: nat :: Published(q', k, i) && Loc(q.size, k, i) == p.loc)
    && (forall k: nat, i: nat :: Published(q', k, i) && !Published(q, k, i)
                                 ==> p.Holding() && Loc(q.size, k, i) == p.loc
                                     && q'.pages[k].slots[i].data == Some(p.x))
    && (q'.tailPage == q.tailPage || (p.Holding() && Base(q.size, q'.tailPage) <= p.loc))
  }

  /** A step that writes no cell only has to get its own page numbers right. */
  lemma QuietStep<T>(q: Queue<T>, p: Producer<T>, q': Queue<T>)
    requires QueueInv(q) && LocalOk(q, p) && Shape(q') && Produces(q, q', -1)
    ensures Produces(q, q', Own(p))
    ensures forall k: nat, i: nat :: Published(q', k, i) <==> Published(q, k, i)
    ensures p.Holding() ==> Unset(q', p.loc)
    ensures p.Descending(q.size) ==> Straight(q', p.page, p.loc)
  {
    ProducesSame(q, q', -1);
  }

  lemma SameQueue<T>(q: Queue<T>, p: Producer<T>, p': Producer<T>)
    requires QueueInv(q) && LocalOk(q, p) && LocalOk(q, p')
    requires p.Holding() ==> p'.Holding()
    requires p'.Holding() ==> p.Holding() && p'.loc == p.loc && p'.x == p.x
    ensures StepOk(q, p, q, p')
  {
    QuietStep(q, p, q);
  }

  lemma GapIsPublished<T>(q: Queue<T>, k: nat, n: nat, j: nat, i: nat)
    requires QueueInv(q) && k < |q.pages| && q.pages[k].next == Some(n) && k < j < n && i < q.size
    ensures Cell(q, j, i) && Published(q, j, i)
  {
    assert PageOk(q, k) && LinksOk(q, k);
    assert Done(q, j);
    assert Gone(q, j, i);
  }

  /** The next page of a page before an unset location is still not behind it. */
  lemma NextIsNotPast<T>(q: Queue<T>, k: nat, n: nat, l: nat)
    requires QueueInv(q) && k < |q.pages| && q.pages[k].next == Some(n)
    requires Unset(q, l) && Base(q.size, k) + q.size <= l
    ensures Base(q.size, n) <= l
  {
    assert PageOk(q, k) && LinksOk(q, k);
    if l < Base(q.size, n) {
      var j, i := FindCell(q.size, l, n);
      if j < k { BaseOrder(q.size, j, k); }
      if k < j { GapIsPublished(q, k, n, j, i); }
    }
  }

  lemma StepFound<T>(q: Queue<T>, p: Producer<T>)
    requires QueueInv(q) && LocalOk(q, p) && p.Placing? && p.base <= p.loc < p.base + q.size
    ensures var (q', p') := ProducerStep(q, p); StepOk(q, p, q', p')
  {
    var i := p.loc - p.base;
    assert PageOk(q, p.page);
    assert Cell(q, p.page, i) && Loc(q.size, p.page, i) == p.loc;
    WriteCell(q, p.page, i, q.pages[p.page].slots[i].(data := Some(p.x)));
  }

  lemma StepBack<T>(q: Queue<T>, p: Producer<T>)
    requires QueueInv(q) && LocalOk(q, p) && p.Placing? && p.loc < p.base
    ensures var (q', p') := ProducerStep(q, p); StepOk(q, p, q', p') && p'.Placing? && p'.page == p.page - 1
  {
    assert PageOk(q, p.page);
    assert q.pages[p.page].prev == Some(p.page - 1);
    SameQueue(q, p, Placing(p.x, p.loc, true, p.page - 1, p.base - q.size));
  }

  lemma StepRaise<T>(q: Queue<T>, p: Producer<T>)
    requires QueueInv(q) && LocalOk(q, p) && p.Raising?
    ensures var (q', p') := ProducerStep(q, p); StepOk(q, p, q', p')
  {
    assert PageOk(q, p.page);
    WriteCell(q, p.page, p.index, q.pages[p.page].slots[p.index].(flag := Set));
    var (q', p') := ProducerStep(q, p);
    assert Published(q', p.page, p.index);
    forall k: nat, i: nat | Published(q', k, i) && !Published(q, k, i)
      ensures k == p.page && i == p.index
    {
      LocOrder(q.size, k, i, p.page, p.index);
    }
  }

  lemma StepReserve<T>(q: Queue<T>, p: Producer<T>)
    requires QueueInv(q) && LocalOk(q, p) && p.Reserving? && q.pages[p.page].next.None?
    ensures StepOk(q, p, LinkPage(q, p.page), Idle)
  {
    LinkCell(q, p.page);
    QuietStep(q, p, LinkPage(q, p.page));
  }

  lemma StepExtend<T>(q: Queue<T>, p: Producer<T>)
    requires QueueInv(q) && LocalOk(q, p) && p.Extending? && q.pages[p.page].next.None?
    ensures StepOk(q, p, LinkPage(q, p.page), Storing(p.x, p.loc, p.back, |q.pages|))
  {
    assert PageOk(q, p.page);
    LinkCell(q, p.page);
    QuietStep(q, p, LinkPage(q, p.page));
  }

  lemma StepAdvance<T>(q: Queue<T>, p: Producer<T>)
    requires QueueInv(q) && LocalOk(q, p) && p.Advancing?
    ensures var (q', p') := ProducerStep(q, p); StepOk(q, p, q', p')
  {
    assert PageOk(q, p.page);
    if q.pages[p.page].next.Some? {
      NextIsNotPast(q, p.page, q.pages[p.page].next.value, p.loc);
    }
    SameQueue(q, p, ProducerStep(q, p).1);
  }

  lemma StepTail<T>(q: Queue<T>, p: Producer<T>)
    requires QueueInv(q) && LocalOk(q, p) && (p.Storing? || p.Swinging?)
    ensures var (q', p') := ProducerStep(q, p); StepOk(q, p, q', p')
  {
    var n := if p.Storing? then p.page else if q.tailPage == p.page then p.next else q.tailPage;
    MoveTail(q, n);
    QuietStep(q, p, q.(tailPage := n));
  }

  lemma StepStay<T>(q: Queue<T>, p: Producer<T>)
    requires QueueInv(q) && LocalOk(q, p)
    requires WalkIsSafe(q, p)
    requires p.Seeking? || (p.Placing? && p.base + q.size <= p.loc)
             || ((p.Reserving? || p.Extending?) && q.pages[p.page].next.Some?)
    ensures var (q', p') := ProducerStep(q, p); StepOk(q, p, q', p')
  {
    assert PageOk(q, q.tailPage);
    SameQueue(q, p, ProducerStep(q, p).1);
  }

  lemma StepKeeps<T>(q: Queue<T>, p: Producer<T>)
    requires QueueInv(q) && LocalOk(q, p) && !p.Idle? && WalkIsSafe(q, p)
    ensures var (q', p') := ProducerStep(q, p); StepOk(q, p, q', p')
  {
    if p.Placing? && p.loc < p.base { StepBack(q, p); }
    else if p.Placing? && p.loc < p.base + q.size { StepFound(q, p); }
    else if p.Raising? { StepRaise(q, p); }
    else if p.Reserving? && q.pages[p.page].next.None? { StepReserve(q, p); }
    else if p.Extending? && q.pages[p.page].next.None? { StepExtend(q, p); }
    else if p.Advancing? { StepAdvance(q, p); }
    else if p.Storing? || p.Swinging? { StepTail(q, p); }
    else { StepStay(q, p); }
  }

  lemma OthersKeep<T>(s: System<T>, i: nat, q': Queue<T>, p': Producer<T>, j: nat)
    requires Inv(s) && i < |s.producers| && StepOk(s.q, s.producers[i], q', p')
    requires j < |s.producers| && j != i
    ensures LocalOk(q', s.producers[j])
  {
    assert ProducerOk(s, i) && ProducerOk(s, j);
    var w := Own(s.producers[i]);
    ProducesSame(s.q, q', w);
    var p := s.producers[j];
    if p.Holding() {
      assert p.loc != w;
      assert Unset(q', p.loc);
    }
  }

  lemma CoveredStep<T>(s: System<T>, i: nat, q': Queue<T>, p': Producer<T>)
    requires Inv(s) && i < |s.producers| && StepOk(s.q, s.producers[i], q', p')
    ensures Covered(s.(q := q', producers := s.producers[i := p']))
  {
    var s' := s.(q := q', producers := s.producers[i := p']);
    var p := s.producers[i];
    ProducesSame(s.q, q', Own(p));
    forall l: nat | InFlight(s, l) && (p.Holding() && l == p.loc ==> p'.Holding()) ensures InFlight(s', l) {
      if s.claims[l].producer == i { assert p.loc == l; }
    }
    forall k: nat, j: nat | Cell(q', k, j) && Loc(q'.size, k, j) < q'.tail && !Published(q', k, j)
      ensures InFlight(s', Loc(q'.size, k, j))
    {
      CellWasInFlight(s, q', k, j);
      StillHeld(s.q, p, q', p', k, j);
    }
    forall l | Base(q'.size, |q'.pages|) <= l < q'.tail ensures InFlight(s', l) {
      BasesGrow(q'.size, |s.q.pages|, |q'.pages|);
      assert InFlight(s, l);
      BeyondIsHeld(s.q, p, q', p', l);
    }
  }

  lemma BasesGrow(size: nat, a: nat, b: nat)
    requires a <= b
    ensures Base(size, a) <= Base(size, b)
  {
    if a < b { BaseOrder(size, a, b); }
  }

  lemma CellWasInFlight<T>(s: System<T>, q': Queue<T>, k: nat, j: nat)
    requires Inv(s) && Cell(q', k, j) && q'.size == s.q.size && Loc(s.q.size, k, j) < s.q.tail
    requires |s.q.pages| <= |q'.pages|
    requires Published(s.q, k, j) ==> Published(q', k, j)
    requires !Published(q', k, j)
    ensures InFlight(s, Loc(s.q.size, k, j))
  {
    if k < |s.q.pages| {
      assert PageOk(s.q, k);
      assert Cell(s.q, k, j);
    } else {
      BasesGrow(s.q.size, |s.q.pages|, k);
    }
  }

  /** An unpublished cell is not the one its producer has just left. */
  lemma StillHeld<T>(q: Queue<T>, p: Producer<T>, q': Queue<T>, p': Producer<T>, k: nat, j: nat)
    requires StepOk(q, p, q', p') && Cell(q', k, j) && !Published(q', k, j)
    ensures p.Holding() && Loc(q.size, k, j) == p.loc ==> p'.Holding()
  {
    if p.Holding() && Loc(q.size, k, j) == p.loc && !p'.Holding() {
      var k': nat, i': nat :| Published(q', k', i') && Loc(q.size, k', i') == p.loc;
      LocOrder(q.size, k, j, k', i');
    }
  }

  lemma BeyondIsHeld<T>(q: Queue<T>, p: Producer<T>, q': Queue<T>, p': Producer<T>, l: nat)
    requires StepOk(q, p, q', p') && Base(q.size, |q'.pages|) <= l
    ensures p.Holding() && l == p.loc ==> p'.Holding()
  {
    if p.Holding() && l == p.loc && !p'.Holding() {
      var k': nat, i': nat :| Published(q', k', i') && Loc(q.size, k', i') == p.loc;
      BaseOrder(q.size, k', |q'.pages|);
    }
  }

  lemma OutputStep<T>(s: System<T>, i: nat, q': Queue<T>, p': Producer<T>)
    requires Inv(s) && i < |s.producers| && StepOk(s.q, s.producers[i], q', p')
    ensures OutputOk(s.(q := q', producers := s.producers[i := p']))
  {
    var s' := s.(q := q', producers := s.producers[i := p']);
    ProducesSame(s.q, q', Own(s.producers[i]));
    BasesGrow(q'.size, |s.q.pages|, |q'.pages|);
    forall k: nat, j: nat | Cell(q', k, j)
      ensures Gone(q', k, j) <==> Delivered(s', Loc(q'.size, k, j))
    {
      assert Delivered(s', Loc(q'.size, k, j)) <==> Delivered(s, Loc(q'.size, k, j));
      if k < |s.q.pages| {
        assert PageOk(s.q, k);
        assert Cell(s.q, k, j);
      } else {
        BasesGrow(q'.size, |s.q.pages|, k);
      }
    }
  }

  lemma StepInv<T>(s: System<T>, i: nat)
    requires Inv(s) && Enabled(s, Step(i)) && WellFormed(s)
    ensures Inv(Next(s, Step(i)))
  {
    assert ProducerOk(s, i);
    var p := s.producers[i];
    StepKeeps(s.q, p);
    var (q', p') := ProducerStep(s.q, p);
    var s' := Next(s, Step(i));
    forall j | 0 <= j < |s'.producers| ensures ProducerOk(s', j) {
      if j != i { OthersKeep(s, i, q', p', j); assert ProducerOk(s, j); }
    }
    CoveredStep(s, i, q', p');
    OutputStep(s, i, q', p');
    ProducesSame(s.q, q', Own(p));
  }

  // ----- the other steps -----

  /** Pages that begin behind tail_ were never folded away from. */
  lemma BehindTail<T>(q: Queue<T>, k: nat)
    requires QueueInv(q) && k < |q.pages| && q.tail < Base(q.size, k)
    ensures q.pages[k].prev == Some(k - 1)
  {
    assert PageOk(q, k) && LinksOk(q, k);
    assert q.pages[k].prev.value < k - 1 ==> Done(q, k - 1);
    assert q.pages[k].prev.value < k - 1 ==> Gone(q, k - 1, q.size - 1);
  }

  lemma TailGrows<T>(q: Queue<T>)
    requires QueueInv(q)
    ensures var q' := q.(tail := q.tail + 1);
            && QueueInv(q') && Unset(q', q.tail)
            && (forall k: nat, i: nat :: Cell(q', k, i) <==> Cell(q, k, i))
            && (forall k: nat, i: nat :: Gone(q', k, i) <==> Gone(q, k, i))
            && (forall k: nat, i: nat :: Published(q', k, i) <==> Published(q, k, i))
  {
    var q' := q.(tail := q.tail + 1);
    assert Shape(q') by {
      forall k | 0 <= k < |q'.pages| ensures PageOk(q', k) { assert PageOk(q, k); }
    }
    assert forall k: nat, i: nat :: Gone(q', k, i) <==> Gone(q, k, i);
    assert forall k: nat, i: nat :: Published(q', k, i) <==> Published(q, k, i);
    forall k: nat ensures Done(q', k) <==> Done(q, k) {
      if Done(q, k) { forall i | 0 <= i < q.size ensures Gone(q', k, i) { assert Gone(q, k, i); } }
      if Done(q', k) { forall i | 0 <= i < q.size ensures Gone(q, k, i) { assert Gone(q', k, i); } }
    }
    forall k | 0 <= k < |q'.pages| ensures LinksOk(q', k) { assert LinksOk(q, k); }
  }

  lemma StartCovered<T>(s: System<T>, i: nat, x: T)
    requires Inv(s) && Enabled(s, Start(i, x)) && WellFormed(s)
    ensures Covered(Next(s, Start(i, x))) && OutputOk(Next(s, Start(i, x)))
  {
    TailGrows(s.q);
    var s' := Next(s, Start(i, x));
    forall l: nat | InFlight(s, l) || l == s.q.tail ensures InFlight(s', l) { }
    forall l: nat ensures Delivered(s', l) <==> Delivered(s, l) { }
  }

  lemma StartInv<T>(s: System<T>, i: nat, x: T)
    requires Inv(s) && Enabled(s, Start(i, x)) && WellFormed(s)
    ensures Inv(Next(s, Start(i, x)))
  {
    TailGrows(s.q);
    StartCovered(s, i, x);
    var s' := Next(s, Start(i, x));
    forall j | 0 <= j < |s'.producers| ensures ProducerOk(s', j) {
      assert ProducerOk(s, j);
      if j != i && s.producers[j].Holding() { assert Unset(s'.q, s.producers[j].loc); }
    }
  }

  /** A folded page before an unset location is followed by a page at or before it. */
  lemma FoldedNextIsNotPast<T>(q: Queue<T>, k: nat, n: nat, l: nat)
    requires QueueInv(q) && Unset(q, l) && Foldable(q, k) && q.pages[k].next == Some(n) && Base(q.size, k) <= l
    ensures Base(q.size, n) <= l
  {
    assert PageOk(q, k);
    var i: nat := l - Base(q.size, k);
    assert i < q.size ==> Gone(q, k, i);
    NextIsNotPast(q, k, n, l);
  }

  /** A dequeue that is harmless for a walk keeps the pages that it crosses consecutive. */
  lemma WalkIsSteady<T>(q: Queue<T>, loc: nat, m: nat, n: nat)
    requires QueueInv(q) && Unset(q, loc) && Straight(q, m, loc) && Harmless(q, loc, m)
    requires 0 < n <= m && n < |q.pages| && loc < Base(q.size, n)
    ensures |Dequeue(q).0.pages| == |q.pages| && Dequeue(q).0.pages[n].prev == Some(n - 1)
  {
    DequeueRelinks(q, n);
    forall k | k in Folds(q) ensures q.pages[k].next != Some(n) {
      assert PageOk(q, k);
      if q.pages[k].next == Some(n) && Base(q.size, k) <= loc { FoldedNextIsNotPast(q, k, n, loc); }
    }
  }

  lemma ConsumeOutput<T>(s: System<T>)
    requires Inv(s) && Enabled(s, Consume) && WellFormed(s)
    ensures OutputOk(Next(s, Consume))
  {
    DequeueOutcome(s.q);
    var (q', r) := Dequeue(s.q);
    var s' := Next(s, Consume);
    if r.Some? {
      var l := Loc(s.q.size, r.value.page, r.value.index);
      assert Ready(s.q, r.value.page, r.value.index);
      assert !Delivered(s, l);
      BaseOrder(s.q.size, r.value.page, |s.q.pages|);
      assert s'.out == s.out + [Delivery(l, r.value.data)];
      assert s'.out[|s.out|].loc == l;
      forall k: nat, i: nat | Cell(q', k, i) ensures Gone(q', k, i) <==> Delivered(s', Loc(q'.size, k, i)) {
        LocOrder(q'.size, k, i, r.value.page, r.value.index);
        DeliveredGrows(s, s', l, Loc(q'.size, k, i));
      }
    } else {
      forall l: nat ensures Delivered(s', l) <==> Delivered(s, l) { }
    }
  }

  lemma DeliveredGrows<T>(s: System<T>, s': System<T>, l: nat, m: nat)
    requires |s'.out| == |s.out| + 1 && s'.out[..|s.out|] == s.out && s'.out[|s.out|].loc == l
    ensures Delivered(s', m) <==> Delivered(s, m) || m == l
  {
    if Delivered(s, m) {
      var a :| 0 <= a < |s.out| && s.out[a].loc == m;
      assert s'.out[a] == s.out[a];
    }
    if Delivered(s', m) && m != l {
      var a :| 0 <= a < |s'.out| && s'.out[a].loc == m;
      assert s'.out[a] == s.out[a];
    }
  }

  lemma ConsumeInv<T>(s: System<T>)
    requires Inv(s) && Enabled(s, Consume) && WellFormed(s)
    ensures Inv(Next(s, Consume))
  {
    DequeueOutcome(s.q);
    ConsumeOutput(s);
    var s' := Next(s, Consume);
    forall j | 0 <= j < |s'.producers| ensures ProducerOk(s', j) {
      assert ProducerOk(s, j);
      var p := s.producers[j];
      if p.Holding() { assert Unset(s'.q, p.loc); }
      if p.Descending(s.q.size) {
        forall k | 0 < k <= p.page && k < |s'.q.pages| && p.loc < Base(s.q.size, k)
          ensures s'.q.pages[k].prev == Some(k - 1)
        {
          WalkIsSteady(s.q, p.loc, p.page, k);
        }
      }
    }
    forall l: nat ensures InFlight(s', l) <==> InFlight(s, l) { }
  }
}
