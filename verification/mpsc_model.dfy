/** The paged multi-producer single-consumer queue of benchmark/common/mpsc_queue.h
    as a value: pages are named by their index in the order in which they were linked,
    pointers are page names.  The atomic actions of `enqueue` are `ProducerStep`;
    one whole `dequeue` is the function `Dequeue`. */
module MpscModel {
  import opened Basics

  // is_set_: 0, 1 and 2
  datatype Flag = Empty | Set | Handled

  datatype Slot<+T> = Slot(data: Option<T>, flag: Flag)

  datatype Page<+T> = Page(pos: nat, prev: Option<nat>, next: Option<nat>, head: nat, slots: seq<Slot<T>>)

  datatype Queue<+T> = Queue(size: nat, tail: nat, tailPage: nat, headPage: nat, pages: seq<Page<T>>)

  /** buffer_size_ * (position_in_queue_ - 1): the first location of page `k`.  Written as a
      repeated sum so that reasoning about it stays linear; `BaseIsProduct` gives the product. */
  function Base(size: nat, k: nat): nat {
    if k == 0 then 0 else Base(size, k - 1) + size
  }

  function Loc(size: nat, k: nat, i: nat): nat {
    Base(size, k) + i
  }

  lemma {:induction false} BaseOrder(size: nat, j: nat, k: nat)
    requires j < k
    ensures Base(size, j) + size <= Base(size, k)
  {
    if j + 1 < k { BaseOrder(size, j, k - 1); }
  }

  lemma {:induction false} BaseIsProduct(size: nat, k: nat)
    ensures Base(size, k) == size * k
  {
    if k > 0 { BaseIsProduct(size, k - 1); }
  }

  /** A location names one page and one slot: the quotient and the remainder. */
  lemma LocIsDivMod(size: nat, k: nat, i: nat)
    requires i < size
    ensures Loc(size, k, i) / size == k && Loc(size, k, i) % size == i
  {
    BaseIsProduct(size, k);
    DivModUnique(size, k, i);
  }

  lemma DivModUnique(size: nat, k: nat, i: nat)
    requires i < size
    ensures (size * k + i) / size == k && (size * k + i) % size == i
  {
    var x := size * k + i;
    var d := x / size - k;
    calc {
      size * d;
      size * (x / size) - size * k;
      i - x % size;
    }
    SmallMultiple(size, d);
  }

  lemma SmallMultiple(size: int, d: int)
    requires -size < size * d < size
    ensures d == 0
  {
  }

  lemma LocOrder(size: nat, k: nat, i: nat, k': nat, i': nat)
    requires i < size && i' < size
    ensures Loc(size, k, i) < Loc(size, k', i') <==> k < k' || (k == k' && i < i')
    ensures Loc(size, k, i) == Loc(size, k', i') <==> k == k' && i == i'
  {
    if k < k' { BaseOrder(size, k, k'); } else if k' < k { BaseOrder(size, k', k); }
  }

  // ----- pages -----

  ghost predicate PageOk<T>(q: Queue<T>, k: nat)
    requires k < |q.pages|
  {
    var p := q.pages[k];
    && p.pos == k + 1
    && |p.slots| == q.size
    && p.head <= q.size
    && (p.next.None? <==> k == |q.pages| - 1)
    && (p.next.Some? ==> k < p.next.value < |q.pages|)
    && (p.prev.None? <==> k == 0)
    && (p.prev.Some? ==> p.prev.value < k)
  }

  /** Pages are linked forward by next_, backward by prev_, and carry their position. */
  ghost predicate Shape<T>(q: Queue<T>) {
    && 0 < q.size
    && q.headPage < |q.pages|
    && q.tailPage < |q.pages|
    && forall k :: 0 <= k < |q.pages| ==> PageOk(q, k)
  }

  function FreshPage<T>(size: nat, pos: nat, prev: Option<nat>): Page<T> {
    Page(pos, prev, None, 0, seq(size, _ => Slot(None, Empty)))
  }

  function EmptyQueue<T>(size: nat): Queue<T> {
    Queue(size, 0, 0, 0, [FreshPage(size, 1, None)])
  }

  function SetNext<T>(q: Queue<T>, k: nat, n: nat): Queue<T>
    requires k < |q.pages|
  {
    q.(pages := q.pages[k := q.pages[k].(next := Some(n))])
  }

  function SetPrev<T>(q: Queue<T>, k: nat, m: nat): Queue<T>
    requires k < |q.pages|
  {
    q.(pages := q.pages[k := q.pages[k].(prev := Some(m))])
  }

  function SetHead<T>(q: Queue<T>, k: nat, h: nat): Queue<T>
    requires k < |q.pages|
  {
    q.(pages := q.pages[k := q.pages[k].(head := h)])
  }

  function SetSlot<T>(q: Queue<T>, k: nat, i: nat, s: Slot<T>): Queue<T>
    requires k < |q.pages| && i < |q.pages[k].slots|
  {
    q.(pages := q.pages[k := q.pages[k].(slots := q.pages[k].slots[i := s])])
  }

  /** The successful compare-and-swap of next_: the new page is the next one of `k`. */
  function LinkPage<T>(q: Queue<T>, k: nat): Queue<T>
    requires k < |q.pages|
  {
    var linked := SetNext(q, k, |q.pages|);
    linked.(pages := linked.pages + [FreshPage(q.size, q.pages[k].pos + 1, Some(k))])
  }

  // ----- one producer -----

  /** Where one call of enqueue stands.  `page` is temp_tail, `base` is prev_size and
      `back` is go_back.  `Crashed` is the null dereference of prev_ in the walk back. */
  datatype Producer<+T> =
    | Idle
    | Seeking(x: T, loc: nat, back: bool)
    | Placing(x: T, loc: nat, back: bool, page: nat, base: int)
    | Raising(x: T, loc: nat, back: bool, page: nat, index: nat)
    | Reserving(page: nat)
    | Advancing(x: T, loc: nat, back: bool, page: nat)
    | Extending(x: T, loc: nat, back: bool, page: nat)
    | Storing(x: T, loc: nat, back: bool, page: nat)
    | Swinging(x: T, loc: nat, back: bool, page: nat, next: nat)
    | Crashed
  {
    /** The page of a claimed location is not yet known to its producer. */
    predicate Searching() {
      Seeking? || Placing? || Advancing? || Extending? || Storing? || Swinging?
    }

    /** The producer has started to walk back from `page`, or has found its page. */
    predicate Descending(size: nat) {
      Placing? && loc < base + size
    }

    /** The producer still owns the unset slot of its location. */
    predicate Holding() {
      Searching() || Raising?
    }
  }

  ghost predicate InBounds<T>(q: Queue<T>, p: Producer<T>) {
    && (p.Placing? || p.Raising? || p.Reserving? || p.Advancing? || p.Extending? || p.Storing? || p.Swinging?
        ==> p.page < |q.pages|)
    && (p.Raising? ==> p.index < q.size)
    && (p.Swinging? ==> p.next < |q.pages|)
  }

  /** One atomic action of enqueue after the fetch_add. */
  function ProducerStep<T>(q: Queue<T>, p: Producer<T>): (r: (Queue<T>, Producer<T>))
    requires Shape(q) && InBounds(q, p)
  {
    assert PageOk(q, q.tailPage);
    assert p.Placing? || p.Raising? ==> PageOk(q, p.page);
    match p
    case Idle => (q, p)
    case Crashed => (q, p)
    case Seeking(x, loc, back) =>
      (q, Placing(x, loc, back, q.tailPage, Base(q.size, q.pages[q.tailPage].pos - 1)))
    case Placing(x, loc, back, page, base) =>
      if loc < base then
        if q.pages[page].prev.None? then (q, Crashed)
        else (q, Placing(x, loc, true, q.pages[page].prev.value, base - q.size))
      else if loc < base + q.size then
        (SetSlot(q, page, loc - base, q.pages[page].slots[loc - base].(data := Some(x))),
         Raising(x, loc, back, page, loc - base))
      else
        (q, Advancing(x, loc, back, page))
    case Raising(x, loc, back, page, index) =>
      (SetSlot(q, page, index, q.pages[page].slots[index].(flag := Set)),
       if index == 1 && !back then Reserving(page) else Idle)
    case Reserving(page) =>
      (if q.pages[page].next.None? then LinkPage(q, page) else q, Idle)
    case Advancing(x, loc, back, page) =>
      (q, if q.pages[page].next.None? then Extending(x, loc, back, page)
          else Swinging(x, loc, back, page, q.pages[page].next.value))
    case Extending(x, loc, back, page) =>
      if q.pages[page].next.None? then (LinkPage(q, page), Storing(x, loc, back, |q.pages|))
      else (q, Seeking(x, loc, back))
    case Storing(x, loc, back, page) =>
      (q.(tailPage := page), Seeking(x, loc, back))
    case Swinging(x, loc, back, page, next) =>
      (if q.tailPage == page then q.(tailPage := next) else q, Seeking(x, loc, back))
  }

  // ----- the consumer -----

  datatype Taken<+T> = Taken(page: nat, index: nat, data: Option<T>)

  /** Takes slot `i` of page `k` out of order. */
  function TakeSlot<T>(q: Queue<T>, k: nat, i: nat, moved: bool): Queue<T>
    requires k < |q.pages| && i < |q.pages[k].slots|
  {
    var q' := SetSlot(q, k, i, q.pages[k].slots[i].(flag := Handled));
    if moved && i == q.pages[k].head then SetHead(q', k, i + 1) else q'
  }

  /** Folds page `k` away: its neighbours are linked to each other. */
  function Unlink<T>(q: Queue<T>, k: nat): Queue<T>
    requires Shape(q) && 0 < k < |q.pages| && q.pages[k].next.Some?
  {
    assert PageOk(q, k);
    var m, n := q.pages[k].prev.value, q.pages[k].next.value;
    SetNext(SetPrev(q, n, m), m, n)
  }

  lemma UnlinkShape<T>(q: Queue<T>, k: nat)
    requires Shape(q) && 0 < k < |q.pages| && q.pages[k].next.Some?
    ensures Shape(Unlink(q, k))
  {
    assert PageOk(q, k);
    var m, n := q.pages[k].prev.value, q.pages[k].next.value;
    assert PageOk(q, m) && PageOk(q, n);
    var r := Unlink(q, k);
    forall j | 0 <= j < |r.pages| ensures PageOk(r, j) { assert PageOk(q, j); }
  }

  lemma SetHeadShape<T>(q: Queue<T>, k: nat, h: nat)
    requires Shape(q) && k < |q.pages| && h <= q.size
    ensures Shape(SetHead(q, k, h))
  {
    var r := SetHead(q, k, h);
    forall j | 0 <= j < |r.pages| ensures PageOk(r, j) { assert PageOk(q, j); }
  }

  lemma MoveHeadShape<T>(q: Queue<T>, n: nat)
    requires Shape(q) && n < |q.pages|
    ensures Shape(q.(headPage := n))
  {
    var r := q.(headPage := n);
    forall j | 0 <= j < |r.pages| ensures PageOk(r, j) { assert PageOk(q, j); }
  }

  /** The scan for a set slot behind a stalled head slot: `k` is temphead_of_queue, `i` is
      temphead, `moved` and `all` are the two flags of the source. */
  function Scan<T>(q: Queue<T>, k: nat, i: nat, moved: bool, all: bool): (r: (Queue<T>, Option<Taken<T>>))
    requires Shape(q) && k < |q.pages| && i <= q.size && (moved ==> 0 < k)
    decreases |q.pages| - k, q.size - i, 1
  {
    assert PageOk(q, k);
    if i < q.size then
      var f := q.pages[k].slots[i].flag;
      if f == Set then
        (TakeSlot(q, k, i, moved), Some(Taken(k, i, q.pages[k].slots[i].data)))
      else if i + 1 < q.size then
        Scan(q, k, i + 1, moved, all && f != Empty)
      else
        ScanNext(q, k, moved, all && f != Empty)
    else
      ScanNext(q, k, moved, all)
  }

  /** The end of a page in the scan: fold it if every slot was handled, and move on. */
  function ScanNext<T>(q: Queue<T>, k: nat, moved: bool, all: bool): (r: (Queue<T>, Option<Taken<T>>))
    requires Shape(q) && k < |q.pages| && (moved ==> 0 < k)
    decreases |q.pages| - k, 0, 0
  {
    assert PageOk(q, k);
    if all && moved then
      if k == q.tailPage || q.pages[k].next.None? then (q, None)
      else
        var n := q.pages[k].next.value;
        UnlinkShape(q, k);
        assert PageOk(Unlink(q, k), n);
        Scan(Unlink(q, k), n, Unlink(q, k).pages[n].head, true, true)
    else if q.pages[k].next.None? then (q, None)
    else
      var n := q.pages[k].next.value;
      assert PageOk(q, n);
      Scan(q, n, q.pages[n].head, true, true)
  }

  /** One whole dequeue. */
  function Dequeue<T>(q: Queue<T>): (r: (Queue<T>, Option<Taken<T>>))
    requires Shape(q)
    decreases |q.pages| - q.headPage, q.size - q.pages[q.headPage].head
  {
    var k := q.headPage;
    var h := q.pages[k].head;
    assert PageOk(q, k);
    if k == q.tailPage && h == q.tail - Base(q.size, q.pages[q.tailPage].pos - 1) then
      (q, None)
    else if h < q.size then
      match q.pages[k].slots[h].flag
      case Handled =>
        SetHeadShape(q, k, h + 1);
        Dequeue(SetHead(q, k, h + 1))
      case Set =>
        (SetHead(q, k, h + 1), Some(Taken(k, h, q.pages[k].slots[h].data)))
      case Empty =>
        Scan(q, k, h, false, true)
    else if k == q.tailPage || q.pages[k].next.None? then
      (q, None)
    else
      var n := q.pages[k].next.value;
      MoveHeadShape(q, n);
      Dequeue(q.(headPage := n))
  }
}
