/** What one dequeue does, for every queue that producers and earlier dequeues can leave
    behind: it takes the published element of least location, or it reports an empty
    queue exactly under a condition that is spelled out. */
module MpscConsumer {
  import opened Basics
  import opened MpscModel

  ghost predicate Cell<T>(q: Queue<T>, k: nat, i: nat) {
    k < |q.pages| && i < q.size && |q.pages[k].slots| == q.size
  }

  /** The element of this cell is visible to the consumer, taken or not. */
  ghost predicate Published<T>(q: Queue<T>, k: nat, i: nat) {
    Cell(q, k, i) && q.pages[k].slots[i].flag != Empty
  }

  /** The consumer is through with this cell. */
  ghost predicate Gone<T>(q: Queue<T>, k: nat, i: nat) {
    Cell(q, k, i) && (i < q.pages[k].head || q.pages[k].slots[i].flag == Handled)
  }

  ghost predicate Ready<T>(q: Queue<T>, k: nat, i: nat) {
    Published(q, k, i) && !Gone(q, k, i)
  }

  ghost predicate Done<T>(q: Queue<T>, k: nat) {
    forall i :: 0 <= i < q.size ==> Gone(q, k, i)
  }

  /** A link of page `k` only jumps over pages that the consumer is through with. */
  ghost predicate LinksOk<T>(q: Queue<T>, k: nat)
    requires k < |q.pages|
  {
    && (q.pages[k].next.Some? ==> forall j :: k < j < q.pages[k].next.value ==> Done(q, j))
    && (q.pages[k].prev.Some? ==> forall j :: q.pages[k].prev.value < j < k ==> Done(q, j))
  }

  ghost predicate QueueInv<T>(q: Queue<T>) {
    && Shape(q)
    && (forall k :: 0 <= k < q.headPage ==> Done(q, k))
    && (forall k :: 0 <= k < |q.pages| ==> LinksOk(q, k))
    && (forall k: nat, i: nat :: Gone(q, k, i) ==> Published(q, k, i))
    && (forall k: nat, i: nat :: Published(q, k, i) ==> Loc(q.size, k, i) < q.tail)
  }

  /** `q` and `q'` hold the same elements, except that `r` is taken in `q'`. */
  ghost predicate Takes<T>(q: Queue<T>, q': Queue<T>, r: Option<Taken<T>>) {
    && q'.size == q.size && q'.tail == q.tail && q'.tailPage == q.tailPage && |q'.pages| == |q.pages|
    && q.headPage <= q'.headPage
    && (forall k: nat, i: nat :: Cell(q', k, i) <==> Cell(q, k, i))
    && (forall k: nat, i: nat :: Published(q', k, i) <==> Published(q, k, i))
    && (forall k: nat, i: nat :: Cell(q, k, i) ==> q'.pages[k].slots[i].data == q.pages[k].slots[i].data)
    && (forall k: nat, i: nat ::
          Gone(q', k, i) <==> Gone(q, k, i) || (r.Some? && k == r.value.page && i == r.value.index))
  }

  ghost predicate Least<T>(q: Queue<T>, k: nat, i: nat) {
    && Ready(q, k, i)
    && forall k': nat, i': nat :: Ready(q, k', i') ==> Loc(q.size, k, i) <= Loc(q.size, k', i')
  }

  /** Following next_ from page `k` arrives at page `b`. */
  ghost predicate Reaches<T>(q: Queue<T>, k: nat, b: nat)
    requires Shape(q) && k < |q.pages|
    decreases |q.pages| - k
  {
    assert PageOk(q, k);
    k == b || (q.pages[k].next.Some? && Reaches(q, q.pages[k].next.value, b))
  }

  /** The pages from `k` on run into a page that is fully handled while tail_of_queue_
      still points to it. */
  ghost predicate Blocked<T>(q: Queue<T>, k: nat)
    requires Shape(q) && k < |q.pages|
  {
    Reaches(q, k, q.tailPage) && Done(q, q.tailPage)
  }

  /** No ready element can be found from page `k` on: there is none, or the way is blocked
      and all of them lie beyond. */
  ghost predicate NothingFrom<T>(q: Queue<T>, k: nat)
    requires Shape(q) && k < |q.pages|
  {
    forall k': nat, i': nat :: Ready(q, k', i') ==> Blocked(q, k) && q.tailPage < k'
  }

  /** The full outcome of a search that starts at page `k`. */
  ghost predicate Outcome<T>(q: Queue<T>, k: nat, q': Queue<T>, r: Option<Taken<T>>)
    requires Shape(q) && k < |q.pages|
  {
    && QueueInv(q')
    && Takes(q, q', r)
    && (r.None? <==> NothingFrom(q, k))
    && (r.Some? ==> Least(q, r.value.page, r.value.index)
                    && r.value.data == q.pages[r.value.page].slots[r.value.index].data)
  }

  lemma {:induction false} ReachesForward<T>(q: Queue<T>, k: nat, b: nat)
    requires Shape(q) && k < |q.pages| && Reaches(q, k, b)
    ensures k <= b
    decreases |q.pages| - k
  {
    assert PageOk(q, k);
    if k != b { ReachesForward(q, q.pages[k].next.value, b); }
  }

  lemma {:induction false} ReachesSame<T>(q: Queue<T>, q': Queue<T>, k: nat, b: nat)
    requires Shape(q) && Shape(q') && |q'.pages| == |q.pages| && k < |q.pages|
    requires forall j :: k <= j < |q.pages| ==> q'.pages[j].next == q.pages[j].next
    ensures Reaches(q, k, b) <==> Reaches(q', k, b)
    decreases |q.pages| - k
  {
    assert PageOk(q, k) && PageOk(q', k);
    if k != b && q.pages[k].next.Some? { ReachesSame(q, q', q.pages[k].next.value, b); }
  }

  lemma TakesTrans<T>(a: Queue<T>, b: Queue<T>, c: Queue<T>, r: Option<Taken<T>>)
    requires Takes(a, b, None) && Takes(b, c, r)
    ensures Takes(a, c, r)
  {
  }

  lemma DoneSame<T>(q: Queue<T>, q': Queue<T>)
    requires Takes(q, q', None)
    ensures forall k: nat :: Done(q', k) <==> Done(q, k)
    ensures forall k: nat, i: nat :: Ready(q', k, i) <==> Ready(q, k, i)
  {
    forall k: nat ensures Done(q', k) <==> Done(q, k) {
      if Done(q, k) { forall i | 0 <= i < q.size ensures Gone(q', k, i) { assert Gone(q, k, i); } }
      if Done(q', k) { forall i | 0 <= i < q.size ensures Gone(q, k, i) { assert Gone(q', k, i); } }
    }
  }

  /** A step that takes nothing passes the outcome of the rest on. */
  lemma OutcomeChain<T>(q: Queue<T>, k: nat, q1: Queue<T>, k1: nat, q': Queue<T>, r: Option<Taken<T>>)
    requires Shape(q) && k < |q.pages| && Shape(q1) && k1 < |q1.pages|
    requires Takes(q, q1, None) && Outcome(q1, k1, q', r)
    requires NothingFrom(q1, k1) <==> NothingFrom(q, k)
    ensures Outcome(q, k, q', r)
  {
    TakesTrans(q, q1, q', r);
    DoneSame(q, q1);
  }

  // ----- the single mutations -----

  /** Moving a page's head over a cell: gone already, or taken now. */
  lemma SetHeadTakes<T>(q: Queue<T>, k: nat, r: Option<Taken<T>>)
    requires QueueInv(q) && k < |q.pages| && q.pages[k].head < q.size
    requires Published(q, k, q.pages[k].head)
    requires r.None? ==> Gone(q, k, q.pages[k].head)
    requires r.Some? ==> r.value.page == k && r.value.index == q.pages[k].head
    ensures QueueInv(SetHead(q, k, q.pages[k].head + 1)) && Takes(q, SetHead(q, k, q.pages[k].head + 1), r)
  {
    var h := q.pages[k].head;
    var q' := SetHead(q, k, h + 1);
    SetHeadShape(q, k, h + 1);
    assert PageOk(q, k);
    TakesInv(q, q', r);
  }

  /** Taking preserves the invariant when the links stay. */
  lemma TakesInv<T>(q: Queue<T>, q': Queue<T>, r: Option<Taken<T>>)
    requires QueueInv(q) && Shape(q') && Takes(q, q', r) && q'.headPage == q.headPage
    requires r.Some? ==> Published(q, r.value.page, r.value.index)
    requires forall k :: 0 <= k < |q.pages| ==>
               q'.pages[k].next == q.pages[k].next && q'.pages[k].prev == q.pages[k].prev
    ensures QueueInv(q')
  {
    DoneGrows(q, q', r);
    forall k | 0 <= k < |q'.pages| ensures LinksOk(q', k) { assert LinksOk(q, k); }
  }

  lemma DoneGrows<T>(q: Queue<T>, q': Queue<T>, r: Option<Taken<T>>)
    requires Takes(q, q', r)
    ensures forall k: nat :: Done(q, k) ==> Done(q', k)
  {
    forall k: nat | Done(q, k) ensures Done(q', k) {
      forall i | 0 <= i < q'.size ensures Gone(q', k, i) { assert Gone(q, k, i); }
    }
  }

  lemma TakeSlotTakes<T>(q: Queue<T>, k: nat, i: nat, moved: bool)
    requires QueueInv(q) && Ready(q, k, i)
    ensures QueueInv(TakeSlot(q, k, i, moved))
    ensures Takes(q, TakeSlot(q, k, i, moved), Some(Taken(k, i, q.pages[k].slots[i].data)))
  {
    var q' := TakeSlot(q, k, i, moved);
    assert PageOk(q, k);
    assert Shape(q') by {
      forall j | 0 <= j < |q'.pages| ensures PageOk(q', j) { assert PageOk(q, j); }
    }
    TakesInv(q, q', Some(Taken(k, i, q.pages[k].slots[i].data)));
  }

  lemma UnlinkTakes<T>(q: Queue<T>, k: nat)
    requires QueueInv(q) && 0 < k < |q.pages| && q.pages[k].next.Some? && Done(q, k)
    ensures QueueInv(Unlink(q, k)) && Takes(q, Unlink(q, k), None)
  {
    assert PageOk(q, k);
    var m, n := q.pages[k].prev.value, q.pages[k].next.value;
    var q' := Unlink(q, k);
    UnlinkShape(q, k);
    assert forall j :: 0 <= j < |q.pages| ==>
             q'.pages[j].slots == q.pages[j].slots && q'.pages[j].head == q.pages[j].head;
    DoneSame(q, q');
    assert LinksOk(q, k);
    forall j | 0 <= j < |q'.pages| ensures LinksOk(q', j) { assert LinksOk(q, j); }
  }

  // ----- the scan -----

  ghost predicate ScanPre<T>(q: Queue<T>, k: nat, i: nat, moved: bool, all: bool) {
    && QueueInv(q) && k < |q.pages| && q.pages[k].head <= i <= q.size
    && (if moved then q.headPage < k else k == q.headPage)
    && (forall k': nat, i': nat :: Ready(q, k', i') ==> k < k' || (k' == k && i <= i'))
    && (all <==> forall j :: 0 <= j < i ==> Gone(q, k, j))
  }

  lemma {:induction false} ScanOutcome<T>(q: Queue<T>, k: nat, i: nat, moved: bool, all: bool)
    requires ScanPre(q, k, i, moved, all)
    requires !moved ==> !Done(q, k)
    ensures var (q', r) := Scan(q, k, i, moved, all); Outcome(q, k, q', r)
    decreases |q.pages| - k, q.size - i, 1
  {
    assert PageOk(q, k);
    if i < q.size {
      var f := q.pages[k].slots[i].flag;
      assert Gone(q, k, i) <==> f == Handled;
      if f == Set {
        ScanHit(q, k, i, moved, all);
      } else if i + 1 < q.size {
        ScanOutcome(q, k, i + 1, moved, all && f != Empty);
      } else {
        ScanNextOutcome(q, k, moved, all && f != Empty);
      }
    } else {
      ScanNextOutcome(q, k, moved, all);
    }
  }

  lemma ScanHit<T>(q: Queue<T>, k: nat, i: nat, moved: bool, all: bool)
    requires ScanPre(q, k, i, moved, all) && i < q.size && Ready(q, k, i)
    ensures Outcome(q, k, TakeSlot(q, k, i, moved), Some(Taken(k, i, q.pages[k].slots[i].data)))
  {
    TakeSlotTakes(q, k, i, moved);
    FirstIsLeast(q, k, i);
  }

  lemma FirstIsLeast<T>(q: Queue<T>, k: nat, i: nat)
    requires Shape(q) && Ready(q, k, i)
    requires forall k': nat, i': nat :: Ready(q, k', i') ==> k < k' || (k' == k && i <= i')
    ensures Least(q, k, i) && !NothingFrom(q, k)
  {
    forall k': nat, i': nat | Ready(q, k', i') ensures Loc(q.size, k, i) <= Loc(q.size, k', i') {
      LocOrder(q.size, k, i, k', i');
    }
    if Blocked(q, k) { ReachesForward(q, k, q.tailPage); }
  }

  lemma {:induction false} ScanNextOutcome<T>(q: Queue<T>, k: nat, moved: bool, all: bool)
    requires ScanPre(q, k, q.size, moved, all)
    requires !moved ==> !Done(q, k)
    ensures var (q', r) := ScanNext(q, k, moved, all); Outcome(q, k, q', r)
    decreases |q.pages| - k, 0, 0
  {
    assert PageOk(q, k) && LinksOk(q, k);
    assert all <==> Done(q, k);
    if (all && moved && k == q.tailPage) || q.pages[k].next.None? {
      assert forall k': nat, i': nat :: Ready(q, k', i') ==> k < k';
    } else {
      var n := q.pages[k].next.value;
      var q1 := if all && moved then Unlink(q, k) else q;
      if all && moved { UnlinkTakes(q, k); }
      ScanStart(q, k, n, q1);
      ScanOutcome(q1, n, q1.pages[n].head, true, true);
      var (q', r) := Scan(q1, n, q1.pages[n].head, true, true);
      ScanChain(q, k, q1, n, q', r);
    }
  }

  lemma ScanChain<T>(q: Queue<T>, k: nat, q1: Queue<T>, n: nat, q': Queue<T>, r: Option<Taken<T>>)
    requires Shape(q) && k < |q.pages| && q.pages[k].next == Some(n) && Shape(q1) && n < |q1.pages|
    requires Takes(q, q1, None) && Outcome(q1, n, q', r)
    requires Done(q, q.tailPage) ==> k != q.tailPage
    requires forall j :: n <= j < |q.pages| ==> q1.pages[j].next == q.pages[j].next
    ensures Outcome(q, k, q', r)
  {
    DoneSame(q, q1);
    ReachesSame(q, q1, n, q.tailPage);
    OutcomeChain(q, k, q1, n, q', r);
  }

  /** Entering the next page of the scan: everything ready lies at or behind its head. */
  lemma ScanStart<T>(q: Queue<T>, k: nat, n: nat, q1: Queue<T>)
    requires QueueInv(q) && QueueInv(q1) && Takes(q, q1, None) && q.headPage == q1.headPage <= k
    requires k < |q.pages| && q.pages[k].next == Some(n)
    requires forall k': nat, i': nat :: Ready(q, k', i') ==> k < k'
    ensures PageOk(q, k) && n < |q1.pages| && ScanPre(q1, n, q1.pages[n].head, true, true)
  {
    assert PageOk(q, k) && LinksOk(q, k) && PageOk(q1, n);
    DoneSame(q, q1);
    forall k': nat, i': nat | Ready(q1, k', i') ensures n < k' || (k' == n && q1.pages[n].head <= i') {
      assert Ready(q, k', i');
      assert k' < n ==> Done(q, k');
    }
  }

  // ----- dequeue -----

  /** One dequeue takes the published element of least location.  It returns false exactly
      when there is none, or when the pages run into a handled page at tail_of_queue_
      and every remaining element lies beyond it. */
  lemma {:induction false} DequeueOutcome<T>(q: Queue<T>)
    requires QueueInv(q)
    ensures var (q', r) := Dequeue(q); Outcome(q, q.headPage, q', r)
    decreases |q.pages| - q.headPage, q.size - q.pages[q.headPage].head
  {
    var k := q.headPage;
    var h := q.pages[k].head;
    assert PageOk(q, k);
    if k == q.tailPage && h == q.tail - Base(q.size, k) {
      DrainedHasNothing(q);
    } else if h < q.size {
      match q.pages[k].slots[h].flag
      case Handled =>
        assert Gone(q, k, h);
        SetHeadTakes(q, k, None);
        var q1 := SetHead(q, k, h + 1);
        DequeueOutcome(q1);
        AdvanceChain(q, q1, Dequeue(q1).0, Dequeue(q1).1);
      case Set =>
        TakeHead(q);
      case Empty =>
        assert !Gone(q, k, h);
        NothingBeforeHead(q);
        ScanOutcome(q, k, h, false, true);
    } else if k != q.tailPage && q.pages[k].next.Some? {
      var n := q.pages[k].next.value;
      MoveHeadTakes(q, n);
      var q1 := q.(headPage := n);
      DequeueOutcome(q1);
      MoveChain(q, n, Dequeue(q1).0, Dequeue(q1).1);
    } else {
      StopAtHead(q);
    }
  }

  lemma TakeHead<T>(q: Queue<T>)
    requires QueueInv(q) && Ready(q, q.headPage, q.pages[q.headPage].head)
    ensures var k, h := q.headPage, q.pages[q.headPage].head;
            Outcome(q, k, SetHead(q, k, h + 1), Some(Taken(k, h, q.pages[k].slots[h].data)))
  {
    NothingBeforeHead(q);
    var k, h := q.headPage, q.pages[q.headPage].head;
    SetHeadTakes(q, k, Some(Taken(k, h, q.pages[k].slots[h].data)));
    FirstIsLeast(q, k, h);
  }

  lemma StopAtHead<T>(q: Queue<T>)
    requires QueueInv(q) && q.pages[q.headPage].head == q.size
    requires q.headPage == q.tailPage || q.pages[q.headPage].next.None?
    ensures Outcome(q, q.headPage, q, None)
  {
    NothingBeforeHead(q);
    assert PageOk(q, q.headPage);
    assert Done(q, q.headPage);
  }

  lemma AdvanceChain<T>(q: Queue<T>, q1: Queue<T>, q': Queue<T>, r: Option<Taken<T>>)
    requires QueueInv(q) && Shape(q1) && Takes(q, q1, None) && q1.headPage == q.headPage
    requires forall j :: 0 <= j < |q.pages| ==> q1.pages[j].next == q.pages[j].next
    requires Outcome(q1, q1.headPage, q', r)
    ensures Outcome(q, q.headPage, q', r)
  {
    DoneSame(q, q1);
    ReachesSame(q, q1, q.headPage, q.tailPage);
    OutcomeChain(q, q.headPage, q1, q.headPage, q', r);
  }

  lemma MoveChain<T>(q: Queue<T>, n: nat, q': Queue<T>, r: Option<Taken<T>>)
    requires QueueInv(q) && q.pages[q.headPage].head == q.size && q.pages[q.headPage].next == Some(n)
    requires q.headPage != q.tailPage
    requires Shape(q.(headPage := n)) && Outcome(q.(headPage := n), n, q', r)
    ensures Outcome(q, q.headPage, q', r)
  {
    MoveHeadTakes(q, n);
    var q1 := q.(headPage := n);
    DoneSame(q, q1);
    ReachesSame(q, q1, n, q.tailPage);
    OutcomeChain(q, q.headPage, q1, n, q', r);
  }

  lemma NothingBeforeHead<T>(q: Queue<T>)
    requires QueueInv(q)
    ensures forall k: nat, i: nat :: Ready(q, k, i) ==> q.headPage < k || (k == q.headPage && q.pages[k].head <= i)
  {
    forall k: nat, i: nat | Ready(q, k, i) ensures q.headPage <= k {
      assert k < q.headPage ==> Done(q, k);
    }
  }

  lemma DrainedHasNothing<T>(q: Queue<T>)
    requires QueueInv(q) && q.tail == Loc(q.size, q.headPage, q.pages[q.headPage].head)
    ensures forall k: nat, i: nat :: !Ready(q, k, i)
  {
    NothingBeforeHead(q);
    forall k: nat, i: nat | Ready(q, k, i) ensures false {
      assert Published(q, k, i);
      assert PageOk(q, q.headPage);
      if q.headPage < k { BaseOrder(q.size, q.headPage, k); }
    }
  }

  lemma MoveHeadTakes<T>(q: Queue<T>, n: nat)
    requires QueueInv(q) && q.pages[q.headPage].head == q.size && q.pages[q.headPage].next == Some(n)
    ensures n < |q.pages| && QueueInv(q.(headPage := n)) && Takes(q, q.(headPage := n), None)
  {
    assert PageOk(q, q.headPage) && LinksOk(q, q.headPage);
    MoveHeadShape(q, n);
    var q' := q.(headPage := n);
    DoneSame(q, q');
    forall k | 0 <= k < n ensures Done(q', k) { if k == q.headPage { assert Done(q, k); } }
    forall k | 0 <= k < |q'.pages| ensures LinksOk(q', k) { assert LinksOk(q, k); }
  }

  // ----- folding -----

  /** A page that a dequeue may fold away. */
  ghost predicate Foldable<T>(q: Queue<T>, k: nat) {
    q.headPage < k < |q.pages| && k != q.tailPage && q.pages[k].next.Some? && Done(q, k)
  }

  /** The pages that the scan folds away. */
  ghost function ScanFolds<T>(q: Queue<T>, k: nat, i: nat, moved: bool, all: bool): set<nat>
    requires Shape(q) && k < |q.pages| && i <= q.size && (moved ==> 0 < k)
    decreases |q.pages| - k, q.size - i, 1
  {
    assert PageOk(q, k);
    if i < q.size then
      var f := q.pages[k].slots[i].flag;
      if f == Set then {}
      else if i + 1 < q.size then ScanFolds(q, k, i + 1, moved, all && f != Empty)
      else ScanNextFolds(q, k, moved, all && f != Empty)
    else
      ScanNextFolds(q, k, moved, all)
  }

  ghost function ScanNextFolds<T>(q: Queue<T>, k: nat, moved: bool, all: bool): set<nat>
    requires Shape(q) && k < |q.pages| && (moved ==> 0 < k)
    decreases |q.pages| - k, 0, 0
  {
    assert PageOk(q, k);
    if all && moved then
      if k == q.tailPage || q.pages[k].next.None? then {}
      else
        var n := q.pages[k].next.value;
        UnlinkShape(q, k);
        assert PageOk(Unlink(q, k), n);
        {k} + ScanFolds(Unlink(q, k), n, Unlink(q, k).pages[n].head, true, true)
    else if q.pages[k].next.None? then {}
    else
      var n := q.pages[k].next.value;
      assert PageOk(q, n);
      ScanFolds(q, n, q.pages[n].head, true, true)
  }

  /** The pages that this dequeue folds away. */
  ghost function Folds<T>(q: Queue<T>): set<nat>
    requires Shape(q)
    decreases |q.pages| - q.headPage, q.size - q.pages[q.headPage].head
  {
    var k := q.headPage;
    var h := q.pages[k].head;
    assert PageOk(q, k);
    if k == q.tailPage && h == q.tail - Base(q.size, q.pages[q.tailPage].pos - 1) then {}
    else if h < q.size then
      match q.pages[k].slots[h].flag
      case Handled =>
        SetHeadShape(q, k, h + 1);
        Folds(SetHead(q, k, h + 1))
      case Set => {}
      case Empty => ScanFolds(q, k, h, false, true)
    else if k == q.tailPage || q.pages[k].next.None? then {}
    else
      MoveHeadShape(q, q.pages[k].next.value);
      Folds(q.(headPage := q.pages[k].next.value))
  }

  /** What folding the pages `folds` does to the links of page `n`: prev_ changes only behind
      a folded page and then skips it, next_ changes only before one. */
  ghost predicate Relinks<T>(q: Queue<T>, q': Queue<T>, folds: set<nat>, n: nat)
    requires n < |q.pages|
  {
    && |q'.pages| == |q.pages|
    && (forall k :: k in folds ==> Foldable(q, k))
    && (q'.pages[n].prev == q.pages[n].prev || exists k :: k in folds && q.pages[k].next == Some(n))
    && (forall k :: k in folds && q.pages[k].next == Some(n) ==> q'.pages[n].prev.Some? && q'.pages[n].prev.value < k)
    && (q'.pages[n].next == q.pages[n].next || exists k :: k in folds && n < k)
  }

  /** A step that takes nothing and keeps the links passes the folds of the rest on. */
  lemma RelinksChain<T>(q: Queue<T>, q1: Queue<T>, q': Queue<T>, folds: set<nat>, n: nat)
    requires n < |q.pages| && Takes(q, q1, None) && Relinks(q1, q', folds, n)
    requires forall k :: 0 <= k < |q.pages| ==>
               q1.pages[k].next == q.pages[k].next && q1.pages[k].prev == q.pages[k].prev
    ensures Relinks(q, q', folds, n)
  {
    DoneSame(q, q1);
    forall k | k in folds ensures Foldable(q, k) && q1.pages[k].next == q.pages[k].next { assert Foldable(q1, k); }
  }

  /** Folding page `k` first and pages behind it later. */
  lemma RelinksFold<T>(q: Queue<T>, k: nat, q': Queue<T>, folds: set<nat>, n: nat)
    requires QueueInv(q) && 0 < k && Foldable(q, k) && n < |q.pages|
    requires Shape(Unlink(q, k)) && |Unlink(q, k).pages| == |q.pages| && Relinks(Unlink(q, k), q', folds, n)
    requires forall f :: f in folds ==> q.pages[k].next.value <= f
    ensures Relinks(q, q', {k} + folds, n)
  {
    assert PageOk(q, k);
    UnlinkTakes(q, k);
    var q1 := Unlink(q, k);
    DoneSame(q, q1);
    forall f | f in folds ensures Foldable(q, f) && q1.pages[f].next == q.pages[f].next && f < q.pages[f].next.value {
      assert Foldable(q1, f);
      assert PageOk(q, f);
    }
    FoldedBehind(q, k, q', folds, n);
  }

  lemma FoldedBehind<T>(q: Queue<T>, k: nat, q': Queue<T>, folds: set<nat>, n: nat)
    requires Shape(q) && 0 < k < |q.pages| && q.pages[k].next.Some? && n < |q.pages| == |Unlink(q, k).pages|
    requires forall f :: f in folds ==>
               f < |q.pages| && q.pages[f].next.Some? && q.pages[f].next == Unlink(q, k).pages[f].next
    requires forall f :: f in folds ==> q.pages[k].next.value <= f < q.pages[f].next.value
    requires Relinks(Unlink(q, k), q', folds, n)
    ensures q.pages[k].next == Some(n) ==> q'.pages[n].prev.Some? && q'.pages[n].prev.value < k
    ensures q'.pages[n].prev == q.pages[n].prev || exists f :: f in {k} + folds && q.pages[f].next == Some(n)
    ensures q'.pages[n].next == q.pages[n].next || exists f :: f in {k} + folds && n < f
  {
    assert PageOk(q, k);
    assert k in {k} + folds;
    if q.pages[k].next == Some(n) {
      assert q'.pages[n].prev == Unlink(q, k).pages[n].prev;
    } else if q'.pages[n].prev != q.pages[n].prev {
      var f :| f in folds && q.pages[f].next == Some(n);
      assert f in {k} + folds;
    }
    if q'.pages[n].next != q.pages[n].next && n >= k {
      var f :| f in folds && n < f;
      assert f in {k} + folds;
    }
  }

  ghost predicate ScanRelinks<T>(q: Queue<T>, q': Queue<T>, k: nat, folds: set<nat>, n: nat)
    requires n < |q.pages|
  {
    Relinks(q, q', folds, n) && forall f :: f in folds ==> k <= f
  }

  /** The cases of the end of a page, for its result and its folds alike. */
  lemma ScanNextCases<T>(q: Queue<T>, k: nat, moved: bool, all: bool)
    requires Shape(q) && k < |q.pages| && (moved ==> 0 < k) && PageOk(q, k) && q.pages[k].next.Some?
    requires !(all && moved && k == q.tailPage)
    ensures var n := q.pages[k].next.value;
            var q1 := if all && moved then Unlink(q, k) else q;
            && Shape(q1) && 0 < n < |q1.pages| && q1.pages[n].head <= q1.size
            && ScanNext(q, k, moved, all) == Scan(q1, n, q1.pages[n].head, true, true)
            && ScanNextFolds(q, k, moved, all)
               == (if all && moved then {k} else {}) + ScanFolds(q1, n, q1.pages[n].head, true, true)
  {
    if all && moved { UnlinkShape(q, k); }
    var q1 := if all && moved then Unlink(q, k) else q;
    assert PageOk(q1, q.pages[k].next.value);
  }

  lemma {:induction false} ScanFolded<T>(q: Queue<T>, k: nat, i: nat, moved: bool, all: bool, n: nat)
    requires ScanPre(q, k, i, moved, all) && n < |q.pages|
    requires !moved ==> !Done(q, k)
    ensures ScanRelinks(q, Scan(q, k, i, moved, all).0, k, ScanFolds(q, k, i, moved, all), n)
    decreases |q.pages| - k, q.size - i, 1
  {
    assert PageOk(q, k);
    if i < q.size {
      var f := q.pages[k].slots[i].flag;
      assert Gone(q, k, i) <==> f == Handled;
      if f == Set {
      } else if i + 1 < q.size {
        ScanFolded(q, k, i + 1, moved, all && f != Empty, n);
      } else {
        ScanNextFolded(q, k, moved, all && f != Empty, n);
      }
    } else {
      ScanNextFolded(q, k, moved, all, n);
    }
  }

  lemma {:induction false} ScanNextFolded<T>(q: Queue<T>, k: nat, moved: bool, all: bool, n: nat)
    requires ScanPre(q, k, q.size, moved, all) && n < |q.pages|
    requires !moved ==> !Done(q, k)
    ensures ScanRelinks(q, ScanNext(q, k, moved, all).0, k, ScanNextFolds(q, k, moved, all), n)
    decreases |q.pages| - k, 0, 0
  {
    assert PageOk(q, k);
    assert all <==> Done(q, k);
    if !(all && moved && k == q.tailPage) && q.pages[k].next.Some? {
      var m := q.pages[k].next.value;
      var q1 := if all && moved then Unlink(q, k) else q;
      if all && moved { UnlinkTakes(q, k); }
      ScanStart(q, k, m, q1);
      ScanFolded(q1, m, q1.pages[m].head, true, true, n);
      ScanNextCases(q, k, moved, all);
      if all && moved {
        RelinksFold(q, k, Scan(q1, m, q1.pages[m].head, true, true).0,
            ScanFolds(q1, m, q1.pages[m].head, true, true), n);
      } else {
        assert {} + ScanFolds(q1, m, q1.pages[m].head, true, true) == ScanFolds(q1, m, q1.pages[m].head, true, true);
      }
    }
  }

  /** The cases of dequeue, for its result and its folds alike. */
  lemma DequeueSkips<T>(q: Queue<T>)
    requires Shape(q) && !(q.headPage == q.tailPage && q.pages[q.headPage].head == q.tail - Base(q.size, q.headPage))
    requires PageOk(q, q.headPage) && PageOk(q, q.tailPage) && q.pages[q.headPage].head < q.size
    requires q.pages[q.headPage].slots[q.pages[q.headPage].head].flag == Handled
    ensures var q1 := SetHead(q, q.headPage, q.pages[q.headPage].head + 1);
            Shape(q1) && Dequeue(q) == Dequeue(q1) && Folds(q) == Folds(q1)
  {
    SetHeadShape(q, q.headPage, q.pages[q.headPage].head + 1);
  }

  lemma DequeueLeaves<T>(q: Queue<T>)
    requires Shape(q) && q.headPage != q.tailPage && q.pages[q.headPage].head == q.size && PageOk(q, q.headPage)
    requires q.pages[q.headPage].next.Some?
    ensures var q1 := q.(headPage := q.pages[q.headPage].next.value);
            Shape(q1) && Dequeue(q) == Dequeue(q1) && Folds(q) == Folds(q1)
  {
    MoveHeadShape(q, q.pages[q.headPage].next.value);
  }

  lemma DequeueScans<T>(q: Queue<T>)
    requires Shape(q) && !(q.headPage == q.tailPage && q.pages[q.headPage].head == q.tail - Base(q.size, q.headPage))
    requires PageOk(q, q.headPage) && PageOk(q, q.tailPage) && q.pages[q.headPage].head < q.size
    requires q.pages[q.headPage].slots[q.pages[q.headPage].head].flag == Empty
    ensures var k, h := q.headPage, q.pages[q.headPage].head;
            Dequeue(q) == Scan(q, k, h, false, true) && Folds(q) == ScanFolds(q, k, h, false, true)
  {
  }

  lemma DequeueStays<T>(q: Queue<T>)
    requires Shape(q) && PageOk(q, q.headPage) && PageOk(q, q.tailPage)
    requires var k, h := q.headPage, q.pages[q.headPage].head;
             || (k == q.tailPage && h == q.tail - Base(q.size, k))
             || (h < q.size && q.pages[k].slots[h].flag == Set)
             || (h == q.size && (k == q.tailPage || q.pages[k].next.None?))
    ensures Folds(q) == {}
    ensures Dequeue(q).0 == q || Dequeue(q).0 == SetHead(q, q.headPage, q.pages[q.headPage].head + 1)
  {
  }

  /** The links after a dequeue differ only around the pages that it folds. */
  lemma {:induction false} DequeueRelinks<T>(q: Queue<T>, n: nat)
    requires QueueInv(q) && n < |q.pages|
    ensures Relinks(q, Dequeue(q).0, Folds(q), n)
    decreases |q.pages| - q.headPage, q.size - q.pages[q.headPage].head
  {
    var k := q.headPage;
    var h := q.pages[k].head;
    assert PageOk(q, k) && PageOk(q, q.tailPage);
    if !(k == q.tailPage && h == q.tail - Base(q.size, k)) && h < q.size && q.pages[k].slots[h].flag == Handled {
      assert Gone(q, k, h);
      var q1 := SetHead(q, k, h + 1);
      SetHeadTakes(q, k, None);
      DequeueRelinks(q1, n);
      DequeueSkips(q);
      RelinksChain(q, q1, Dequeue(q1).0, Folds(q1), n);
    } else if !(k == q.tailPage && h == q.tail - Base(q.size, k)) && h < q.size && q.pages[k].slots[h].flag == Empty {
      assert !Gone(q, k, h);
      NothingBeforeHead(q);
      ScanFolded(q, k, h, false, true, n);
      DequeueScans(q);
    } else if h == q.size && k != q.tailPage && q.pages[k].next.Some? {
      var q1 := q.(headPage := q.pages[k].next.value);
      MoveHeadTakes(q, q.pages[k].next.value);
      DequeueRelinks(q1, n);
      DequeueLeaves(q);
      RelinksChain(q, q1, Dequeue(q1).0, Folds(q1), n);
    } else {
      DequeueStays(q);
    }
  }
}
