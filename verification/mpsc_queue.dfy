/** The queue as the class of benchmark/common/mpsc_queue.h: linked pages with slot arrays,
    updated in place.  Each method is proved against the value model. */
module MpscQueueClass {
  import opened Basics
  import opened MpscModel
  import opened MpscConsumer
  import opened MpscSystem
  import opened MpscFifo

  lemma ScanFoldsAway<T>(q: Queue<T>, k: nat)
    requires Shape(q) && 0 < k < |q.pages| && k != q.tailPage && q.pages[k].next.Some?
    ensures var q', n := Unlink(q, k), q.pages[k].next.value;
            && Shape(q') && k < n < |q.pages| && |q'.pages| == |q.pages| && q'.size == q.size
            && q'.pages[n].head == q.pages[n].head <= q.size
            && ScanNext(q, k, true, true) == Scan(q', n, q.pages[n].head, true, true)
  {
    UnlinkShape(q, k);
    assert PageOk(q, k);
    assert PageOk(q, q.pages[k].next.value);
  }

  lemma ScanNextMoves<T>(q: Queue<T>, k: nat, moved: bool, all: bool)
    requires Shape(q) && k < |q.pages| && (moved ==> 0 < k) && !(all && moved) && q.pages[k].next.Some?
    ensures var n := q.pages[k].next.value;
            && k < n < |q.pages| && q.pages[n].head <= q.size
            && ScanNext(q, k, moved, all) == Scan(q, n, q.pages[n].head, true, true)
  {
    assert PageOk(q, k);
    assert PageOk(q, q.pages[k].next.value);
  }

  class BufferList<T> {
    const pos: nat
    const slots: array<Slot<T>>
    var next: BufferList?<T>
    var prev: BufferList?<T>
    var head: nat

    constructor (size: nat, pos: nat, prev: BufferList?<T>)
      ensures this.pos == pos && this.prev == prev && next == null && head == 0
      ensures fresh(slots) && slots.Length == size && forall i :: 0 <= i < size ==> slots[i] == Slot(None, Empty)
    {
      this.pos, this.prev, this.next, this.head := pos, prev, null, 0;
      slots := new Slot<T>[size](_ => Slot(None, Empty));
    }

    ghost function Name(p: BufferList?<T>): Option<nat> {
      if p == null || p.pos == 0 then None else Some(p.pos - 1)
    }

    ghost function Value(): Page<T>
      reads this, slots
    {
      Page(pos, Name(prev), Name(next), head, slots[..])
    }
  }

  class MPSCQueue<T> {
    const size: nat
    var headOfQueue: BufferList<T>
    var tailOfQueue: BufferList<T>
    var tail: nat
    /** All pages ever linked, in order. */
    ghost var pages: seq<BufferList<T>>
    ghost var model: Queue<T>
    ghost var Repr: set<object>

    ghost predicate Owns(p: BufferList?<T>)
      reads this
    {
      p != null && 0 < p.pos <= |pages| && pages[p.pos - 1] == p
    }

    /** The pages are distinct objects in the order of their positions, and `model` is their value. */
    ghost predicate Valid()
      reads this, Repr
    {
      && this in Repr
      && 0 < size && model.size == size && model.tail == tail
      && Owns(headOfQueue) && Owns(tailOfQueue)
      && model.headPage == headOfQueue.pos - 1 && model.tailPage == tailOfQueue.pos - 1
      && |model.pages| == |pages|
      && (forall k :: 0 <= k < |pages| ==> PageValid(k))
      && (forall j, k :: 0 <= j < k < |pages| ==> pages[j].slots != pages[k].slots)
    }

    ghost predicate PageValid(k: nat)
      requires k < |pages| && k < |model.pages|
      reads this, Repr
    {
      && pages[k] in Repr && pages[k].slots in Repr
      && pages[k].pos == k + 1 && pages[k].slots.Length == size
      && (pages[k].next != null ==> Owns(pages[k].next))
      && (pages[k].prev != null ==> Owns(pages[k].prev))
      && model.pages[k] == pages[k].Value()
    }

    constructor (size: nat)
      requires 0 < size
      ensures Valid() && this.size == size && model == EmptyQueue(size)
      ensures fresh(Repr)
    {
      var first := new BufferList<T>(size, 1, null);
      this.size, tail := size, 0;
      headOfQueue, tailOfQueue := first, first;
      pages := [first];
      model := EmptyQueue(size);
      Repr := {this, first, first.slots};
      new;
      assert first.slots[..] == seq(size, _ => Slot(None, Empty));
    }

    // ----- the single writes -----

    method MoveHead(p: BufferList<T>)
      requires Valid() && Owns(p)
      modifies p`head, this`model
      ensures Valid() && model == SetHead(old(model), p.pos - 1, old(p.head) + 1)
      ensures p.head == old(p.head) + 1
    {
      assert PageValid(p.pos - 1);
      p.head := p.head + 1;
      model := SetHead(model, p.pos - 1, p.head);
      forall k | 0 <= k < |pages| ensures PageValid(k) { assert old(PageValid(k)); }
    }

    method WriteSlot(p: BufferList<T>, i: nat, s: Slot<T>)
      requires Valid() && Owns(p) && i < size
      modifies p.slots, this`model
      ensures Valid() && i < |old(model).pages[p.pos - 1].slots| && model == SetSlot(old(model), p.pos - 1, i, s)
    {
      assert PageValid(p.pos - 1);
      p.slots[i] := s;
      model := SetSlot(model, p.pos - 1, i, s);
      assert p.slots[..] == old(p.slots[..])[i := s];
      forall k | 0 <= k < |pages| ensures PageValid(k) { assert old(PageValid(k)); }
    }

    /** A newly allocated page joins the others, not yet linked. */
    method Admit(n: BufferList<T>, p: BufferList<T>)
      requires Valid() && Owns(p) && n !in Repr && n.slots !in Repr
      requires n.pos == |pages| + 1 && n.prev == p && n.next == null && n.head == 0 && n.slots.Length == size
      requires forall i :: 0 <= i < size ==> n.slots[i] == Slot(None, Empty)
      modifies this`pages, this`model, this`Repr
      ensures Valid() && Owns(n) && pages == old(pages) + [n] && Repr == old(Repr) + {n, n.slots}
      ensures model == old(model).(pages := old(model).pages + [FreshPage(size, n.pos, Some(p.pos - 1))])
    {
      pages := pages + [n];
      Repr := Repr + {n, n.slots};
      model := model.(pages := model.pages + [FreshPage(size, n.pos, Some(p.pos - 1))]);
      assert n.slots[..] == seq(size, _ => Slot(None, Empty));
      forall j | 0 <= j < |old(pages)| ensures pages[j].slots != n.slots { assert old(PageValid(j)); }
      assert PageValid(|old(pages)|);
      forall k | 0 <= k < |old(pages)| ensures PageValid(k) { assert old(PageValid(k)); }
    }

    /** Allocates a page and links it behind `p`: the compare-and-swap that succeeds. */
    method Append(p: BufferList<T>) returns (n: BufferList<T>)
      requires Valid() && Owns(p) && p.pos == |pages|
      modifies p`next, this`pages, this`model, this`Repr
      ensures Valid() && Owns(n) && n.pos == |pages| && p.next == n && fresh(Repr - old(Repr))
      ensures pages == old(pages) + [n]
      ensures model == LinkPage(old(model), p.pos - 1)
    {
      assert PageValid(p.pos - 1);
      n := new BufferList<T>(size, p.pos + 1, p);
      Admit(n, p);
      RelinkNext(p, n);
      assert model.pages == LinkPage(old(model), p.pos - 1).pages;
    }

    method RelinkPrev(n: BufferList<T>, m: BufferList<T>)
      requires Valid() && Owns(n) && Owns(m)
      modifies n`prev, this`model
      ensures Valid() && model == SetPrev(old(model), n.pos - 1, m.pos - 1)
    {
      assert PageValid(n.pos - 1);
      n.prev := m;
      model := SetPrev(model, n.pos - 1, m.pos - 1);
      forall k | 0 <= k < |pages| ensures PageValid(k) { assert old(PageValid(k)); }
    }

    method RelinkNext(m: BufferList<T>, n: BufferList<T>)
      requires Valid() && Owns(n) && Owns(m)
      modifies m`next, this`model
      ensures Valid() && m.next == n && model == SetNext(old(model), m.pos - 1, n.pos - 1)
    {
      assert PageValid(m.pos - 1);
      m.next := n;
      model := SetNext(model, m.pos - 1, n.pos - 1);
      forall k | 0 <= k < |pages| ensures PageValid(k) { assert old(PageValid(k)); }
    }

    method Fold(p: BufferList<T>)
      requires Valid() && Shape(model) && Owns(p) && 1 < p.pos && p.next != null
      modifies (if p.prev == null then {} else {p.prev})`next, {p.next}`prev, this`model
      ensures Valid() && Shape(model) && p.next == old(p.next)
      ensures old(model).pages[p.pos - 1].next.Some? && model == Unlink(old(model), p.pos - 1)
    {
      assert PageValid(p.pos - 1) && PageOk(model, p.pos - 1);
      UnlinkShape(model, p.pos - 1);
      var n, m := p.next, p.prev;
      RelinkPrev(n, m);
      RelinkNext(m, n);
    }

    // ----- dequeue -----

    method TakeAt(p: BufferList<T>, i: nat, moved: bool) returns (r: Taken<T>)
      requires Valid() && Owns(p) && i < size
      modifies p, p.slots, this`model
      ensures Valid() && i < |old(model).pages[p.pos - 1].slots|
      ensures model == TakeSlot(old(model), p.pos - 1, i, moved)
      ensures r == Taken(p.pos - 1, i, old(model).pages[p.pos - 1].slots[i].data)
    {
      assert PageValid(p.pos - 1);
      var s := p.slots[i];
      r := Taken(p.pos - 1, i, s.data);
      WriteSlot(p, i, s.(flag := Handled));
      if moved && i == p.head { MoveHead(p); }
    }

    /** Folds page `p` away and moves on to its next page. */
    method FoldAway(p: BufferList<T>)
      requires Valid() && Shape(model) && Owns(p) && 1 < p.pos && p != tailOfQueue && p.next != null
      modifies (if p.prev == null then {} else {p.prev})`next, {p.next}`prev, this`model
      ensures Valid() && Shape(model)
      ensures && Owns(p.next) && p.next == old(p.next) && p.pos < p.next.pos && p.next.head <= size
              && ScanNext(old(model), p.pos - 1, true, true) == Scan(model, p.next.pos - 1, p.next.head, true, true)
    {
      assert PageValid(p.pos - 1) && PageOk(model, p.pos - 1);
      assert PageValid(p.next.pos - 1);
      ScanFoldsAway(model, p.pos - 1);
      Fold(p);
    }

    /** The end of a fully handled page in the scan: fold it unless it is the last one in use. */
    method FoldOrStop(p: BufferList<T>) returns (n: BufferList?<T>)
      requires Valid() && Shape(model) && Owns(p) && 1 < p.pos
      modifies Repr
      ensures Valid() && Shape(model) && pages == old(pages) && Repr == old(Repr)
      ensures n == null ==> ScanNext(old(model), p.pos - 1, true, true) == (model, None)
      ensures n != null ==> && Owns(n) && p.pos < n.pos && n.head <= size
                            && ScanNext(old(model), p.pos - 1, true, true) == Scan(model, n.pos - 1, n.head, true, true)
    {
      assert PageValid(p.pos - 1) && PageOk(model, p.pos - 1);
      if p == tailOfQueue || p.next == null { return null; }
      assert PageValid(p.prev.pos - 1) && PageValid(p.next.pos - 1);
      FoldAway(p);
      n := p.next;
    }

    /** The end of any other page in the scan. */
    method StepOn(p: BufferList<T>, moved: bool, all: bool) returns (n: BufferList?<T>)
      requires Valid() && Shape(model) && Owns(p) && (moved ==> 1 < p.pos) && !(all && moved)
      ensures n == null ==> ScanNext(model, p.pos - 1, moved, all) == (model, None)
      ensures n != null ==> && Owns(n) && p.pos < n.pos && n.head <= size
                            && ScanNext(model, p.pos - 1, moved, all) == Scan(model, n.pos - 1, n.head, true, true)
    {
      assert PageValid(p.pos - 1) && PageOk(model, p.pos - 1);
      n := p.next;
      if n != null {
        assert PageValid(n.pos - 1);
        ScanNextMoves(model, p.pos - 1, moved, all);
      }
    }

    method NextPage(p: BufferList<T>, moved: bool, all: bool) returns (n: BufferList?<T>)
      requires Valid() && Shape(model) && Owns(p) && (moved ==> 1 < p.pos)
      modifies Repr
      ensures Valid() && Shape(model) && pages == old(pages) && Repr == old(Repr)
      ensures n == null ==> ScanNext(old(model), p.pos - 1, moved, all) == (model, None)
      ensures n != null ==> && Owns(n) && p.pos < n.pos && n.head <= size
                            && ScanNext(old(model), p.pos - 1, moved, all) == Scan(model, n.pos - 1, n.head, true, true)
    {
      if all && moved { n := FoldOrStop(p); } else { n := StepOn(p, moved, all); }
    }

    /** One round of the scan at slot `i` of page `p`. */
    method ScanRound(p: BufferList<T>, i: nat, moved: bool, all: bool)
      returns (r: Option<Taken<T>>, n: BufferList?<T>, j: nat, moved': bool, all': bool)
      requires Valid() && Shape(model) && Owns(p) && i <= size && (moved ==> 1 < p.pos)
      modifies Repr
      ensures Valid() && Shape(old(model)) && pages == old(pages) && Repr == old(Repr)
      ensures n == null ==> Scan(old(model), p.pos - 1, i, moved, all) == (model, r)
      ensures n != null ==> && Shape(model) && Owns(n) && j <= size && (moved' ==> 1 < n.pos)
                            && Scan(old(model), p.pos - 1, i, moved, all) == Scan(model, n.pos - 1, j, moved', all')
                            && (p.pos < n.pos || (p.pos == n.pos && i < j))
    {
      assert PageValid(p.pos - 1) && PageOk(model, p.pos - 1);
      r, n, j, moved', all' := None, p, i, moved, all;
      if i < size {
        var f := p.slots[i].flag;
        if f == Set {
          var t := TakeAt(p, i, moved);
          return Some(t), null, i, moved, all;
        }
        if f == Empty { all' := false; }
        j := i + 1;
      }
      if j >= size {
        n := NextPage(p, moved, all');
        if n != null { j, moved', all' := n.head, true, true; }
      }
    }

    /** The scan behind a stalled head slot.  No producer moves while it runs, so the
        head slot stays empty throughout. */
    method ScanForward(start: BufferList<T>, from: nat) returns (r: Option<Taken<T>>)
      requires Valid() && Shape(model) && Owns(start) && from <= size
      modifies Repr
      ensures Valid() && pages == old(pages) && Repr == old(Repr)
      ensures (model, r) == Scan(old(model), start.pos - 1, from, false, true)
    {
      var p: BufferList?<T>, moved, all := start, false, true;
      var i: nat := from;
      r := None;
      while p != null
        invariant Valid() && pages == old(pages) && Repr == old(Repr)
        invariant p == null ==> Scan(old(model), start.pos - 1, from, false, true) == (model, r)
        invariant p != null ==> && Shape(model) && Owns(p) && i <= size && (moved ==> 1 < p.pos)
                                && Scan(model, p.pos - 1, i, moved, all)
                                   == Scan(old(model), start.pos - 1, from, false, true)
        decreases if p == null then 0 else |pages| - p.pos + 1, size - i
      {
        r, p, i, moved, all := ScanRound(p, i, moved, all);
      }
    }

    /** One round of the outer loop of dequeue. */
    method DequeueRound() returns (done: bool, r: Option<Taken<T>>)
      requires Valid() && Shape(model)
      modifies Repr
      ensures Valid() && pages == old(pages) && Repr == old(Repr)
      ensures done ==> (model, r) == MpscModel.Dequeue(old(model))
      ensures !done ==> Shape(model) && MpscModel.Dequeue(model) == MpscModel.Dequeue(old(model))
      ensures !done ==> || old(headOfQueue).pos < headOfQueue.pos
                        || (headOfQueue == old(headOfQueue) && old(headOfQueue.head) < headOfQueue.head <= size)
    {
      var p := headOfQueue;
      var prevSize := size * (tailOfQueue.pos - 1);
      BaseIsProduct(size, tailOfQueue.pos - 1);
      assert PageValid(p.pos - 1) && PageOk(model, p.pos - 1);
      assert PageOk(model, tailOfQueue.pos - 1);
      if p == tailOfQueue && p.head == tail - prevSize {
        done, r := true, None;
      } else if p.head < size {
        done, r := AtSlot();
      } else {
        done := LeavePage();
        r := None;
      }
    }

    /** The head slot was handled out of order, is set, or is stalled. */
    method AtSlot() returns (done: bool, r: Option<Taken<T>>)
      requires Valid() && Shape(model) && headOfQueue.head < size
      requires !(headOfQueue == tailOfQueue && headOfQueue.head == tail - Base(size, model.tailPage))
      modifies Repr
      ensures Valid() && pages == old(pages) && Repr == old(Repr)
      ensures done ==> (model, r) == MpscModel.Dequeue(old(model))
      ensures !done ==> && Shape(model) && MpscModel.Dequeue(model) == MpscModel.Dequeue(old(model))
                        && headOfQueue == old(headOfQueue) && headOfQueue.head == old(headOfQueue.head) + 1
    {
      var p := headOfQueue;
      assert PageValid(p.pos - 1) && PageOk(model, p.pos - 1);
      assert PageOk(model, model.tailPage);
      var s := p.slots[p.head];
      done, r := true, None;
      if s.flag == Handled {
        SkipHandled();
        done := false;
      } else if s.flag == Set {
        r := Some(Taken(p.pos - 1, p.head, s.data));
        MoveHead(p);
      } else {
        r := ScanForward(p, p.head);
      }
    }

    method SkipHandled()
      requires Valid() && Shape(model) && headOfQueue.head < headOfQueue.slots.Length
      requires headOfQueue.slots[headOfQueue.head].flag == Handled
      requires !(headOfQueue == tailOfQueue && headOfQueue.head == tail - Base(size, model.tailPage))
      modifies headOfQueue`head, this`model
      ensures Valid() && Shape(model) && headOfQueue.head == old(headOfQueue.head) + 1
      ensures MpscModel.Dequeue(model) == MpscModel.Dequeue(old(model))
    {
      var p := headOfQueue;
      assert PageValid(p.pos - 1) && PageOk(model, p.pos - 1);
      assert PageOk(model, model.tailPage);
      SetHeadShape(model, p.pos - 1, p.head + 1);
      MoveHead(p);
    }

    /** The head page is used up: move to the next one if there is one. */
    method LeavePage() returns (done: bool)
      requires Valid() && Shape(model) && headOfQueue.head == size
      requires !(headOfQueue == tailOfQueue && size == tail - Base(size, model.tailPage))
      modifies this`headOfQueue, this`model
      ensures Valid()
      ensures done ==> (model, None) == MpscModel.Dequeue(old(model))
      ensures !done ==> && Shape(model) && MpscModel.Dequeue(model) == MpscModel.Dequeue(old(model))
                        && old(headOfQueue).pos < headOfQueue.pos
    {
      var p := headOfQueue;
      assert PageValid(p.pos - 1) && PageOk(model, p.pos - 1);
      assert PageOk(model, model.tailPage);
      if p == tailOfQueue || p.next == null { return true; }
      MoveHeadShape(model, p.next.pos - 1);
      MoveToPage(p.next);
      done := false;
    }

    method MoveToPage(n: BufferList<T>)
      requires Valid() && Owns(n)
      modifies this`headOfQueue, this`model
      ensures Valid() && headOfQueue == n && model == old(model).(headPage := n.pos - 1)
    {
      headOfQueue := n;
      model := model.(headPage := n.pos - 1);
      forall k | 0 <= k < |pages| ensures PageValid(k) { assert old(PageValid(k)); }
    }

    /** Takes the published element of least location; `Outcome` says when it finds none.
        Between whole calls this is the head of the sequence. */
    method Dequeue() returns (r: Option<Taken<T>>)
      requires Valid() && QueueInv(model)
      modifies Repr
      ensures Valid() && pages == old(pages) && Repr == old(Repr)
      ensures (model, r) == MpscModel.Dequeue(old(model)) && Outcome(old(model), old(model).headPage, model, r)
      ensures forall first: nat, s: seq<T> :: Holds(old(model), first, s) ==> Pops(s, first, model, r)
    {
      var done := false;
      r := None;
      assert PageValid(headOfQueue.pos - 1) && PageOk(model, headOfQueue.pos - 1);
      while !done
        invariant Valid() && pages == old(pages) && Repr == old(Repr)
        invariant done ==> (model, r) == MpscModel.Dequeue(old(model))
        invariant !done ==>
                    && Shape(model) && headOfQueue.head <= size
                    && MpscModel.Dequeue(model) == MpscModel.Dequeue(old(model))
        decreases !done, |pages| - headOfQueue.pos, size - headOfQueue.head
      {
        done, r := DequeueRound();
        assert PageValid(headOfQueue.pos - 1);
        assert !done ==> PageOk(model, headOfQueue.pos - 1);
      }
      DequeueOutcome(old(model));
      forall first: nat, s: seq<T> | Holds(old(model), first, s) ensures Pops(s, first, model, r) {
        HoldsGet(old(model), first, s);
      }
    }

    // ----- enqueue -----

    method MoveTail(n: BufferList<T>)
      requires Valid() && Owns(n)
      modifies this`tailOfQueue, this`model
      ensures Valid() && tailOfQueue == n && model == old(model).(tailPage := n.pos - 1)
    {
      tailOfQueue := n;
      model := model.(tailPage := n.pos - 1);
      forall k | 0 <= k < |pages| ensures PageValid(k) { assert old(PageValid(k)); }
    }

    /** Back to the page of the location, when tail_of_queue_ is already past it. */
    method WalkBack(loc: nat) returns (t: BufferList<T>, prevSize: nat)
      requires Valid() && Shape(model)
      requires forall k :: 0 <= k < |model.pages| && loc < Base(size, k) ==> model.pages[k].prev == Some(k - 1)
      ensures Owns(t) && prevSize == Base(size, t.pos - 1) <= loc && t.pos <= tailOfQueue.pos
      ensures t != tailOfQueue ==> loc < prevSize + size
    {
      t := tailOfQueue;
      prevSize := size * (t.pos - 1);
      BaseIsProduct(size, t.pos - 1);
      while loc < prevSize
        invariant Owns(t) && prevSize == Base(size, t.pos - 1) && t.pos <= tailOfQueue.pos
        invariant t != tailOfQueue ==> loc < prevSize + size
        decreases t.pos
      {
        assert PageValid(t.pos - 1) && PageOk(model, t.pos - 1);
        t := t.prev;
        prevSize := prevSize - size;
      }
    }

    /** The element goes into its slot, the flag is raised, and the producer of slot 1
        reserves the next page. */
    method PlaceAt(t: BufferList<T>, i: nat, x: T, back: bool)
      requires Valid() && Owns(t) && i < size && (t.next == null ==> t.pos == |pages|)
      modifies Repr
      ensures Valid() && fresh(Repr - old(Repr))
      ensures |old(model).pages[t.pos - 1].slots| == size && model == Placed(old(model), t.pos - 1, i, x, back)
    {
      assert PageValid(t.pos - 1);
      WriteSlot(t, i, t.slots[i].(data := Some(x)));
      assert PageValid(t.pos - 1);
      WriteSlot(t, i, t.slots[i].(flag := Set));
      assert PageValid(t.pos - 1);
      if i == 1 && !back && t.next == null {
        var n := Append(t);
      }
    }

    /** The location is behind the tail page: move tail_of_queue_ to the next page. */
    method MoveOn(t: BufferList<T>)
      requires Valid() && t == tailOfQueue && (t.next == null ==> t.pos == |pages|)
      modifies Repr
      ensures Valid() && fresh(Repr - old(Repr))
      ensures model == Advanced(old(model))
    {
      assert PageValid(t.pos - 1);
      if t.next == null {
        var n := Append(t);
        MoveTail(n);
      } else if tailOfQueue == t {
        MoveTail(t.next);
      }
    }

    /** One round of the outer loop of enqueue; `m` is the page where the walk back ends. */
    method Round(x: T, loc: nat) returns (done: bool, ghost m: nat)
      requires Valid() && Shape(model)
      requires forall k :: 0 <= k < |model.pages| && loc < Base(size, k) ==> model.pages[k].prev == Some(k - 1)
      modifies Repr
      ensures Valid() && fresh(Repr - old(Repr))
      ensures m <= old(model).tailPage && Base(size, m) <= loc
      ensures m < old(model).tailPage ==> loc < Base(size, m) + size
      ensures done <==> loc < Base(size, m) + size
      ensures m < |old(model).pages| && |old(model).pages[m].slots| == size
      ensures model == if done then Placed(old(model), m, loc - Base(size, m), x, m < old(model).tailPage)
              else Advanced(old(model))
    {
      var t, prevSize := WalkBack(loc);
      m := t.pos - 1;
      assert PageValid(t.pos - 1) && PageOk(model, t.pos - 1);
      done := loc < prevSize + size;
      if done {
        PlaceAt(t, loc - prevSize, x, t != tailOfQueue);
      } else {
        MoveOn(t);
      }
    }

    method FinishRound(x: T, loc: nat, ghost goal: Queue<T>) returns (done: bool)
      requires Valid() && At(model, Seeking(x, loc, false), goal)
      modifies Repr
      ensures Valid() && fresh(Repr - old(Repr))
      ensures if done then model == goal
              else && At(model, Seeking(x, loc, false), goal)
                   && Base(size, old(model).tailPage) < Base(size, model.tailPage) <= loc
    {
      ghost var q, m := model, 0;
      done, m := Round(x, loc);
      RoundAlong(q, x, loc, m, goal);
    }

    /** The rest of one enqueue after location `loc` was drawn from tail_.  Terminates
        because every round brings the tail page closer to the location. */
    method Finish(x: T, loc: nat)
      requires Valid() && QueueInv(model)
      requires LocalOk(model, Seeking(x, loc, false)) && Alone(model, Seeking(x, loc, false))
      modifies Repr
      ensures Valid() && fresh(Repr - old(Repr))
      ensures model == RunProducer(old(model), Seeking(x, loc, false))
    {
      ghost var goal := RunProducer(model, Seeking(x, loc, false));
      var done := false;
      while !done
        invariant Valid() && fresh(Repr - old(Repr))
        invariant if done then model == goal else At(model, Seeking(x, loc, false), goal)
        decreases !done, loc - Base(size, model.tailPage)
      {
        done := FinishRound(x, loc, goal);
      }
    }

    /** One whole call: the element is appended to the sequence that the queue holds. */
    method Enqueue(x: T)
      requires Valid() && QueueInv(model)
      modifies Repr
      ensures Valid() && fresh(Repr - old(Repr))
      ensures QueueInv(model) && model == MpscFifo.Enqueue(old(model), x)
      ensures forall first: nat, s: seq<T> :: Holds(old(model), first, s) ==> Holds(model, first, s + [x])
    {
      ghost var q := model;
      EnqueueInv(q, x);
      var loc := tail;
      tail := tail + 1;
      model := model.(tail := tail);
      forall k | 0 <= k < |pages| ensures PageValid(k) { assert old(PageValid(k)); }
      StartsSeeking(q, x);
      Finish(x, loc);
      forall first: nat, s: seq<T> | Holds(q, first, s) ensures Holds(model, first, s + [x]) {
        HoldsPut(q, first, s, x);
      }
    }
  }
}
