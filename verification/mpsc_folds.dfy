/** Which pages a dequeue folds away, in closed form. */
module MpscFolds {
  import opened Basics
  import opened MpscModel
  import opened MpscConsumer

  /** Every ready element lies behind page `f`. */
  ghost predicate NoneUpTo<T>(q: Queue<T>, f: nat) {
    forall k: nat, i: nat :: Ready(q, k, i) ==> f < k
  }

  /** A search from page `k` that meets a stalled slot folds page `f`: it arrives there along
      next_, with no ready element and no handled tail page on the way, the page is fully
      handled, and there is a page behind it to move to. */
  ghost predicate FoldedFrom<T>(q: Queue<T>, k: nat, f: nat)
    requires Shape(q) && k < |q.pages|
  {
    && f < |q.pages| && Reaches(q, k, f) && Done(q, f)
    && f != q.tailPage && q.pages[f].next.Some?
    && NoneUpTo(q, f)
    && !(Blocked(q, k) && q.tailPage < f)
  }

  /** On the way to page `f` there is a page that is not fully handled. */
  ghost predicate StalledBefore<T>(q: Queue<T>, k: nat, f: nat)
    requires Shape(q) && k < |q.pages|
  {
    exists j :: 0 <= j < f && j < |q.pages| && Reaches(q, k, j) && !Done(q, j)
  }

  lemma ReachesNext<T>(q: Queue<T>, k: nat, b: nat)
    requires Shape(q) && k < |q.pages| && b != k
    ensures PageOk(q, k)
    ensures Reaches(q, k, b) <==> q.pages[k].next.Some? && Reaches(q, q.pages[k].next.value, b)
  {
    assert PageOk(q, k);
  }

  /** Moving on from page `k`, which may be unlinked, changes nothing for the pages behind. */
  lemma FoldedNext<T>(q: Queue<T>, k: nat, n: nat, q1: Queue<T>, f: nat)
    requires Shape(q) && k < |q.pages| && q.pages[k].next == Some(n) && Shape(q1) && n < |q1.pages|
    requires Takes(q, q1, None) && (Done(q, q.tailPage) ==> k != q.tailPage) && f != k
    requires forall j :: n <= j < |q.pages| ==> q1.pages[j].next == q.pages[j].next
    ensures FoldedFrom(q, k, f) <==> FoldedFrom(q1, n, f)
  {
    DoneSame(q, q1);
    ReachesNext(q, k, f);
    ReachesSame(q, q1, n, f);
    ReachesSame(q, q1, n, q.tailPage);
    if Done(q, q.tailPage) { ReachesNext(q, k, q.tailPage); }
    if Reaches(q, n, f) { ReachesForward(q, n, f); }
  }

  lemma {:induction false} ScanFoldsIff<T>(q: Queue<T>, k: nat, i: nat, moved: bool, all: bool, f: nat)
    requires ScanPre(q, k, i, moved, all) && (!moved ==> !Done(q, k))
    ensures f in ScanFolds(q, k, i, moved, all) <==> FoldedFrom(q, k, f)
    decreases |q.pages| - k, q.size - i, 1
  {
    assert PageOk(q, k);
    if i < q.size {
      var flag := q.pages[k].slots[i].flag;
      assert Gone(q, k, i) <==> flag == Handled;
      if flag == Set {
        assert Ready(q, k, i);
        if Reaches(q, k, f) { ReachesForward(q, k, f); }
      } else if i + 1 < q.size {
        ScanFoldsIff(q, k, i + 1, moved, all && flag != Empty, f);
      } else {
        ScanNextFoldsIff(q, k, moved, all && flag != Empty, f);
      }
    } else {
      ScanNextFoldsIff(q, k, moved, all, f);
    }
  }

  lemma {:induction false} ScanNextFoldsIff<T>(q: Queue<T>, k: nat, moved: bool, all: bool, f: nat)
    requires ScanPre(q, k, q.size, moved, all) && (!moved ==> !Done(q, k))
    ensures f in ScanNextFolds(q, k, moved, all) <==> FoldedFrom(q, k, f)
    decreases |q.pages| - k, 0, 0
  {
    assert PageOk(q, k);
    assert all <==> Done(q, k);
    if Reaches(q, k, f) { ReachesForward(q, k, f); }
    if (all && moved && k == q.tailPage) || q.pages[k].next.None? {
      ScanStops(q, k, f);
    } else {
      var n := q.pages[k].next.value;
      var q1 := if all && moved then Unlink(q, k) else q;
      if all && moved { UnlinkTakes(q, k); }
      ScanStart(q, k, n, q1);
      ScanNextCases(q, k, moved, all);
      ScanFoldsIff(q1, n, q1.pages[n].head, true, true, f);
      if f == k {
        FirstFolded(q, k, n, q1);
      } else {
        FoldedNext(q, k, n, q1, f);
      }
    }
  }

  /** A search that ends at page `k` folds nothing from there on. */
  lemma ScanStops<T>(q: Queue<T>, k: nat, f: nat)
    requires Shape(q) && k < |q.pages| && ((Done(q, k) && k == q.tailPage) || q.pages[k].next.None?)
    ensures !FoldedFrom(q, k, f)
  {
    if f != k { ReachesNext(q, k, f); }
    if Reaches(q, k, f) { ReachesForward(q, k, f); }
  }

  /** Page `k` itself, with `q1` the queue behind it. */
  lemma FirstFolded<T>(q: Queue<T>, k: nat, n: nat, q1: Queue<T>)
    requires Shape(q) && k < |q.pages| && q.pages[k].next == Some(n) && Shape(q1) && n < |q1.pages|
    requires Done(q, k) ==> k != q.tailPage
    requires forall k': nat, i': nat :: Ready(q, k', i') ==> k < k'
    ensures FoldedFrom(q, k, k) <==> Done(q, k)
    ensures !FoldedFrom(q1, n, k)
  {
    assert PageOk(q, k);
    if Reaches(q1, n, k) { ReachesForward(q1, n, k); }
    if Blocked(q, k) { ReachesForward(q, k, q.tailPage); }
  }

  /** A dequeue folds page `f` exactly when it is stalled at a page before it and the search
      from the head page folds it. */
  lemma {:induction false} FoldsIff<T>(q: Queue<T>, f: nat)
    requires QueueInv(q)
    ensures f in Folds(q) <==> FoldedFrom(q, q.headPage, f) && StalledBefore(q, q.headPage, f)
    decreases |q.pages| - q.headPage, q.size - q.pages[q.headPage].head
  {
    var k := q.headPage;
    var h := q.pages[k].head;
    assert PageOk(q, k) && PageOk(q, q.tailPage);
    if k == q.tailPage && h == q.tail - Base(q.size, k) {
      DequeueStays(q);
      NothingDrawnBehind(q, f);
    } else if h < q.size {
      match q.pages[k].slots[h].flag
      case Handled =>
        assert Gone(q, k, h);
        SetHeadTakes(q, k, None);
        var q1 := SetHead(q, k, h + 1);
        FoldsIff(q1, f);
        DequeueSkips(q);
        SameLinksFold(q, q1, k, f);
      case Set =>
        DequeueStays(q);
        assert Ready(q, k, h);
        if Reaches(q, k, f) { ReachesForward(q, k, f); }
      case Empty =>
        assert !Gone(q, k, h);
        NothingBeforeHead(q);
        DequeueScans(q);
        ScanFoldsIff(q, k, h, false, true, f);
        StalledHere(q, f);
    } else if k != q.tailPage && q.pages[k].next.Some? {
      var n := q.pages[k].next.value;
      MoveHeadTakes(q, n);
      var q1 := q.(headPage := n);
      FoldsIff(q1, f);
      DequeueLeaves(q);
      LeavingHead(q, n, f);
      SameLinksFold(q, q1, n, f);
    } else {
      DequeueStays(q);
      HandledHead(q);
      ScanStops(q, k, f);
    }
  }

  lemma HandledHead<T>(q: Queue<T>)
    requires QueueInv(q) && q.pages[q.headPage].head == q.size
    ensures Done(q, q.headPage)
  {
    assert PageOk(q, q.headPage);
  }

  /** Two queues with the same elements and the same links. */
  lemma SameLinksFold<T>(q: Queue<T>, q1: Queue<T>, k: nat, f: nat)
    requires Shape(q) && Shape(q1) && Takes(q, q1, None) && k < |q.pages|
    requires forall j :: 0 <= j < |q.pages| ==> q1.pages[j].next == q.pages[j].next
    ensures FoldedFrom(q, k, f) <==> FoldedFrom(q1, k, f)
    ensures StalledBefore(q, k, f) <==> StalledBefore(q1, k, f)
  {
    DoneSame(q, q1);
    ReachesSame(q, q1, k, f);
    ReachesSame(q, q1, k, q.tailPage);
    forall j: nat ensures Reaches(q, k, j) <==> Reaches(q1, k, j) { ReachesSame(q, q1, k, j); }
  }

  /** The head slot is unset, so its page is where the dequeue is stalled. */
  lemma StalledHere<T>(q: Queue<T>, f: nat)
    requires QueueInv(q) && !Done(q, q.headPage)
    ensures FoldedFrom(q, q.headPage, f) ==> StalledBefore(q, q.headPage, f)
  {
    if FoldedFrom(q, q.headPage, f) {
      ReachesForward(q, q.headPage, f);
      assert Reaches(q, q.headPage, q.headPage);
    }
  }

  /** Leaving a handled head page. */
  lemma LeavingHead<T>(q: Queue<T>, n: nat, f: nat)
    requires QueueInv(q) && q.pages[q.headPage].head == q.size && q.pages[q.headPage].next == Some(n)
    requires q.headPage != q.tailPage && n < |q.pages|
    ensures FoldedFrom(q, q.headPage, f) && StalledBefore(q, q.headPage, f)
            <==> FoldedFrom(q, n, f) && StalledBefore(q, n, f)
  {
    var k := q.headPage;
    HandledHead(q);
    assert PageOk(q, k);
    forall j: nat | j != k ensures Reaches(q, k, j) <==> Reaches(q, n, j) { ReachesNext(q, k, j); }
    forall j: nat ensures Reaches(q, n, j) ==> k < j { if Reaches(q, n, j) { ReachesForward(q, n, j); } }
    forall j: nat ensures Reaches(q, k, j) ==> k <= j { if Reaches(q, k, j) { ReachesForward(q, k, j); } }
    if f != k { FoldedNext(q, k, n, q, f); }
  }

  /** At the end of what was drawn nothing behind the head page is handled. */
  lemma NothingDrawnBehind<T>(q: Queue<T>, f: nat)
    requires QueueInv(q) && q.headPage == q.tailPage && q.tail == Loc(q.size, q.headPage, q.pages[q.headPage].head)
    ensures !(FoldedFrom(q, q.headPage, f) && StalledBefore(q, q.headPage, f))
  {
    var k := q.headPage;
    assert PageOk(q, k);
    if FoldedFrom(q, k, f) {
      ReachesForward(q, k, f);
      assert Gone(q, f, 0) && Published(q, f, 0);
      BaseOrder(q.size, k, f);
    }
  }
}
