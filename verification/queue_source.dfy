/** The queue that gathers the output of child fragments: QueueSourceState of
    src/executor/operator_state.cpp, fed by the sink of src/executor/operator/physical_sink.cpp. */
module QueueSource {
  import opened Basics

  /** A message of a child task.  `index` and `count` place a block in its batch. */
  datatype Message<+B> =
    | Data(fragment: nat, block: B, index: Option<nat>, count: nat, last: bool, hitsFlag: bool, hits: nat)
    | Error(fragment: nat, status: nat)
    | Nothing(fragment: nat)

  /** The receiver takes this message as the end of its task. */
  predicate Completes<B>(m: Message<B>) {
    m.Data? ==> m.last && (m.index.None? || m.index.value + 1 == m.count)
  }

  // ----- the receiver -----

  /** The operator behind the queue, by what it does with a block. */
  datatype NextOp = KeepsLatest | Collects | CollectsByFragment | CollectsAndCounts

  /** The input fields of that operator.  MergeKnn, MergeMatchSparse and MergeAggregate keep
      the latest block, MergeMatchTensor collects them, Fusion collects them by fragment,
      MergeLimit and MergeTop collect them and add up the hits. */
  datatype NextState<B> = NextState(op: NextOp, latest: Option<B>, blocks: seq<B>, byFragment: map<nat, seq<B>>,
                                    hitsFlag: bool, hits: nat, complete: bool, closed: bool)

  /** `status` is the first error seen; `pending` is num_tasks_. */
  datatype Receiver<B> = Receiver(status: Option<nat>, pending: map<nat, nat>, next: NextState<B>)

  const WRAP: nat := 0x1_0000_0000_0000_0000

  /** MarkCompletedTask; None for the unexpected-data error. */
  function Mark(pending: map<nat, nat>, f: nat): Option<map<nat, nat>> {
    if f !in pending then None
    else
      var n := if pending[f] == 0 then WRAP - 1 else pending[f] - 1;
      Some(if n == 0 then pending - {f} else pending[f := n])
  }

  function BlocksOf<B>(m: map<nat, seq<B>>, f: nat): seq<B> {
    if f in m then m[f] else []
  }

  function HandOn<B>(n: NextState<B>, m: Message<B>, completed: bool): NextState<B> {
    if n.op == KeepsLatest then
      n.(latest := if m.Data? then Some(m.block) else n.latest, complete := completed)
    else if n.op == Collects then
      n.(blocks := if m.Data? then n.blocks + [m.block] else n.blocks, complete := completed)
    else if n.op == CollectsByFragment then
      n.(byFragment := if m.Data? then n.byFragment[m.fragment := BlocksOf(n.byFragment, m.fragment) + [m.block]]
          else n.byFragment,
         complete := completed)
    else
      var counted := m.Data? && m.hitsFlag;
      var c := n.complete || completed;
      n.(blocks := if m.Data? then n.blocks + [m.block] else n.blocks,
         hitsFlag := n.hitsFlag || counted, hits := if counted then n.hits + m.hits else n.hits,
         complete := c, closed := n.closed || c)
  }

  /** One GetData on message `m`; None for the unexpected-data error. */
  function Receive<B>(s: Receiver<B>, m: Message<B>): Option<Receiver<B>> {
    var marked := if Completes(m) then Mark(s.pending, m.fragment) else Some(s.pending);
    if marked.None? then None
    else
      var status := if m.Error? && s.status.None? then Some(m.status) else s.status;
      Some(Receiver(status, marked.value, HandOn(s.next, m, marked.value == map[])))
  }

  function ReceiveAll<B>(s: Receiver<B>, ms: seq<Message<B>>): Option<Receiver<B>>
    decreases |ms|
  {
    if ms == [] then Some(s)
    else
      var r := Receive(s, ms[0]);
      if r.None? then None else ReceiveAll(r.value, ms[1..])
  }

  // ----- the child tasks -----

  /** What is left to send of one task: messages of its fragment, of which exactly the last
      one completes it.  A finished task has nothing left. */
  ghost predicate Script<B>(ms: seq<Message<B>>, f: nat) {
    forall i :: 0 <= i < |ms| ==> ms[i].fragment == f && (Completes(ms[i]) <==> i == |ms| - 1)
  }

  /** Tasks: task `t` belongs to fragment `frags[t]` and still has `left[t]` to send. */
  ghost predicate Tasks<B>(frags: seq<nat>, left: seq<seq<Message<B>>>) {
    |frags| == |left| && forall t :: 0 <= t < |left| ==> Script(left[t], frags[t])
  }

  function Unfinished<B>(frags: seq<nat>, left: seq<seq<Message<B>>>, f: nat): nat
    requires |frags| == |left|
  {
    if frags == [] then 0
    else (if frags[0] == f && left[0] != [] then 1 else 0) + Unfinished(frags[1..], left[1..], f)
  }

  /** The order of arrival: each entry names a task, which sends its next message. */
  ghost predicate Schedule<B>(left: seq<seq<Message<B>>>, order: seq<nat>)
    decreases |order|
  {
    order == [] || (order[0] < |left| && left[order[0]] != [] && Schedule(Sent(left, order[0]), order[1..]))
  }

  function Sent<B>(left: seq<seq<Message<B>>>, t: nat): (r: seq<seq<Message<B>>>)
    requires t < |left| && left[t] != []
    ensures |r| == |left|
  {
    left[t := left[t][1..]]
  }

  function Arrivals<B>(left: seq<seq<Message<B>>>, order: seq<nat>): seq<Message<B>>
    requires Schedule(left, order)
    decreases |order|
  {
    if order == [] then [] else [left[order[0]][0]] + Arrivals(Sent(left, order[0]), order[1..])
  }

  function Remaining<B>(left: seq<seq<Message<B>>>, order: seq<nat>): (r: seq<seq<Message<B>>>)
    requires Schedule(left, order)
    ensures |r| == |left|
    decreases |order|
  {
    if order == [] then left else Remaining(Sent(left, order[0]), order[1..])
  }

  // ----- the protocol -----

  /** num_tasks_ holds the number of unfinished tasks of each fragment that has any. */
  ghost predicate Counts<B>(pending: map<nat, nat>, frags: seq<nat>, left: seq<seq<Message<B>>>)
    requires |frags| == |left|
  {
    forall f: nat :: if Unfinished(frags, left, f) == 0 then f !in pending
                     else f in pending && pending[f] == Unfinished(frags, left, f)
  }

  lemma {:induction false} UnfinishedAfter<B>(frags: seq<nat>, left: seq<seq<Message<B>>>, t: nat, f: nat)
    requires |frags| == |left| && t < |left| && left[t] != []
    ensures Unfinished(frags, Sent(left, t), f)
            == Unfinished(frags, left, f) - (if frags[t] == f && |left[t]| == 1 then 1 else 0)
    ensures frags[t] == f ==> Unfinished(frags, left, f) > 0
  {
    if t == 0 {
      assert Sent(left, t)[1..] == left[1..];
    } else {
      assert Sent(left, t)[1..] == Sent(left[1..], t - 1);
      UnfinishedAfter(frags[1..], left[1..], t - 1, f);
    }
  }

  /** One message, whoever sends it: it is never unexpected and the counts stay right. */
  lemma ReceiveCounts<B>(s: Receiver<B>, frags: seq<nat>, left: seq<seq<Message<B>>>, t: nat)
    requires Tasks(frags, left) && Counts(s.pending, frags, left) && t < |left| && left[t] != []
    ensures var r := Receive(s, left[t][0]);
            && r.Some? && Counts(r.value.pending, frags, Sent(left, t)) && Tasks(frags, Sent(left, t))
  {
    var m := left[t][0];
    assert Script(left[t], frags[t]);
    forall f: nat
      ensures Unfinished(frags, Sent(left, t), f)
              == Unfinished(frags, left, f) - (if frags[t] == f && |left[t]| == 1 then 1 else 0)
    {
      UnfinishedAfter(frags, left, t, f);
    }
    UnfinishedAfter(frags, left, t, frags[t]);
    assert Script(left[t][1..], frags[t]);
  }

  /** Every interleaving of the child tasks: no message is unexpected, and num_tasks_ keeps
      counting the unfinished tasks. */
  lemma {:induction false} EveryInterleaving<B>(s: Receiver<B>, frags: seq<nat>, left: seq<seq<Message<B>>>,
        order: seq<nat>)
    requires Tasks(frags, left) && Counts(s.pending, frags, left) && Schedule(left, order)
    ensures var r := ReceiveAll(s, Arrivals(left, order));
            && r.Some? && Counts(r.value.pending, frags, Remaining(left, order)) && Tasks(frags, Remaining(left, order))
    decreases |order|
  {
    if order != [] {
      ReceiveCounts(s, frags, left, order[0]);
      var ms := Arrivals(left, order);
      assert ms[0] == left[order[0]][0] && ms[1..] == Arrivals(Sent(left, order[0]), order[1..]);
      EveryInterleaving(Receive(s, ms[0]).value, frags, Sent(left, order[0]), order[1..]);
    }
  }

  ghost predicate AllSent<B>(left: seq<seq<Message<B>>>) {
    forall t :: 0 <= t < |left| ==> left[t] == []
  }

  lemma {:induction false} UnfinishedOne<B>(frags: seq<nat>, left: seq<seq<Message<B>>>, t: nat)
    requires |frags| == |left| && t < |left| && left[t] != []
    ensures Unfinished(frags, left, frags[t]) > 0
  {
    if t > 0 { UnfinishedOne(frags[1..], left[1..], t - 1); }
  }

  lemma {:induction false} UnfinishedNone<B>(frags: seq<nat>, left: seq<seq<Message<B>>>, f: nat)
    requires |frags| == |left| && AllSent(left)
    ensures Unfinished(frags, left, f) == 0
  {
    if frags != [] { UnfinishedNone(frags[1..], left[1..], f); }
  }

  lemma EmptyIffAllSent<B>(pending: map<nat, nat>, frags: seq<nat>, left: seq<seq<Message<B>>>)
    requires |frags| == |left| && Counts(pending, frags, left)
    ensures pending == map[] <==> AllSent(left)
  {
    if AllSent(left) {
      forall f: nat ensures f !in pending { UnfinishedNone(frags, left, f); }
    } else {
      var t :| 0 <= t < |left| && left[t] != [];
      UnfinishedOne(frags, left, t);
      assert frags[t] in pending;
    }
  }

  lemma {:induction false} NothingAfterAllSent<B>(left: seq<seq<Message<B>>>, order: seq<nat>, k: nat)
    requires Schedule(left, order) && k <= |order|
    ensures Schedule(left, order[..k])
    ensures AllSent(Remaining(left, order[..k])) ==> k == |order|
    decreases |order|
  {
    if k > 0 {
      NothingAfterAllSent(Sent(left, order[0]), order[1..], k - 1);
      assert order[..k][1..] == order[1..][..k - 1];
    } else {
      assert order[..0] == [];
      if order != [] { assert left[order[0]] != []; }
    }
  }

  /** After `k` messages GetData has returned true exactly when every task has sent all its
      messages; so it does on the last message and on none before it. */
  lemma TrueOnLastMessage<B>(s: Receiver<B>, frags: seq<nat>, left: seq<seq<Message<B>>>, order: seq<nat>, k: nat)
    requires Tasks(frags, left) && Counts(s.pending, frags, left) && Schedule(left, order) && k <= |order|
    ensures Schedule(left, order[..k])
    ensures var r := ReceiveAll(s, Arrivals(left, order[..k]));
            && r.Some?
            && (r.value.pending == map[] <==> AllSent(Remaining(left, order[..k])))
            && (r.value.pending == map[] ==> k == |order|)
  {
    NothingAfterAllSent(left, order, k);
    EveryInterleaving(s, frags, left, order[..k]);
    EmptyIffAllSent(ReceiveAll(s, Arrivals(left, order[..k])).value.pending, frags, Remaining(left, order[..k]));
  }

  /** num_tasks_ at the start: the number of tasks of each child fragment. */
  ghost function Announced(frags: seq<nat>): map<nat, nat> {
    map f | f in frags :: multiset(frags)[f]
  }

  lemma {:induction false} AllUnfinished<B>(frags: seq<nat>, left: seq<seq<Message<B>>>, f: nat)
    requires |frags| == |left| && forall t :: 0 <= t < |left| ==> left[t] != []
    ensures Unfinished(frags, left, f) == multiset(frags)[f]
  {
    if frags != [] {
      AllUnfinished(frags[1..], left[1..], f);
      assert frags == [frags[0]] + frags[1..];
    }
  }

  /** A child fragment with the number of its tasks. */
  datatype Child = Child(fragment: nat, tasks: nat)

  /** The fragment of each task of the children. */
  function TaskFragments(children: seq<Child>): seq<nat> {
    if children == [] then []
    else TaskFragments(children[..|children| - 1])
         + seq(children[|children| - 1].tasks, _ => children[|children| - 1].fragment)
  }

  ghost predicate DistinctFragments(children: seq<Child>) {
    forall i, j :: 0 <= i < j < |children| ==> children[i].fragment != children[j].fragment
  }

  lemma {:induction false} TaskFragmentIn(children: seq<Child>, f: nat)
    requires f in TaskFragments(children)
    ensures exists i :: 0 <= i < |children| && children[i].fragment == f
    decreases |children|
  {
    var n := |children| - 1;
    if f in TaskFragments(children[..n]) {
      TaskFragmentIn(children[..n], f);
      var i :| 0 <= i < n && children[..n][i].fragment == f;
      assert children[i].fragment == f;
    }
  }

  lemma {:induction false} CountCopies(n: nat, f: nat, g: nat)
    ensures multiset(seq(n, _ => f))[g] == if f == g then n else 0
    decreases n
  {
    var s := seq(n, _ => f);
    if n > 0 {
      CountCopies(n - 1, f, g);
      assert s == seq(n - 1, _ => f) + [f];
    }
  }

  lemma AnnouncedNext(frags: seq<nat>, f: nat, n: nat)
    requires f !in frags && n > 0
    ensures Announced(frags + seq(n, _ => f)) == Announced(frags)[f := n]
  {
    var more := seq(n, _ => f);
    assert more[0] == f;
    forall g: nat ensures multiset(frags + more)[g] == multiset(frags)[g] + if f == g then n else 0 {
      CountCopies(n, f, g);
    }
    forall g: nat ensures g in frags + more <==> g in frags || g == f {
      if g in more { var i :| 0 <= i < n && more[i] == g; }
    }
  }

  lemma ChildNext(children: seq<Child>, k: nat)
    requires k < |children| && DistinctFragments(children)
    ensures var c := children[k];
            var was := Announced(TaskFragments(children[..k]));
            Announced(TaskFragments(children[..k + 1])) == if c.tasks == 0 then was else was[c.fragment := c.tasks]
  {
    var c, frags := children[k], TaskFragments(children[..k]);
    assert children[..k + 1][..k] == children[..k];
    if c.tasks == 0 {
      assert frags + seq(0, _ => c.fragment) == frags;
    } else {
      if c.fragment in frags { TaskFragmentIn(children[..k], c.fragment); }
      AnnouncedNext(frags, c.fragment, c.tasks);
    }
  }

  lemma AnnouncedCounts<B>(frags: seq<nat>, left: seq<seq<Message<B>>>)
    requires |frags| == |left| && forall t :: 0 <= t < |left| ==> left[t] != []
    ensures Counts(Announced(frags), frags, left)
  {
    forall f: nat ensures Unfinished(frags, left, f) == multiset(frags)[f] { AllUnfinished(frags, left, f); }
  }

  // ----- any messages -----

  /** The completing messages of fragment `f`. */
  function Completed<B>(ms: seq<Message<B>>, f: nat): nat {
    if ms == [] then 0 else (if Completes(ms[0]) && ms[0].fragment == f then 1 else 0) + Completed(ms[1..], f)
  }

  /** The completions that fragment `f` may still send.  A count of zero would be decremented
      before it is compared, and stands for 2^64. */
  function PendingOf(pending: map<nat, nat>, f: nat): nat {
    if f !in pending then 0 else if pending[f] == 0 then WRAP else pending[f]
  }

  lemma ReceiveOne<B>(s: Receiver<B>, m: Message<B>)
    ensures Receive(s, m).Some? <==> (Completes(m) ==> PendingOf(s.pending, m.fragment) > 0)
    ensures Receive(s, m).Some? ==> forall f: nat ::
              PendingOf(Receive(s, m).value.pending, f) + Completed([m], f) == PendingOf(s.pending, f)
  {
    forall f: nat ensures Completed([m], f) == if Completes(m) && m.fragment == f then 1 else 0 {
      assert [m][1..] == [];
    }
  }

  /** The last pending task: GetData answers true on an error, on an empty message, and on data
      of the last batch that have no place in it or the last one. */
  lemma LastTaskAnswers<B>(s: Receiver<B>, m: Message<B>)
    requires s.pending == map[m.fragment := 1]
    ensures Receive(s, m).Some?
    ensures Receive(s, m).value.pending == map[] <==>
            match m
            case Data(_, _, index, count, last, _, _) => last && (index == None || index == Some(count - 1))
            case Error(_, _) => true
            case Nothing(_) => true
  {
    var r := Receive(s, m).value;
    if Completes(m) { assert r.pending == map[]; } else { assert m.fragment in r.pending; }
  }

  /** num_tasks_ counts in 64 bits. */
  lemma WrapsAt()
    ensures WRAP == 0x1_0000_0000 * 0x1_0000_0000
  {
  }

  /** Whatever the messages are and whoever sends them: the unexpected-data error stays away
      exactly when no fragment sends more completing messages than it has pending tasks. */
  lemma {:induction false} ReceivedIff<B>(s: Receiver<B>, ms: seq<Message<B>>)
    ensures ReceiveAll(s, ms).Some? <==> forall f: nat :: Completed(ms, f) <= PendingOf(s.pending, f)
    decreases |ms|
  {
    if ms != [] {
      var m, rest := ms[0], ms[1..];
      ReceiveOne(s, m);
      forall f: nat ensures Completed(ms, f) == Completed([m], f) + Completed(rest, f) { CompletedCons(ms, f); }
      if Receive(s, m).Some? {
        ReceivedIff(Receive(s, m).value, rest);
      } else {
        assert Completed(ms, m.fragment) > PendingOf(s.pending, m.fragment);
      }
    }
  }

  lemma CompletedCons<B>(ms: seq<Message<B>>, f: nat)
    requires ms != []
    ensures Completed(ms, f) == Completed([ms[0]], f) + Completed(ms[1..], f)
  {
    assert [ms[0]][1..] == [];
  }

  /** Pending tasks and completions of a fragment always add up to the same number. */
  lemma {:induction false} PendingPlusCompleted<B>(s: Receiver<B>, ms: seq<Message<B>>, f: nat)
    requires ReceiveAll(s, ms).Some?
    ensures PendingOf(ReceiveAll(s, ms).value.pending, f) + Completed(ms, f) == PendingOf(s.pending, f)
    decreases |ms|
  {
    if ms != [] {
      ReceiveOne(s, ms[0]);
      CompletedCons(ms, f);
      PendingPlusCompleted(Receive(s, ms[0]).value, ms[1..], f);
    }
  }

  /** GetData answers true after these messages exactly when every fragment has sent as many
      completing messages as it had pending tasks. */
  lemma AnswersTrueIff<B>(s: Receiver<B>, ms: seq<Message<B>>)
    requires ReceiveAll(s, ms).Some?
    ensures ReceiveAll(s, ms).value.pending == map[]
            <==> forall f: nat :: Completed(ms, f) == PendingOf(s.pending, f)
  {
    var r := ReceiveAll(s, ms).value.pending;
    forall f: nat ensures PendingOf(r, f) + Completed(ms, f) == PendingOf(s.pending, f) {
      PendingPlusCompleted(s, ms, f);
    }
    if forall f: nat :: Completed(ms, f) == PendingOf(s.pending, f) {
      forall f: nat ensures f !in r { assert PendingOf(r, f) == 0; }
    }
  }

  /** The completing messages of fragment `f` that all tasks together still have to send. */
  function Total<B>(left: seq<seq<Message<B>>>, f: nat): nat {
    if left == [] then 0 else Completed(left[0], f) + Total(left[1..], f)
  }

  lemma {:induction false} TotalAfter<B>(left: seq<seq<Message<B>>>, t: nat, f: nat)
    requires t < |left| && left[t] != []
    ensures Completed([left[t][0]], f) + Total(Sent(left, t), f) == Total(left, f)
  {
    if t == 0 {
      CompletedCons(left[0], f);
      assert Sent(left, t)[1..] == left[1..];
    } else {
      assert Sent(left, t)[1..] == Sent(left[1..], t - 1);
      TotalAfter(left[1..], t - 1, f);
    }
  }

  lemma {:induction false} CompletedArrivals<B>(left: seq<seq<Message<B>>>, order: seq<nat>, f: nat)
    requires Schedule(left, order)
    ensures Completed(Arrivals(left, order), f) + Total(Remaining(left, order), f) == Total(left, f)
    decreases |order|
  {
    if order != [] {
      var ms, rest := Arrivals(left, order), Sent(left, order[0]);
      TotalAfter(left, order[0], f);
      CompletedArrivals(rest, order[1..], f);
      assert ms[0] == left[order[0]][0] && ms[1..] == Arrivals(rest, order[1..]);
      CompletedCons(ms, f);
    }
  }

  lemma {:induction false} NothingTotal<B>(left: seq<seq<Message<B>>>, f: nat)
    requires AllSent(left)
    ensures Total(left, f) == 0
  {
    if left != [] { NothingTotal(left[1..], f); }
  }

  /** Whether the error comes does not depend on the order in which the tasks send. */
  lemma OrderDoesNotMatter<B>(s: Receiver<B>, left: seq<seq<Message<B>>>, order: seq<nat>)
    requires Schedule(left, order) && AllSent(Remaining(left, order))
    ensures ReceiveAll(s, Arrivals(left, order)).Some? <==> forall f: nat :: Total(left, f) <= PendingOf(s.pending, f)
  {
    var ms := Arrivals(left, order);
    forall f: nat ensures Completed(ms, f) == Total(left, f) {
      CompletedArrivals(left, order, f);
      NothingTotal(Remaining(left, order), f);
    }
    ReceivedIff(s, ms);
  }

  /** Every task sends messages of its own fragment only and completes at least once. */
  ghost predicate AllComplete<B>(frags: seq<nat>, left: seq<seq<Message<B>>>) {
    && |frags| == |left|
    && forall t :: 0 <= t < |left| ==> OwnMessages(left[t], frags[t]) && Completed(left[t], frags[t]) > 0
  }

  ghost predicate OwnMessages<B>(ms: seq<Message<B>>, f: nat) {
    forall i :: 0 <= i < |ms| ==> ms[i].fragment == f
  }

  lemma {:induction false} OthersComplete<B>(ms: seq<Message<B>>, f: nat, g: nat)
    requires OwnMessages(ms, f) && f != g
    ensures Completed(ms, g) == 0
  {
    if ms != [] { OthersComplete(ms[1..], f, g); }
  }

  ghost predicate CompleteOnce<B>(frags: seq<nat>, left: seq<seq<Message<B>>>, f: nat)
    requires |frags| == |left|
  {
    forall t :: 0 <= t < |left| && frags[t] == f ==> Completed(left[t], f) == 1
  }

  /** The tasks of a fragment complete at least as often as there are tasks, and just as often
      exactly when each of them completes once. */
  lemma {:induction false} TotalIsCountIff<B>(frags: seq<nat>, left: seq<seq<Message<B>>>, f: nat)
    requires AllComplete(frags, left)
    ensures Total(left, f) >= multiset(frags)[f]
    ensures Total(left, f) == multiset(frags)[f] <==> CompleteOnce(frags, left, f)
  {
    if frags != [] {
      TotalIsCountIff(frags[1..], left[1..], f);
      assert frags == [frags[0]] + frags[1..];
      if frags[0] != f { OthersComplete(left[0], frags[0], f); }
      OnceCons(frags, left, f);
    }
  }

  lemma OnceCons<B>(frags: seq<nat>, left: seq<seq<Message<B>>>, f: nat)
    requires |frags| == |left| > 0
    ensures CompleteOnce(frags, left, f)
            <==> (frags[0] == f ==> Completed(left[0], f) == 1) && CompleteOnce(frags[1..], left[1..], f)
  {
    if (frags[0] == f ==> Completed(left[0], f) == 1) && CompleteOnce(frags[1..], left[1..], f) {
      forall t | 0 <= t < |left| && frags[t] == f ensures Completed(left[t], f) == 1 {
        if t > 0 { assert frags[1..][t - 1] == f && left[1..][t - 1] == left[t]; }
      }
    }
    if CompleteOnce(frags, left, f) {
      forall t | 0 <= t < |left| - 1 && frags[1..][t] == f ensures Completed(left[1..][t], f) == 1 {
        assert frags[t + 1] == f;
      }
    }
  }

  /** Tasks that all complete, in any order: the error stays away exactly when each of them
      completes just once. */
  lemma OneCompletionEachIff<B>(s: Receiver<B>, frags: seq<nat>, left: seq<seq<Message<B>>>, order: seq<nat>)
    requires AllComplete(frags, left) && s.pending == Announced(frags)
    requires Schedule(left, order) && AllSent(Remaining(left, order))
    ensures ReceiveAll(s, Arrivals(left, order)).Some?
            <==> forall t :: 0 <= t < |left| ==> Completed(left[t], frags[t]) == 1
  {
    OrderDoesNotMatter(s, left, order);
    forall f: nat
      ensures PendingOf(s.pending, f) == multiset(frags)[f]
      ensures Total(left, f) <= multiset(frags)[f] <==> CompleteOnce(frags, left, f)
    {
      TotalIsCountIff(frags, left, f);
    }
    if ReceiveAll(s, Arrivals(left, order)).Some? {
      forall t | 0 <= t < |left| ensures Completed(left[t], frags[t]) == 1 {
        assert CompleteOnce(frags, left, frags[t]);
      }
    }
  }

  // ----- what reaches the next operator -----

  function FirstError<B>(ms: seq<Message<B>>): Option<nat> {
    if ms == [] then None else if ms[0].Error? then Some(ms[0].status) else FirstError(ms[1..])
  }

  function BlocksFrom<B>(ms: seq<Message<B>>, f: nat): seq<B> {
    if ms == [] then [] else BlockFor(ms[0], f) + BlocksFrom(ms[1..], f)
  }

  function AllBlocks<B>(ms: seq<Message<B>>): seq<B> {
    if ms == [] then [] else (if ms[0].Data? then [ms[0].block] else []) + AllBlocks(ms[1..])
  }

  function Hits<B>(ms: seq<Message<B>>): nat {
    if ms == [] then 0 else (if ms[0].Data? && ms[0].hitsFlag then ms[0].hits else 0) + Hits(ms[1..])
  }

  /** The first error is the one that is kept. */
  lemma {:induction false} FirstErrorKept<B>(s: Receiver<B>, ms: seq<Message<B>>)
    requires ReceiveAll(s, ms).Some?
    ensures ReceiveAll(s, ms).value.status == if s.status.Some? then s.status else FirstError(ms)
    decreases |ms|
  {
    if ms != [] { FirstErrorKept(Receive(s, ms[0]).value, ms[1..]); }
  }

  /** The first error is the error message before which there is none. */
  lemma {:induction false} FirstErrorIs<B>(ms: seq<Message<B>>, i: nat)
    requires i < |ms| && ms[i].Error? && forall j :: 0 <= j < i ==> !ms[j].Error?
    ensures FirstError(ms) == Some(ms[i].status)
  {
    if i > 0 { FirstErrorIs(ms[1..], i - 1); }
  }

  function BlockFor<B>(m: Message<B>, f: nat): seq<B> {
    if m.Data? && m.fragment == f then [m.block] else []
  }

  lemma FusionGetsOne<B>(s: Receiver<B>, m: Message<B>, f: nat)
    requires Receive(s, m).Some? && s.next.op == CollectsByFragment
    ensures var n := Receive(s, m).value.next;
            n.op == s.next.op && BlocksOf(n.byFragment, f) == BlocksOf(s.next.byFragment, f) + BlockFor(m, f)
  {
  }

  /** Fusion gets, for each fragment, its blocks in the order of arrival. */
  lemma {:induction false} FusionGetsArrivalOrder<B>(s: Receiver<B>, ms: seq<Message<B>>, f: nat)
    requires ReceiveAll(s, ms).Some? && s.next.op == CollectsByFragment
    ensures BlocksOf(ReceiveAll(s, ms).value.next.byFragment, f) == BlocksOf(s.next.byFragment, f) + BlocksFrom(ms, f)
    decreases |ms|
  {
    if ms != [] {
      FusionGetsOne(s, ms[0], f);
      FusionGetsArrivalOrder(Receive(s, ms[0]).value, ms[1..], f);
      Associative(BlocksOf(s.next.byFragment, f), BlockFor(ms[0], f), BlocksFrom(ms[1..], f));
    }
  }

  lemma LimitGetsOne<B>(s: Receiver<B>, m: Message<B>)
    requires Receive(s, m).Some? && s.next.op == CollectsAndCounts
    ensures var n := Receive(s, m).value.next;
            && n.op == s.next.op
            && n.blocks == s.next.blocks + (if m.Data? then [m.block] else [])
            && n.hits == s.next.hits + (if m.Data? && m.hitsFlag then m.hits else 0)
  {
  }

  /** MergeLimit and MergeTop get all blocks in the order of arrival and the sum of the
      flagged hit counts. */
  lemma {:induction false} LimitGetsAll<B>(s: Receiver<B>, ms: seq<Message<B>>)
    requires ReceiveAll(s, ms).Some? && s.next.op == CollectsAndCounts
    ensures var n := ReceiveAll(s, ms).value.next;
            && n.blocks == s.next.blocks + AllBlocks(ms)
            && n.hits == s.next.hits + Hits(ms)
    decreases |ms|
  {
    if ms != [] {
      LimitGetsOne(s, ms[0]);
      LimitGetsAll(Receive(s, ms[0]).value, ms[1..]);
      Associative(s.next.blocks, if ms[0].Data? then [ms[0].block] else [], AllBlocks(ms[1..]));
    }
  }

  lemma TensorGetsOne<B>(s: Receiver<B>, m: Message<B>)
    requires Receive(s, m).Some? && s.next.op == Collects
    ensures var n := Receive(s, m).value.next;
            n.op == s.next.op && n.blocks == s.next.blocks + (if m.Data? then [m.block] else [])
  {
  }

  /** MergeMatchTensor gets all blocks in the order of arrival. */
  lemma {:induction false} TensorGetsAll<B>(s: Receiver<B>, ms: seq<Message<B>>)
    requires ReceiveAll(s, ms).Some? && s.next.op == Collects
    ensures ReceiveAll(s, ms).value.next.blocks == s.next.blocks + AllBlocks(ms)
    decreases |ms|
  {
    if ms != [] {
      TensorGetsOne(s, ms[0]);
      TensorGetsAll(Receive(s, ms[0]).value, ms[1..]);
      Associative(s.next.blocks, if ms[0].Data? then [ms[0].block] else [], AllBlocks(ms[1..]));
    }
  }

  /** Every operator but MergeLimit and MergeTop is told with each message whether the input
      is complete: exactly when no task is pending. */
  lemma {:induction false} CompleteIff<B>(s: Receiver<B>, ms: seq<Message<B>>)
    requires ms != [] && ReceiveAll(s, ms).Some? && s.next.op != CollectsAndCounts
    ensures var r := ReceiveAll(s, ms).value; r.next.complete <==> r.pending == map[]
    decreases |ms|
  {
    if |ms| > 1 { CompleteIff(Receive(s, ms[0]).value, ms[1..]); }
  }

  ghost predicate AnyFlag<B>(ms: seq<Message<B>>) {
    exists i :: 0 <= i < |ms| && ms[i].Data? && ms[i].hitsFlag
  }

  lemma {:induction false} NothingPendingStays<B>(s: Receiver<B>, ms: seq<Message<B>>)
    requires s.pending == map[] && ReceiveAll(s, ms).Some?
    ensures ReceiveAll(s, ms).value.pending == map[]
    decreases |ms|
  {
    if ms != [] { NothingPendingStays(Receive(s, ms[0]).value, ms[1..]); }
  }

  /** MergeLimit and MergeTop: once complete the input stays complete, and the queue takes no
      more messages from then on; the hits are counted as soon as one message has them. */
  lemma {:induction false} LimitIsSticky<B>(s: Receiver<B>, ms: seq<Message<B>>)
    requires ReceiveAll(s, ms).Some? && s.next.op == CollectsAndCounts
    ensures var r := ReceiveAll(s, ms).value;
            && (r.next.complete <==> s.next.complete || (ms != [] && r.pending == map[]))
            && (r.next.closed <==> s.next.closed || (ms != [] && r.next.complete))
            && (r.next.hitsFlag <==> s.next.hitsFlag || AnyFlag(ms))
    decreases |ms|
  {
    if ms != [] {
      var s1, rest := Receive(s, ms[0]).value, ms[1..];
      LimitIsSticky(s1, rest);
      if s1.pending == map[] { NothingPendingStays(s1, rest); }
      AnyFlagCons(ms);
    }
  }

  lemma AnyFlagCons<B>(ms: seq<Message<B>>)
    requires ms != []
    ensures AnyFlag(ms) <==> (ms[0].Data? && ms[0].hitsFlag) || AnyFlag(ms[1..])
  {
    if i :| 0 <= i < |ms[1..]| && ms[1..][i].Data? && ms[1..][i].hitsFlag { assert ms[i + 1].hitsFlag; }
    if i :| 0 < i < |ms| && ms[i].Data? && ms[i].hitsFlag { assert ms[1..][i - 1] == ms[i]; }
  }

  /** No operator has fields of another one changed. */
  lemma {:induction false} OtherFieldsKept<B>(s: Receiver<B>, ms: seq<Message<B>>)
    requires ReceiveAll(s, ms).Some?
    ensures var n, m := s.next, ReceiveAll(s, ms).value.next;
            && m.op == n.op
            && (n.op != KeepsLatest ==> m.latest == n.latest)
            && (n.op == KeepsLatest || n.op == CollectsByFragment ==> m.blocks == n.blocks)
            && (n.op != CollectsByFragment ==> m.byFragment == n.byFragment)
            && (n.op != CollectsAndCounts ==> m.hitsFlag == n.hitsFlag && m.hits == n.hits && m.closed == n.closed)
    decreases |ms|
  {
    if ms != [] { OtherFieldsKept(Receive(s, ms[0]).value, ms[1..]); }
  }

  function LastBlock<B>(ms: seq<Message<B>>, before: Option<B>): Option<B>
    decreases |ms|
  {
    if ms == [] then before
    else if ms[|ms| - 1].Data? then Some(ms[|ms| - 1].block)
    else LastBlock(ms[..|ms| - 1], before)
  }

  lemma {:induction false} ReceiveLast<B>(s: Receiver<B>, ms: seq<Message<B>>)
    requires ms != [] && ReceiveAll(s, ms).Some?
    ensures var r := ReceiveAll(s, ms[..|ms| - 1]); r.Some? && ReceiveAll(s, ms) == Receive(r.value, ms[|ms| - 1])
    decreases |ms|
  {
    var init := ms[..|ms| - 1];
    if |ms| == 1 {
      assert ms[1..] == [] && init == [];
    } else {
      assert init[1..] == ms[1..][..|ms| - 2];
      ReceiveLast(Receive(s, ms[0]).value, ms[1..]);
    }
  }

  lemma {:induction false} SameOperator<B>(s: Receiver<B>, ms: seq<Message<B>>)
    requires ReceiveAll(s, ms).Some?
    ensures ReceiveAll(s, ms).value.next.op == s.next.op
    decreases |ms|
  {
    if ms != [] { SameOperator(Receive(s, ms[0]).value, ms[1..]); }
  }

  /** MergeKnn, MergeMatchSparse and MergeAggregate see the latest block, and are told that
      the input is complete exactly when no task is pending. */
  lemma {:induction false} LatestIsKept<B>(s: Receiver<B>, ms: seq<Message<B>>)
    requires ms != [] && ReceiveAll(s, ms).Some? && s.next.op == KeepsLatest
    ensures var r := ReceiveAll(s, ms).value;
            r.next.latest == LastBlock(ms, s.next.latest) && (r.next.complete <==> r.pending == map[])
    decreases |ms|
  {
    ReceiveLast(s, ms);
    var init := ms[..|ms| - 1];
    SameOperator(s, init);
    if init != [] { LatestIsKept(s, init); }
  }

  // ----- the sink that sends -----

  /** The output of an operator when the sink is called. */
  datatype Output<B> = Output(blocks: seq<B>, hitsFlag: bool, hits: nat)

  /** One call of the queue sink without an error, for a task that is `complete` or not, in a
      fragment that materializes or streams. */
  function Batch<B>(f: nat, complete: bool, materialize: bool, o: Output<B>): (r: seq<Message<B>>)
    ensures |r| == if !complete && materialize then 0 else |o.blocks|
    ensures forall i :: 0 <= i < |r| ==> r[i].fragment == f
    ensures forall i :: 0 <= i < |r| ==>
              r[i].Data? && r[i].block == o.blocks[i] && r[i].hitsFlag == o.hitsFlag && r[i].hits == o.hits
    ensures forall i :: 0 <= i < |r| ==>
              (Completes(r[i]) <==> complete && (!materialize || i == |o.blocks| - 1))
  {
    if !complete && materialize then []
    else seq(|o.blocks|, i requires 0 <= i < |o.blocks| =>
               Data(f, o.blocks[i], if complete && !materialize then None else Some(i),
                    |o.blocks|, complete, o.hitsFlag, o.hits))
  }

  /** One call of the sink: the error, or the loop over the blocks. */
  method Sink<B>(f: nat, error: Option<nat>, complete: bool, materialize: bool, o: Output<B>)
    returns (sent: seq<Message<B>>)
    ensures sent == if error.Some? then [Error(f, error.value)] else Batch(f, complete, materialize, o)
  {
    if error.Some? { return [Error(f, error.value)]; }
    sent := [];
    if !complete && materialize { return; }
    for i := 0 to |o.blocks|
      invariant sent == Batch(f, complete, materialize, o)[..i]
    {
      var index := if complete && !materialize then None else Some(i);
      sent := sent + [Data(f, o.blocks[i], index, |o.blocks|, complete, o.hitsFlag, o.hits)];
    }
  }

  /** How a task ends: with its last output, or with an error. */
  datatype Ending<B> = Finished(output: Output<B>) | Failed(status: nat)

  function LastBatch<B>(f: nat, materialize: bool, end: Ending<B>): seq<Message<B>> {
    match end
    case Finished(o) => Batch(f, true, materialize, o)
    case Failed(status) => [Error(f, status)]
  }

  /** All messages of a task: the outputs before its end, and the end. */
  function TaskScript<B>(f: nat, materialize: bool, before: seq<Output<B>>, end: Ending<B>): seq<Message<B>> {
    if before == [] then LastBatch(f, materialize, end)
    else Batch(f, false, materialize, before[0]) + TaskScript(f, materialize, before[1..], end)
  }

  /** A task keeps to the protocol exactly when it ends with an error, or when its last batch
      is not empty and has just one block if the fragment streams: a streaming sink marks
      every block of the last batch as final. */
  lemma {:induction false} SinkKeepsProtocolIff<B>(f: nat, materialize: bool, before: seq<Output<B>>, end: Ending<B>)
    ensures var ms := TaskScript(f, materialize, before, end);
            (ms != [] && Script(ms, f) && Completes(ms[|ms| - 1]))
            <==> (end.Finished? ==> if materialize then end.output.blocks != [] else |end.output.blocks| == 1)
  {
    ScriptShape(f, materialize, before, end);
    var ms, b := TaskScript(f, materialize, before, end), LastBatch(f, materialize, end);
    var n := |b|;
    if n > 1 && !materialize {
      assert ms[|ms| - n] == b[0];
      assert Completes(ms[|ms| - n]);
    }
    if n > 0 { assert ms[|ms| - 1] == b[n - 1]; }
  }

  lemma {:induction false} CompletedAppend<B>(a: seq<Message<B>>, b: seq<Message<B>>, f: nat)
    ensures Completed(a + b, f) == Completed(a, f) + Completed(b, f)
  {
    if a == [] {
      assert a + b == b;
    } else {
      assert (a + b)[1..] == a[1..] + b;
      CompletedAppend(a[1..], b, f);
    }
  }

  /** The completing messages of a sequence that all complete or all do not. */
  lemma {:induction false} CompletedAlike<B>(ms: seq<Message<B>>, f: nat, all: bool)
    requires OwnMessages(ms, f) && forall i :: 0 <= i < |ms| ==> (Completes(ms[i]) <==> all)
    ensures Completed(ms, f) == if all then |ms| else 0
  {
    if ms != [] { CompletedAlike(ms[1..], f, all); }
  }

  /** How often a task completes: once with an error, once with a last batch that is not empty
      in a materializing fragment, and once for every block of its last batch in a streaming
      one. */
  function Completions<B>(materialize: bool, end: Ending<B>): nat {
    match end
    case Failed(_) => 1
    case Finished(o) => if materialize then (if o.blocks == [] then 0 else 1) else |o.blocks|
  }

  lemma LastBatchCompletes<B>(f: nat, materialize: bool, end: Ending<B>)
    ensures Completed(LastBatch(f, materialize, end), f) == Completions(materialize, end)
  {
    var b := LastBatch(f, materialize, end);
    var n := |b| - 1;
    if n >= 0 && materialize {
      assert b == b[..n] + [b[n]];
      CompletedAppend(b[..n], [b[n]], f);
      CompletedAlike(b[..n], f, false);
      CompletedAlike([b[n]], f, true);
    } else {
      CompletedAlike(b, f, true);
    }
  }

  lemma TaskCompletes<B>(f: nat, materialize: bool, before: seq<Output<B>>, end: Ending<B>)
    ensures var ms := TaskScript(f, materialize, before, end);
            OwnMessages(ms, f) && Completed(ms, f) == Completions(materialize, end)
  {
    var ms, b := TaskScript(f, materialize, before, end), LastBatch(f, materialize, end);
    ScriptShape(f, materialize, before, end);
    var n := |ms| - |b|;
    assert ms == ms[..n] + b;
    CompletedAppend(ms[..n], b, f);
    CompletedAlike(ms[..n], f, false);
    LastBatchCompletes(f, materialize, end);
  }

  datatype Task<B> = Task(fragment: nat, materialize: bool, before: seq<Output<B>>, end: Ending<B>) {
    function Messages(): seq<Message<B>> { TaskScript(fragment, materialize, before, end) }
  }

  function Fragments<B>(tasks: seq<Task<B>>): (r: seq<nat>)
    ensures |r| == |tasks| && forall t :: 0 <= t < |r| ==> r[t] == tasks[t].fragment
  {
    seq(|tasks|, t requires 0 <= t < |tasks| => tasks[t].fragment)
  }

  function Scripts<B>(tasks: seq<Task<B>>): (r: seq<seq<Message<B>>>)
    ensures |r| == |tasks| && forall t :: 0 <= t < |r| ==> r[t] == tasks[t].Messages()
  {
    seq(|tasks|, t requires 0 <= t < |tasks| => tasks[t].Messages())
  }

  /** Tasks with nonempty last batches behind their sinks, in any order of arrival: the error
      stays away exactly when every streaming task ends with an error or with one block. */
  lemma TasksReceivedIff<B>(s: Receiver<B>, tasks: seq<Task<B>>, order: seq<nat>)
    requires s.pending == Announced(Fragments(tasks))
    requires forall t :: 0 <= t < |tasks| && tasks[t].end.Finished? ==> tasks[t].end.output.blocks != []
    requires Schedule(Scripts(tasks), order) && AllSent(Remaining(Scripts(tasks), order))
    ensures ReceiveAll(s, Arrivals(Scripts(tasks), order)).Some?
            <==> forall t :: 0 <= t < |tasks| ==> Completions(tasks[t].materialize, tasks[t].end) == 1
  {
    var frags, left := Fragments(tasks), Scripts(tasks);
    forall t | 0 <= t < |tasks|
      ensures OwnMessages(left[t], frags[t])
      ensures Completed(left[t], frags[t]) == Completions(tasks[t].materialize, tasks[t].end) > 0
    {
      TaskCompletes(tasks[t].fragment, tasks[t].materialize, tasks[t].before, tasks[t].end);
    }
    OneCompletionEachIff(s, frags, left, order);
  }

  /** The last batch of one streaming task by itself: the error follows exactly when it has
      more blocks than the fragment has pending tasks. */
  lemma SurplusFinalBlocksIff<B>(s: Receiver<B>, f: nat, o: Output<B>)
    ensures ReceiveAll(s, TaskScript(f, false, [], Finished(o))).None? <==> |o.blocks| > PendingOf(s.pending, f)
  {
    var ms := TaskScript(f, false, [], Finished(o));
    TaskCompletes(f, false, [], Finished(o));
    forall g: nat ensures Completed(ms, g) == if g == f then |o.blocks| else 0 {
      if g != f { OthersComplete(ms, f, g); }
    }
    ReceivedIff(s, ms);
  }

  /** Two streaming tasks of a fragment.  The first one ends with two blocks: GetData answers
      true before the second one has sent anything, whose last block then is unexpected. */
  lemma AnswersTooEarly<B>(s: Receiver<B>, f: nat, a: Output<B>, b: Output<B>)
    requires s.pending == map[f := 2] && |a.blocks| == 2 && b.blocks != []
    ensures var first := TaskScript(f, false, [], Finished(a));
            var r := ReceiveAll(s, first);
            && r.Some? && r.value.pending == map[]
            && ReceiveAll(s, first + TaskScript(f, false, [], Finished(b))).None?
  {
    var first, second := TaskScript(f, false, [], Finished(a)), TaskScript(f, false, [], Finished(b));
    TaskCompletes(f, false, [], Finished(a));
    TaskCompletes(f, false, [], Finished(b));
    forall g: nat ensures Completed(first, g) == PendingOf(s.pending, g) {
      if g != f { OthersComplete(first, f, g); }
    }
    ReceivedIff(s, first);
    AnswersTrueIff(s, first);
    CompletedAppend(first, second, f);
    ReceivedIff(s, first + second);
  }

  /** `ms` ends with `b`, and nothing before it completes. */
  ghost predicate EndsWith<B>(ms: seq<Message<B>>, b: seq<Message<B>>, f: nat) {
    && |ms| >= |b|
    && OwnMessages(ms, f)
    && (forall i :: 0 <= i < |ms| - |b| ==> !Completes(ms[i]))
    && ms[|ms| - |b|..] == b
  }

  lemma EndsLater<B>(a: seq<Message<B>>, ms: seq<Message<B>>, b: seq<Message<B>>, f: nat)
    requires EndsWith(ms, b, f) && OwnMessages(a, f) && forall i :: 0 <= i < |a| ==> !Completes(a[i])
    ensures EndsWith(a + ms, b, f)
  {
    assert (a + ms)[|a + ms| - |b|..] == ms[|ms| - |b|..];
  }

  /** Nothing before the last batch is completing. */
  lemma {:induction false} ScriptShape<B>(f: nat, materialize: bool, before: seq<Output<B>>, end: Ending<B>)
    ensures EndsWith(TaskScript(f, materialize, before, end), LastBatch(f, materialize, end), f)
  {
    if before != [] {
      ScriptShape(f, materialize, before[1..], end);
      EndsLater(Batch(f, false, materialize, before[0]), TaskScript(f, materialize, before[1..], end),
                LastBatch(f, materialize, end), f);
    }
  }

  // ----- the class -----

  datatype Outcome = EmptyQueue | Unexpected | Done(completed: bool)

  class QueueSourceState<B> {
    var status: Option<nat>
    var numTasks: map<nat, nat>
    var queue: seq<Message<B>>
    var next: NextState<B>

    ghost function Value(): Receiver<B>
      reads this
    {
      Receiver(status, numTasks, next)
    }

    constructor (op: NextOp)
      ensures Value() == Receiver(None, map[], NextState(op, None, [], map[], false, 0, false, false)) && queue == []
    {
      status, numTasks, queue := None, map[], [];
      next := NextState(op, None, [], map[], false, 0, false, false);
    }

    method SetTaskNum(f: nat, n: nat)
      modifies this
      ensures numTasks == old(numTasks)[f := n]
      ensures status == old(status) && queue == old(queue) && next == old(next)
    {
      numTasks := numTasks[f := n];
    }

    /** Every task of every child fragment announces the number of tasks of its fragment. */
    method Announce(children: seq<Child>)
      requires numTasks == map[] && DistinctFragments(children)
      modifies this
      ensures numTasks == Announced(TaskFragments(children))
      ensures status == old(status) && queue == old(queue) && next == old(next)
    {
      for k := 0 to |children|
        invariant numTasks == Announced(TaskFragments(children[..k]))
        invariant status == old(status) && queue == old(queue) && next == old(next)
      {
        ghost var was := numTasks;
        var c := children[k];
        for t := 0 to c.tasks
          invariant numTasks == if t == 0 then was else was[c.fragment := c.tasks]
          invariant status == old(status) && queue == old(queue) && next == old(next)
        {
          SetTaskNum(c.fragment, c.tasks);
        }
        ChildNext(children, k);
      }
      assert children[..|children|] == children;
    }

    method MarkCompletedTask(f: nat) returns (ok: bool)
      modifies this`numTasks
      ensures ok <==> Mark(old(numTasks), f).Some?
      ensures ok ==> Mark(old(numTasks), f) == Some(numTasks)
      ensures !ok ==> numTasks == old(numTasks)
    {
      if f !in numTasks { return false; }
      var n := if numTasks[f] == 0 then WRAP - 1 else numTasks[f] - 1;
      if n == 0 { numTasks := numTasks - {f}; } else { numTasks := numTasks[f := n]; }
      ok := true;
    }

    /** Takes one message off the queue; the answer is true when no task is pending. */
    method GetData() returns (r: Outcome)
      modifies this
      ensures old(queue) == [] ==> r == EmptyQueue && Value() == old(Value()) && queue == []
      ensures old(queue) != [] ==>
                && queue == old(queue)[1..]
                && (match Receive(old(Value()), old(queue)[0])
                    case None => r == Unexpected
                    case Some(v) => Value() == v && r == Done(v.pending == map[]))
    {
      if queue == [] { return EmptyQueue; }
      var m := queue[0];
      queue := queue[1..];
      var ok := true;
      match m {
        case Data(f, _, index, count, last, _, _) =>
          if last && (index.None? || index.value + 1 == count) { ok := MarkCompletedTask(f); }
        case Error(f, st) =>
          if status.None? { status := Some(st); }
          ok := MarkCompletedTask(f);
        case Nothing(f) =>
          ok := MarkCompletedTask(f);
      }
      if !ok { return Unexpected; }
      var completed := numTasks == map[];
      next := HandOn(next, m, completed);
      r := Done(completed);
    }
  }
}
