/** Late materialisation, second half: OutputToDataBlockHelper of
    src/executor/physical_operator.cpp, which sorts read jobs and serves them through a
    cache of one block entry and one column vector. */
module OutputJobs {
  import opened Basics

  const MAX_U16: nat := 0xFFFF
  const MAX_U32: nat := 0xFFFF_FFFF
  const MAX_U64: nat := 0xFFFF_FFFF_FFFF_FFFF

  type SegmentId = n: nat | n <= MAX_U32
  type BlockId = n: nat | n <= MAX_U16
  type ColumnId = n: nat | n <= MAX_U64

  /** A cell: a row id, or any other value. */
  datatype Value = RowId(segment: SegmentId, offset: nat) | Other(bytes: seq<nat>)

  /** OutputJobInfo: where to read and where to write. */
  datatype Job = Job(segment: SegmentId, block: BlockId, column: ColumnId, offset: nat, outBlock: nat,
        outColumn: nat, outRow: nat)

  /** The block index: the columns of every block entry. */
  type Entry = map<ColumnId, seq<Value>>
  type Store = map<(SegmentId, BlockId), Entry>

  /** The output: blocks of columns of rows. */
  type Blocks = seq<seq<seq<Value>>>

  // ----- reading each job directly -----

  predicate Readable(store: Store, j: Job) {
    && (j.segment, j.block) in store
    && j.column in store[(j.segment, j.block)]
    && j.offset < |store[(j.segment, j.block)][j.column]|
  }

  function Stored(store: Store, j: Job): Value
    requires Readable(store, j)
  {
    store[(j.segment, j.block)][j.column][j.offset]
  }

  predicate Has(out: Blocks, b: nat, c: nat, r: nat) {
    b < |out| && c < |out[b]| && r < |out[b][c]|
  }

  predicate Writable(out: Blocks, j: Job) {
    Has(out, j.outBlock, j.outColumn, j.outRow)
  }

  predicate SameShape(x: Blocks, y: Blocks) {
    && |x| == |y|
    && (forall b :: 0 <= b < |x| ==> |x[b]| == |y[b]|)
    && (forall b, c :: 0 <= b < |x| && 0 <= c < |x[b]| ==> |x[b][c]| == |y[b][c]|)
  }

  function Put(out: Blocks, j: Job, v: Value): (r: Blocks)
    requires Writable(out, j)
    ensures SameShape(out, r)
    ensures forall b: nat, c: nat, i: nat :: Has(out, b, c, i) ==>
              r[b][c][i] == if (b, c, i) == (j.outBlock, j.outColumn, j.outRow) then v else out[b][c][i]
  {
    var block := out[j.outBlock];
    out[j.outBlock := block[j.outColumn := block[j.outColumn][j.outRow := v]]]
  }

  ghost predicate Ready(store: Store, out: Blocks, jobs: seq<Job>) {
    forall i :: 0 <= i < |jobs| ==> Readable(store, jobs[i]) && Writable(out, jobs[i])
  }

  /** Each job on its own, in the order of the list. */
  ghost function Direct(store: Store, out: Blocks, jobs: seq<Job>): (r: Blocks)
    requires Ready(store, out, jobs)
    ensures SameShape(out, r)
    decreases |jobs|
  {
    if jobs == [] then out
    else Direct(store, Put(out, jobs[0], Stored(store, jobs[0])), jobs[1..])
  }

  predicate To(j: Job, b: nat, c: nat, r: nat) {
    j.outBlock == b && j.outColumn == c && j.outRow == r
  }

  /** Different jobs have different destinations. */
  ghost predicate Distinct(jobs: seq<Job>) {
    forall i, j :: i in jobs && j in jobs && To(i, j.outBlock, j.outColumn, j.outRow) ==> i == j
  }

  /** After direct reads every cell holds what its job names, and what it held before if it
      has no job. */
  lemma {:induction false} DirectCell(store: Store, out: Blocks, jobs: seq<Job>, b: nat, c: nat, r: nat)
    requires Ready(store, out, jobs) && Distinct(jobs) && Has(out, b, c, r)
    ensures Has(Direct(store, out, jobs), b, c, r)
    ensures forall j :: j in jobs && To(j, b, c, r) ==>
              Readable(store, j) && Direct(store, out, jobs)[b][c][r] == Stored(store, j)
    ensures (forall j :: j in jobs ==> !To(j, b, c, r)) ==> Direct(store, out, jobs)[b][c][r] == out[b][c][r]
    decreases |jobs|
  {
    if jobs != [] {
      assert forall j :: j in jobs <==> j == jobs[0] || j in jobs[1..];
      var one := Put(out, jobs[0], Stored(store, jobs[0]));
      assert one[b][c][r] == if To(jobs[0], b, c, r) then Stored(store, jobs[0]) else out[b][c][r];
      assert jobs[0] in jobs;
      DirectCell(store, one, jobs[1..], b, c, r);
    }
  }

  lemma SameCells(x: Blocks, y: Blocks)
    requires SameShape(x, y)
    requires forall b: nat, c: nat, r: nat :: Has(x, b, c, r) ==> x[b][c][r] == y[b][c][r]
    ensures x == y
  {
    forall b | 0 <= b < |x| ensures x[b] == y[b] {
      forall c | 0 <= c < |x[b]| ensures x[b][c] == y[b][c] {
        forall r | 0 <= r < |x[b][c]| ensures x[b][c][r] == y[b][c][r] {
          assert Has(x, b, c, r);
        }
      }
    }
  }

  /** With distinct destinations the order of the jobs does not matter. */
  lemma AnyOrder(store: Store, out: Blocks, jobs: seq<Job>, other: seq<Job>)
    requires Ready(store, out, jobs) && Distinct(jobs)
    requires forall j :: j in jobs <==> j in other
    ensures Ready(store, out, other) && Direct(store, out, other) == Direct(store, out, jobs)
  {
    assert forall i :: 0 <= i < |other| ==> other[i] in jobs;
    var x, y := Direct(store, out, jobs), Direct(store, out, other);
    forall b: nat, c: nat, r: nat | Has(x, b, c, r) ensures x[b][c][r] == y[b][c][r] {
      DirectCell(store, out, jobs, b, c, r);
      DirectCell(store, out, other, b, c, r);
      if j :| j in jobs && To(j, b, c, r) {
        assert j in other;
      }
    }
    SameCells(x, y);
  }

  // ----- std::sort -----

  /** The order of OutputJobInfo: field by field. */
  predicate AtMost(a: Job, b: Job) {
    if a.segment != b.segment then a.segment < b.segment
    else if a.block != b.block then a.block < b.block
    else if a.column != b.column then a.column < b.column
    else if a.offset != b.offset then a.offset < b.offset
    else if a.outBlock != b.outBlock then a.outBlock < b.outBlock
    else if a.outColumn != b.outColumn then a.outColumn < b.outColumn
    else a.outRow <= b.outRow
  }

  function Fields(j: Job): seq<nat> {
    [j.segment, j.block, j.column, j.offset, j.outBlock, j.outColumn, j.outRow]
  }

  /** The order compares the fields one after the other, as they are declared. */
  lemma FieldByField(a: Job, b: Job)
    ensures AtMost(a, b) <==>
            a == b || exists k :: 0 <= k < 7 && Fields(a)[..k] == Fields(b)[..k] && Fields(a)[k] < Fields(b)[k]
  {
    var x, y := Fields(a), Fields(b);
    var k := FirstDifference(x, y);
    if k == 7 {
      assert x == y && a == Job(x[0], x[1], x[2], x[3], x[4], x[5], x[6]);
      assert b == Job(y[0], y[1], y[2], y[3], y[4], y[5], y[6]);
    } else {
      DecidedAt(a, b, k);
      if l :| 0 <= l < 7 && x[..l] == y[..l] && x[l] < y[l] {
        if k < l { SamePrefix(x, y, l, k); } else if l < k { SamePrefix(x, y, k, l); }
      }
    }
  }

  lemma SamePrefix(x: seq<nat>, y: seq<nat>, k: nat, i: nat)
    requires |x| == |y| && i < k <= |x| && x[..k] == y[..k]
    ensures x[i] == y[i]
  {
    assert x[..k][i] == y[..k][i];
  }

  lemma FirstDifference(x: seq<nat>, y: seq<nat>) returns (k: nat)
    requires |x| == |y|
    ensures k <= |x| && x[..k] == y[..k] && (k < |x| ==> x[k] != y[k])
  {
    k := 0;
    while k < |x| && x[k] == y[k]
      invariant k <= |x| && x[..k] == y[..k]
    {
      k := k + 1;
    }
  }

  lemma DecidedAt(a: Job, b: Job, k: nat)
    requires k < 7 && Fields(a)[..k] == Fields(b)[..k] && Fields(a)[k] != Fields(b)[k]
    ensures AtMost(a, b) <==> Fields(a)[k] < Fields(b)[k]
    ensures a != b
  {
    var x, y := Fields(a), Fields(b);
    if k > 0 { SamePrefix(x, y, k, 0); }
    if k > 1 { SamePrefix(x, y, k, 1); }
    if k > 2 { SamePrefix(x, y, k, 2); }
    if k > 3 { SamePrefix(x, y, k, 3); }
    if k > 4 { SamePrefix(x, y, k, 4); }
    if k > 5 { SamePrefix(x, y, k, 5); }
  }

  /** The sentinels are the largest ids. */
  lemma LargestIds()
    ensures MAX_U16 + 1 == 256 * 256 && MAX_U32 + 1 == 65536 * 65536
    ensures MAX_U64 + 1 == 0x1_0000_0000 * 0x1_0000_0000
  {
  }

  ghost predicate Sorted(jobs: seq<Job>) {
    forall i, j :: 0 <= i < j < |jobs| ==> AtMost(jobs[i], jobs[j])
  }

  function Insert(j: Job, jobs: seq<Job>): seq<Job> {
    if jobs == [] || AtMost(j, jobs[0]) then [j] + jobs else [jobs[0]] + Insert(j, jobs[1..])
  }

  function Sort(jobs: seq<Job>): seq<Job> {
    if jobs == [] then [] else Insert(jobs[0], Sort(jobs[1..]))
  }

  lemma {:induction false} InsertPermutes(j: Job, jobs: seq<Job>)
    ensures multiset(Insert(j, jobs)) == multiset{j} + multiset(jobs)
  {
    if !(jobs == [] || AtMost(j, jobs[0])) {
      InsertPermutes(j, jobs[1..]);
      assert jobs == [jobs[0]] + jobs[1..];
    }
  }

  lemma SortedCons(j: Job, jobs: seq<Job>)
    requires Sorted(jobs) && forall i :: i in jobs ==> AtMost(j, i)
    ensures Sorted([j] + jobs)
  {
  }

  lemma {:induction false} InsertSorted(j: Job, jobs: seq<Job>)
    requires Sorted(jobs)
    ensures Sorted(Insert(j, jobs))
  {
    if jobs == [] || AtMost(j, jobs[0]) {
      SortedCons(j, jobs);
    } else {
      InsertSorted(j, jobs[1..]);
      InsertPermutes(j, jobs[1..]);
      forall i | i in Insert(j, jobs[1..]) ensures AtMost(jobs[0], i) {
        assert i in multiset(Insert(j, jobs[1..]));
        assert i == j || i in jobs[1..];
      }
      SortedCons(jobs[0], Insert(j, jobs[1..]));
    }
  }

  lemma {:induction false} SortSorted(jobs: seq<Job>)
    ensures Sorted(Sort(jobs)) && multiset(Sort(jobs)) == multiset(jobs)
  {
    if jobs != [] {
      SortSorted(jobs[1..]);
      InsertSorted(jobs[0], Sort(jobs[1..]));
      InsertPermutes(jobs[0], Sort(jobs[1..]));
      assert jobs == [jobs[0]] + jobs[1..];
    }
  }

  lemma SortMembers(jobs: seq<Job>)
    ensures forall j :: j in jobs <==> j in Sort(jobs)
  {
    SortSorted(jobs);
    forall j ensures j in jobs <==> j in Sort(jobs) {
      assert j in jobs <==> j in multiset(jobs);
      assert j in Sort(jobs) <==> j in multiset(Sort(jobs));
    }
  }

  // ----- the cached loop -----

  /** Names a column vector; a block entry is named with column 0. */
  datatype Key = Key(segment: SegmentId, block: BlockId, column: ColumnId)

  function GroupOf(j: Job): Key { Key(j.segment, j.block, 0) }

  function KeyOf(j: Job): Key { Key(j.segment, j.block, j.column) }

  /** A column vector and where it came from. */
  datatype Column = Column(key: Key, values: seq<Value>)

  datatype Cache = Cache(segment: SegmentId, block: BlockId, entry: Option<Entry>, column: ColumnId,
        vector: Option<Column>)

  const START := Cache(MAX_U32, MAX_U16, None, MAX_U64, None)

  /** The loop variables, the vector each job was read from, and the fetches made so far. */
  datatype State = State(cache: Cache, out: Blocks, served: seq<Key>, entries: seq<Key>, vectors: seq<Key>)

  function GetBlockEntry(store: Store, segment: SegmentId, block: BlockId): Option<Entry> {
    if (segment, block) in store then Some(store[(segment, block)]) else None
  }

  function FetchEntry(store: Store, s: State, j: Job): State {
    if j.segment != s.cache.segment || j.block != s.cache.block then
      s.(cache := Cache(j.segment, j.block, GetBlockEntry(store, j.segment, j.block), MAX_U64, s.cache.vector),
         entries := s.entries + [GroupOf(j)])
    else s
  }

  /** None where the code would follow a null block entry or miss the column. */
  function FetchColumn(s: State, j: Job): Option<State> {
    if j.column == s.cache.column then Some(s)
    else if s.cache.entry.None? || j.column !in s.cache.entry.value then None
    else
      var k := Key(s.cache.segment, s.cache.block, j.column);
      Some(s.(cache := s.cache.(column := j.column, vector := Some(Column(k, s.cache.entry.value[j.column]))),
              vectors := s.vectors + [k]))
  }

  /** One round of the loop; None where the code would read a vector that is not there. */
  function Step(store: Store, s: State, j: Job): Option<State>
    requires Writable(s.out, j)
  {
    var t := FetchColumn(FetchEntry(store, s, j), j);
    if t.None? || t.value.cache.vector.None? || j.offset >= |t.value.cache.vector.value.values| then None
    else
      var v := t.value.cache.vector.value;
      Some(t.value.(out := Put(s.out, j, v.values[j.offset]), served := s.served + [v.key]))
  }

  ghost predicate AllWritable(out: Blocks, jobs: seq<Job>) {
    forall i :: 0 <= i < |jobs| ==> Writable(out, jobs[i])
  }

  ghost function Run(store: Store, s: State, jobs: seq<Job>): Option<State>
    requires AllWritable(s.out, jobs)
    decreases |jobs|
  {
    if jobs == [] then Some(s)
    else
      var t := Step(store, s, jobs[0]);
      if t.None? then None else Run(store, t.value, jobs[1..])
  }

  // ----- the cache is transparent, except for its sentinels -----

  /** The cache after job `p`, or at the start. */
  ghost predicate Tracks(store: Store, c: Cache, p: Option<Job>) {
    match p
    case None => c == START
    case Some(j) =>
      && Readable(store, j)
      && c == Cache(j.segment, j.block, Some(store[(j.segment, j.block)]), j.column,
                    Some(Column(KeyOf(j), store[(j.segment, j.block)][j.column])))
  }

  /** Job `j` after job `p` is taken for cached although it is not. */
  predicate Trapped(p: Option<Job>, j: Job) {
    match p
    case None => (j.segment == MAX_U32 && j.block == MAX_U16) || j.column == MAX_U64
    case Some(i) => GroupOf(i) != GroupOf(j) && j.column == MAX_U64
  }

  function Before(jobs: seq<Job>, p: Option<Job>, i: nat): Option<Job>
    requires i < |jobs|
  {
    if i == 0 then p else Some(jobs[i - 1])
  }

  ghost predicate TrapFree(p: Option<Job>, jobs: seq<Job>) {
    forall i: nat :: i < |jobs| ==> !Trapped(Before(jobs, p, i), jobs[i])
  }

  function Keys(jobs: seq<Job>): (r: seq<Key>)
    ensures |r| == |jobs| && forall i :: 0 <= i < |r| ==> r[i] == KeyOf(jobs[i])
  {
    if jobs == [] then [] else [KeyOf(jobs[0])] + Keys(jobs[1..])
  }

  function Groups(jobs: seq<Job>): (r: seq<Key>)
    ensures |r| == |jobs| && forall i :: 0 <= i < |r| ==> r[i] == GroupOf(jobs[i])
  {
    if jobs == [] then [] else [GroupOf(jobs[0])] + Groups(jobs[1..])
  }

  /** `keys` without the ones that repeat their predecessor. */
  function Fresh(last: Option<Key>, keys: seq<Key>): seq<Key>
    decreases |keys|
  {
    if keys == [] then [] else FreshOne(last, keys[0]) + Fresh(Some(keys[0]), keys[1..])
  }

  function FreshOne(last: Option<Key>, k: Key): seq<Key> {
    if last == Some(k) then [] else [k]
  }

  function LastKey(p: Option<Job>): Option<Key> {
    if p.None? then None else Some(KeyOf(p.value))
  }

  function LastGroup(p: Option<Job>): Option<Key> {
    if p.None? then None else Some(GroupOf(p.value))
  }

  lemma StepTracks(store: Store, s: State, p: Option<Job>, j: Job)
    requires Tracks(store, s.cache, p) && Readable(store, j) && Writable(s.out, j) && !Trapped(p, j)
    ensures var t := Step(store, s, j);
            && t.Some? && Tracks(store, t.value.cache, Some(j))
            && t.value.out == Put(s.out, j, Stored(store, j))
            && t.value.served == s.served + [KeyOf(j)]
            && t.value.entries == s.entries + FreshOne(LastGroup(p), GroupOf(j))
            && t.value.vectors == s.vectors + FreshOne(LastKey(p), KeyOf(j))
  {
  }

  lemma StepTrapped(store: Store, s: State, p: Option<Job>, j: Job)
    requires Tracks(store, s.cache, p) && Writable(s.out, j) && Trapped(p, j)
    ensures var t := Step(store, s, j);
            t.None? || (|t.value.served| == |s.served| + 1 && t.value.served[|s.served|] != KeyOf(j))
  {
  }

  lemma {:induction false} RunAppends(store: Store, s: State, jobs: seq<Job>)
    requires AllWritable(s.out, jobs)
    ensures Run(store, s, jobs).Some? ==> s.served <= Run(store, s, jobs).value.served
    decreases |jobs|
  {
    if jobs != [] {
      var t := Step(store, s, jobs[0]);
      if t.Some? { RunAppends(store, t.value, jobs[1..]); }
    }
  }

  /** Without a trap the loop does the direct reads and fetches once per change. */
  lemma {:induction false} RunTracks(store: Store, s: State, p: Option<Job>, jobs: seq<Job>)
    requires Tracks(store, s.cache, p) && Ready(store, s.out, jobs) && TrapFree(p, jobs)
    ensures AllWritable(s.out, jobs)
    ensures var t := Run(store, s, jobs);
            && t.Some? && t.value.out == Direct(store, s.out, jobs)
            && t.value.served == s.served + Keys(jobs)
            && t.value.entries == s.entries + Fresh(LastGroup(p), Groups(jobs))
            && t.value.vectors == s.vectors + Fresh(LastKey(p), Keys(jobs))
    decreases |jobs|
  {
    if jobs != [] {
      var j, rest := jobs[0], jobs[1..];
      assert !Trapped(Before(jobs, p, 0), j);
      StepTracks(store, s, p, j);
      var t := Step(store, s, j).value;
      TrapFreeRest(p, jobs);
      RunTracks(store, t, Some(j), rest);
      Associative(s.served, [KeyOf(j)], Keys(rest));
      Associative(s.entries, FreshOne(LastGroup(p), GroupOf(j)), Fresh(Some(GroupOf(j)), Groups(rest)));
      Associative(s.vectors, FreshOne(LastKey(p), KeyOf(j)), Fresh(Some(KeyOf(j)), Keys(rest)));
    }
  }

  lemma TrapFreeRest(p: Option<Job>, jobs: seq<Job>)
    requires jobs != []
    ensures TrapFree(p, jobs) <==> !Trapped(p, jobs[0]) && TrapFree(Some(jobs[0]), jobs[1..])
  {
    var rest, q := jobs[1..], Some(jobs[0]);
    forall i: nat | i < |rest| ensures Before(rest, q, i) == Before(jobs, p, i + 1) && rest[i] == jobs[i + 1] {
    }
    assert Before(jobs, p, 0) == p;
    if TrapFree(p, jobs) {
      assert !Trapped(Before(jobs, p, 0), jobs[0]);
      forall i: nat | i < |rest| ensures !Trapped(Before(rest, q, i), rest[i]) {
        assert !Trapped(Before(jobs, p, i + 1), jobs[i + 1]);
      }
    }
    if !Trapped(p, jobs[0]) && TrapFree(q, rest) {
      forall i: nat | i < |jobs| ensures !Trapped(Before(jobs, p, i), jobs[i]) {
        if i > 0 { assert !Trapped(Before(rest, q, i - 1), rest[i - 1]); }
      }
    }
  }

  /** Every job is read from its own vector. */
  ghost predicate Faithful(store: Store, s: State, jobs: seq<Job>)
    requires AllWritable(s.out, jobs)
  {
    var t := Run(store, s, jobs);
    t.Some? && t.value.served == s.served + Keys(jobs)
  }

  lemma TrappedFails(store: Store, s: State, p: Option<Job>, jobs: seq<Job>)
    requires Tracks(store, s.cache, p) && AllWritable(s.out, jobs) && jobs != [] && Trapped(p, jobs[0])
    ensures !Faithful(store, s, jobs)
  {
    StepTrapped(store, s, p, jobs[0]);
    var t := Step(store, s, jobs[0]);
    if t.Some? {
      RunAppends(store, t.value, jobs[1..]);
      assert (s.served + Keys(jobs))[|s.served|] == KeyOf(jobs[0]);
    }
  }

  lemma FaithfulRest(store: Store, s: State, t: State, jobs: seq<Job>)
    requires jobs != [] && AllWritable(s.out, jobs) && Step(store, s, jobs[0]) == Some(t)
    requires t.served == s.served + [KeyOf(jobs[0])]
    ensures AllWritable(t.out, jobs[1..]) && (Faithful(store, s, jobs) <==> Faithful(store, t, jobs[1..]))
  {
    Associative(s.served, [KeyOf(jobs[0])], Keys(jobs[1..]));
    assert Keys(jobs) == [KeyOf(jobs[0])] + Keys(jobs[1..]);
  }

  lemma {:induction false} FaithfulIffTrapFree(store: Store, s: State, p: Option<Job>, jobs: seq<Job>)
    requires Tracks(store, s.cache, p) && Ready(store, s.out, jobs)
    ensures AllWritable(s.out, jobs)
    ensures Faithful(store, s, jobs) <==> TrapFree(p, jobs)
    decreases |jobs|
  {
    if jobs != [] {
      var j, rest := jobs[0], jobs[1..];
      TrapFreeRest(p, jobs);
      if Trapped(p, j) {
        TrappedFails(store, s, p, jobs);
      } else {
        StepTracks(store, s, p, j);
        var t := Step(store, s, j).value;
        FaithfulIffTrapFree(store, t, Some(j), rest);
        FaithfulRest(store, s, t, jobs);
      }
    }
  }

  // ----- the trap in terms of the jobs given -----

  /** All jobs lie in the block with the largest ids, or some block has jobs only for the
      column with the largest id. */
  ghost predicate Sentinel(jobs: seq<Job>) {
    || (jobs != [] && forall j :: j in jobs ==> j.segment == MAX_U32 && j.block == MAX_U16)
    || exists j :: j in jobs && OnlyLastColumn(jobs, j)
  }

  ghost predicate OnlyLastColumn(jobs: seq<Job>, j: Job) {
    forall i :: i in jobs && GroupOf(i) == GroupOf(j) ==> i.column == MAX_U64
  }

  lemma GroupsContiguous(jobs: seq<Job>, k: nat, i: nat)
    requires Sorted(jobs) && k < i < |jobs|
    ensures GroupOf(jobs[k]) == GroupOf(jobs[i]) ==> GroupOf(jobs[i - 1]) == GroupOf(jobs[i])
  {
    assert AtMost(jobs[i - 1], jobs[i]) && (k == i - 1 || AtMost(jobs[k], jobs[i - 1]));
  }

  lemma TrapIsSentinel(jobs: seq<Job>, i: nat)
    requires Sorted(jobs) && i < |jobs| && Trapped(Before(jobs, None, i), jobs[i])
    ensures Sentinel(jobs)
  {
    if i == 0 && jobs[0].segment == MAX_U32 && jobs[0].block == MAX_U16 {
      forall j | j in jobs ensures j.segment == MAX_U32 && j.block == MAX_U16 {
        var k :| 0 <= k < |jobs| && jobs[k] == j;
        assert k == 0 || AtMost(jobs[0], jobs[k]);
      }
    } else {
      forall k: nat | k < i ensures GroupOf(jobs[k]) != GroupOf(jobs[i]) { GroupsContiguous(jobs, k, i); }
      forall m | m in jobs && GroupOf(m) == GroupOf(jobs[i]) ensures m.column == MAX_U64 {
        var k: nat :| k < |jobs| && jobs[k] == m;
        assert k == i || AtMost(jobs[i], jobs[k]);
      }
      assert jobs[i] in jobs && OnlyLastColumn(jobs, jobs[i]);
    }
  }

  /** The first job of the group of `jobs[i]`. */
  lemma {:induction false} FirstOfGroup(jobs: seq<Job>, i: nat) returns (k: nat)
    requires i < |jobs|
    ensures k <= i && GroupOf(jobs[k]) == GroupOf(jobs[i])
    ensures k == 0 || GroupOf(jobs[k - 1]) != GroupOf(jobs[k])
  {
    k := i;
    while k > 0 && GroupOf(jobs[k - 1]) == GroupOf(jobs[k])
      invariant k <= i && GroupOf(jobs[k]) == GroupOf(jobs[i])
    {
      k := k - 1;
    }
  }

  lemma SentinelIsTrap(jobs: seq<Job>)
    requires Sentinel(jobs)
    ensures !TrapFree(None, jobs)
  {
    if jobs != [] && forall j :: j in jobs ==> j.segment == MAX_U32 && j.block == MAX_U16 {
      assert jobs[0] in jobs;
      assert Trapped(Before(jobs, None, 0), jobs[0]);
    } else {
      var j :| j in jobs && OnlyLastColumn(jobs, j);
      var i :| 0 <= i < |jobs| && jobs[i] == j;
      var k := FirstOfGroup(jobs, i);
      assert jobs[k] in jobs;
      assert Trapped(Before(jobs, None, k), jobs[k]);
    }
  }

  lemma SentinelMembers(jobs: seq<Job>, other: seq<Job>)
    requires forall j :: j in jobs <==> j in other
    ensures Sentinel(jobs) ==> Sentinel(other)
  {
    if j :| j in jobs && OnlyLastColumn(jobs, j) {
      OnlyLastSame(jobs, other, j);
    } else if Sentinel(jobs) {
      assert jobs[0] in other;
    }
  }

  lemma OnlyLastSame(jobs: seq<Job>, other: seq<Job>, j: Job)
    requires (forall i :: i in other ==> i in jobs) && OnlyLastColumn(jobs, j)
    ensures OnlyLastColumn(other, j)
  {
  }

  // ----- each fetch happens once -----

  predicate KeyAtMost(a: Key, b: Key) {
    if a.segment != b.segment then a.segment < b.segment
    else if a.block != b.block then a.block < b.block
    else a.column <= b.column
  }

  ghost predicate KeysSorted(keys: seq<Key>) {
    forall i, j :: 0 <= i < j < |keys| ==> KeyAtMost(keys[i], keys[j])
  }

  lemma NotBelow(last: Key, keys: seq<Key>)
    requires KeysSorted(keys) && keys != [] && KeyAtMost(last, keys[0]) && last != keys[0]
    ensures last !in keys
  {
    forall i | 0 <= i < |keys| ensures keys[i] != last {
      assert i == 0 || KeyAtMost(keys[0], keys[i]);
    }
  }

  lemma CountOf(a: seq<Key>, b: seq<Key>, k: Key)
    ensures multiset(a + b)[k] == multiset(a)[k] + multiset(b)[k]
  {
  }

  lemma {:induction false} FreshOnce(last: Option<Key>, keys: seq<Key>, k: Key)
    requires KeysSorted(keys)
    requires last.Some? && keys != [] ==> KeyAtMost(last.value, keys[0])
    ensures multiset(Fresh(last, keys))[k] == if k in keys && Some(k) != last then 1 else 0
    decreases |keys|
  {
    if keys != [] {
      FreshOnce(Some(keys[0]), keys[1..], k);
      CountOf(FreshOne(last, keys[0]), Fresh(Some(keys[0]), keys[1..]), k);
      if last.Some? && last.value != keys[0] { NotBelow(last.value, keys); }
      assert k in keys <==> k == keys[0] || k in keys[1..];
    }
  }

  // ----- the result -----

  ghost function Started(out: Blocks): State {
    State(START, out, [], [], [])
  }

  /** Readable jobs with destinations: unless the sentinels are hit, the sorted and cached
      loop writes what direct reads in the given order write, and fetches every block entry
      and every column vector that is named exactly once. */
  lemma CachedIsDirect(store: Store, out: Blocks, jobs: seq<Job>)
    requires Ready(store, out, jobs) && Distinct(jobs) && !Sentinel(jobs)
    ensures AllWritable(out, Sort(jobs))
    ensures var t := Run(store, Started(out), Sort(jobs));
            && t.Some?
            && t.value.out == Direct(store, out, jobs)
            && (forall k :: multiset(t.value.entries)[k] == if exists j :: j in jobs && GroupOf(j) == k then 1 else 0)
            && (forall k :: multiset(t.value.vectors)[k] == if exists j :: j in jobs && KeyOf(j) == k then 1 else 0)
  {
    CachedRun(store, out, jobs);
    var t := Run(store, Started(out), Sort(jobs)).value;
    forall k ensures multiset(t.entries)[k] == if exists j :: j in jobs && GroupOf(j) == k then 1 else 0 {
      SortedGroupsOnce(jobs, k);
    }
    forall k ensures multiset(t.vectors)[k] == if exists j :: j in jobs && KeyOf(j) == k then 1 else 0 {
      SortedKeysOnce(jobs, k);
    }
  }

  lemma CachedRun(store: Store, out: Blocks, jobs: seq<Job>)
    requires Ready(store, out, jobs) && Distinct(jobs) && !Sentinel(jobs)
    ensures AllWritable(out, Sort(jobs))
    ensures var s, t := Sort(jobs), Run(store, Started(out), Sort(jobs));
            && t.Some? && t.value.out == Direct(store, out, jobs)
            && t.value.entries == Fresh(None, Groups(s)) && t.value.vectors == Fresh(None, Keys(s))
  {
    var s := Sort(jobs);
    SortSorted(jobs);
    SortMembers(jobs);
    AnyOrder(store, out, jobs, s);
    NoSentinelNoTrap(jobs);
    RunTracks(store, Started(out), None, s);
  }

  lemma SortedGroupsOnce(jobs: seq<Job>, k: Key)
    ensures multiset(Fresh(None, Groups(Sort(jobs))))[k] == if exists j :: j in jobs && GroupOf(j) == k then 1 else 0
  {
    SortSorted(jobs);
    SortMembers(jobs);
    GroupsOnce(jobs, Sort(jobs), k);
  }

  lemma SortedKeysOnce(jobs: seq<Job>, k: Key)
    ensures multiset(Fresh(None, Keys(Sort(jobs))))[k] == if exists j :: j in jobs && KeyOf(j) == k then 1 else 0
  {
    SortSorted(jobs);
    SortMembers(jobs);
    KeysOnce(jobs, Sort(jobs), k);
  }

  lemma NoSentinelNoTrap(jobs: seq<Job>)
    ensures Sentinel(jobs) <==> !TrapFree(None, Sort(jobs))
  {
    SortSorted(jobs);
    SortMembers(jobs);
    SentinelMembers(jobs, Sort(jobs));
    SentinelMembers(Sort(jobs), jobs);
    if !TrapFree(None, Sort(jobs)) {
      var i: nat :| i < |Sort(jobs)| && Trapped(Before(Sort(jobs), None, i), Sort(jobs)[i]);
      TrapIsSentinel(Sort(jobs), i);
    }
    if Sentinel(jobs) { SentinelIsTrap(Sort(jobs)); }
  }

  lemma GroupsOnce(jobs: seq<Job>, s: seq<Job>, k: Key)
    requires Sorted(s) && forall j :: j in jobs <==> j in s
    ensures multiset(Fresh(None, Groups(s)))[k] == if exists j :: j in jobs && GroupOf(j) == k then 1 else 0
  {
    var g := Groups(s);
    forall i, j | 0 <= i < j < |g| ensures KeyAtMost(g[i], g[j]) { assert AtMost(s[i], s[j]); }
    FreshOnce(None, g, k);
    if k in g {
      var i :| 0 <= i < |g| && g[i] == k;
      assert s[i] in jobs && GroupOf(s[i]) == k;
    }
    if j :| j in jobs && GroupOf(j) == k {
      var i :| 0 <= i < |s| && s[i] == j;
      assert g[i] == k;
    }
  }

  lemma KeysOnce(jobs: seq<Job>, s: seq<Job>, k: Key)
    requires Sorted(s) && forall j :: j in jobs <==> j in s
    ensures multiset(Fresh(None, Keys(s)))[k] == if exists j :: j in jobs && KeyOf(j) == k then 1 else 0
  {
    var g := Keys(s);
    forall i, j | 0 <= i < j < |g| ensures KeyAtMost(g[i], g[j]) { assert AtMost(s[i], s[j]); }
    FreshOnce(None, g, k);
    if k in g {
      var i :| 0 <= i < |g| && g[i] == k;
      assert s[i] in jobs && KeyOf(s[i]) == k;
    }
    if j :| j in jobs && KeyOf(j) == k {
      var i :| 0 <= i < |s| && s[i] == j;
      assert g[i] == k;
    }
  }

  /** The sentinels are the only way to fail: the loop reads every job from its own vector
      exactly when they are not hit. */
  lemma FaithfulIff(store: Store, out: Blocks, jobs: seq<Job>)
    requires Ready(store, out, jobs)
    ensures AllWritable(out, Sort(jobs))
    ensures Faithful(store, Started(out), Sort(jobs)) <==> !Sentinel(jobs)
  {
    SortMembers(jobs);
    var s := Sort(jobs);
    assert forall i :: 0 <= i < |s| ==> s[i] in jobs;
    NoSentinelNoTrap(jobs);
    FaithfulIffTrapFree(store, Started(out), None, s);
  }

  /** A single job for the column with the largest id: the loop takes the missing vector for
      the cached one. */
  lemma LastColumnIsTrapped(store: Store, out: Blocks, j: Job)
    requires Ready(store, out, [j]) && j.column == MAX_U64
    ensures Sentinel([j]) && AllWritable(out, [j]) && Run(store, Started(out), [j]).None?
  {
    assert j in [j] && OnlyLastColumn([j], j);
    assert Step(store, Started(out), j).None?;
  }

  // ----- the class -----

  class DataBlock {
    var columns: seq<seq<Value>>
    const rowCount: nat

    constructor (columns: seq<seq<Value>>, rowCount: nat)
      ensures this.columns == columns && this.rowCount == rowCount
    {
      this.columns, this.rowCount := columns, rowCount;
    }

    /** SetValue of one cell. */
    method SetValue(column: nat, row: nat, v: Value)
      requires column < |columns| && row < |columns[column]|
      modifies this
      ensures columns == old(columns)[column := old(columns)[column][row := v]]
    {
      columns := columns[column := columns[column][row := v]];
    }

    method InsertVector(vector: seq<Value>, index: nat)
      requires index <= |columns|
      modifies this
      ensures columns == old(columns)[..index] + [vector] + old(columns)[index..]
    {
      columns := columns[..index] + [vector] + columns[index..];
    }
  }

  ghost predicate Unaliased(blocks: seq<DataBlock>) {
    forall i, j :: 0 <= i < j < |blocks| ==> blocks[i] != blocks[j]
  }

  ghost function Contents(blocks: seq<DataBlock>): (r: Blocks)
    reads blocks
    ensures |r| == |blocks| && forall i :: 0 <= i < |r| ==> r[i] == blocks[i].columns
  {
    seq(|blocks|, i requires 0 <= i < |blocks| reads blocks => blocks[i].columns)
  }

  method WriteCell(blocks: seq<DataBlock>, j: Job, v: Value)
    requires Unaliased(blocks) && Writable(Contents(blocks), j)
    modifies blocks
    ensures Contents(blocks) == Put(old(Contents(blocks)), j, v)
  {
    blocks[j.outBlock].SetValue(j.outColumn, j.outRow, v);
  }

  class OutputToDataBlockHelper {
    var jobs: seq<Job>

    constructor ()
      ensures jobs == []
    {
      jobs := [];
    }

    method AddOutputJobInfo(j: Job)
      modifies this
      ensures jobs == old(jobs) + [j]
    {
      jobs := jobs + [j];
    }

    /** The two cache levels for job `j`. */
    method Refill(store: Store, cache: Cache, entries: seq<Key>, vectors: seq<Key>, j: Job, ghost s: State)
      returns (ok: bool, c: Cache, es: seq<Key>, vs: seq<Key>)
      requires s.cache == cache && s.entries == entries && s.vectors == vectors
      ensures match FetchColumn(FetchEntry(store, s, j), j)
              case None => !ok
              case Some(t) => ok && t == s.(cache := c, entries := es, vectors := vs)
    {
      ok, c, es, vs := true, cache, entries, vectors;
      if j.segment != c.segment || j.block != c.block {
        c := Cache(j.segment, j.block, GetBlockEntry(store, j.segment, j.block), MAX_U64, c.vector);
        es := es + [GroupOf(j)];
      }
      if j.column != c.column {
        if c.entry.None? || j.column !in c.entry.value {
          ok := false;
        } else {
          var k := Key(c.segment, c.block, j.column);
          c := c.(column := j.column, vector := Some(Column(k, c.entry.value[j.column])));
          vs := vs + [k];
        }
      }
    }

    /** The loop variables stand for the state `s`. */
    static ghost predicate Agrees(s: State, out: Blocks, cache: Cache, entries: seq<Key>, vectors: seq<Key>) {
      s.cache == cache && s.entries == entries && s.vectors == vectors && s.out == out
    }

    /** One round of the loop. */
    method OneJob(store: Store, blocks: seq<DataBlock>, j: Job, cache: Cache, entries: seq<Key>, vectors: seq<Key>,
          ghost s: State)
      returns (ok: bool, c: Cache, es: seq<Key>, vs: seq<Key>)
      requires Unaliased(blocks) && Agrees(s, Contents(blocks), cache, entries, vectors) && Writable(s.out, j)
      modifies blocks
      ensures match Step(store, s, j)
              case None => !ok
              case Some(t) => ok && Agrees(t, Contents(blocks), c, es, vs)
    {
      ok, c, es, vs := Refill(store, cache, entries, vectors, j, s);
      if !ok || c.vector.None? || j.offset >= |c.vector.value.values| {
        ok := false;
      } else {
        WriteCell(blocks, j, c.vector.value.values[j.offset]);
      }
    }

    /** Answers the fetches it made, or None where the code would not survive. */
    method OutputToDataBlock(store: Store, blocks: seq<DataBlock>) returns (r: Option<(seq<Key>, seq<Key>)>)
      requires Unaliased(blocks) && AllWritable(Contents(blocks), jobs)
      modifies this, blocks
      ensures AllWritable(old(Contents(blocks)), Sort(old(jobs)))
      ensures match Run(store, Started(old(Contents(blocks))), Sort(old(jobs)))
              case None => r.None?
              case Some(t) => r == Some((t.entries, t.vectors)) && Contents(blocks) == t.out && jobs == []
    {
      var sorted := Sort(jobs);
      ghost var s := Started(Contents(blocks));
      SortWritable(s.out, jobs);
      var cache, entries, vectors := START, [], [];
      var i := 0;
      while i < |sorted|
        invariant i <= |sorted|
        invariant Agrees(s, Contents(blocks), cache, entries, vectors)
        invariant AllWritable(s.out, sorted[i..])
        invariant Run(store, Started(old(Contents(blocks))), sorted) == Run(store, s, sorted[i..])
      {
        var j := sorted[i];
        RunUnfolds(store, s, sorted, i);
        var ok;
        ok, cache, entries, vectors := OneJob(store, blocks, j, cache, entries, vectors, s);
        if !ok { return None; }
        s := Step(store, s, j).value;
        i := i + 1;
      }
      jobs := [];
      r := Some((entries, vectors));
    }
  }

  lemma SortWritable(out: Blocks, jobs: seq<Job>)
    requires AllWritable(out, jobs)
    ensures AllWritable(out, Sort(jobs))
  {
    SortMembers(jobs);
    forall i | 0 <= i < |Sort(jobs)| ensures Writable(out, Sort(jobs)[i]) { assert Sort(jobs)[i] in jobs; }
  }

  lemma RunUnfolds(store: Store, s: State, jobs: seq<Job>, i: nat)
    requires i < |jobs| && AllWritable(s.out, jobs[i..])
    ensures Writable(s.out, jobs[i])
    ensures var t := Step(store, s, jobs[i]);
            if t.None? then Run(store, s, jobs[i..]).None?
            else
              && AllWritable(t.value.out, jobs[i + 1..])
              && Run(store, s, jobs[i..]) == Run(store, t.value, jobs[i + 1..])
  {
    assert jobs[i..][0] == jobs[i] && jobs[i..][1..] == jobs[i + 1..];
  }
}
