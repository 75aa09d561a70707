/** Late materialisation, first half: PhysicalOperator::InputLoad and the output names and
    types of src/executor/physical_operator.cpp. */
module InputLoad {
  import opened Basics
  import opened OutputJobs

  // ----- inserting at the load indices -----

  /** Every index is a place to insert at the time it is used. */
  predicate Fits(n: nat, idx: seq<nat>) {
    forall k :: 0 <= k < |idx| ==> idx[k] <= n + k
  }

  /** Every index lies before the last element at the time it is used. */
  predicate BeforeLast(n: nat, idx: seq<nat>) {
    forall k :: 0 <= k < |idx| ==> idx[k] < n + k
  }

  predicate Increasing(idx: seq<nat>) {
    forall k, l :: 0 <= k < l < |idx| ==> idx[k] < idx[l]
  }

  function InsertOne<T>(s: seq<T>, i: nat, x: T): (r: seq<T>)
    requires i <= |s|
    ensures |r| == |s| + 1
  {
    s[..i] + [x] + s[i..]
  }

  function InsertAll<T>(s: seq<T>, idx: seq<nat>, items: seq<T>): (r: seq<T>)
    requires |idx| == |items| && Fits(|s|, idx)
    ensures |r| == |s| + |idx|
    decreases |idx|
  {
    if idx == [] then s else InsertAll(InsertOne(s, idx[0], items[0]), idx[1..], items[1..])
  }

  /** Takes the elements at the indices out again. */
  function RemoveAll<T>(r: seq<T>, n: nat, idx: seq<nat>): (s: seq<T>)
    requires |r| == n + |idx| && Fits(n, idx)
    ensures |s| == n
    decreases |idx|
  {
    if idx == [] then r
    else
      var t := RemoveAll(r, n + 1, idx[1..]);
      t[..idx[0]] + t[idx[0] + 1..]
  }

  /** The elements that were there stay, in their order. */
  lemma {:induction false} InsertKeepsOthers<T>(s: seq<T>, idx: seq<nat>, items: seq<T>)
    requires |idx| == |items| && Fits(|s|, idx)
    ensures RemoveAll(InsertAll(s, idx, items), |s|, idx) == s
    decreases |idx|
  {
    if idx != [] {
      var one := InsertOne(s, idx[0], items[0]);
      InsertKeepsOthers(one, idx[1..], items[1..]);
      assert one[..idx[0]] + one[idx[0] + 1..] == s;
    }
  }

  lemma {:induction false} InsertLeavesBelow<T>(s: seq<T>, idx: seq<nat>, items: seq<T>, p: nat)
    requires |idx| == |items| && Fits(|s|, idx) && p < |s| && forall k :: 0 <= k < |idx| ==> p < idx[k]
    ensures InsertAll(s, idx, items)[p] == s[p]
    decreases |idx|
  {
    if idx != [] {
      InsertLeavesBelow(InsertOne(s, idx[0], items[0]), idx[1..], items[1..], p);
    }
  }

  /** With increasing indices each item ends up at its index. */
  lemma {:induction false} InsertedAtIndex<T>(s: seq<T>, idx: seq<nat>, items: seq<T>, k: nat)
    requires |idx| == |items| && Fits(|s|, idx) && Increasing(idx) && k < |idx|
    ensures idx[k] < |s| + |idx| && InsertAll(s, idx, items)[idx[k]] == items[k]
    decreases |idx|
  {
    var one := InsertOne(s, idx[0], items[0]);
    if k == 0 {
      InsertLeavesBelow(one, idx[1..], items[1..], idx[0]);
    } else {
      InsertedAtIndex(one, idx[1..], items[1..], k - 1);
    }
  }

  /** The last element stays last. */
  lemma {:induction false} LastStays<T>(s: seq<T>, idx: seq<nat>, items: seq<T>)
    requires |idx| == |items| && BeforeLast(|s|, idx) && s != []
    ensures InsertAll(s, idx, items)[|s| + |idx| - 1] == s[|s| - 1]
    decreases |idx|
  {
    if idx != [] {
      LastStays(InsertOne(s, idx[0], items[0]), idx[1..], items[1..]);
    }
  }

  /** Where the element at a position comes from. */
  datatype Origin = Old(position: nat) | New(item: nat)

  ghost predicate Follows<T>(r: seq<T>, o: seq<Origin>, s: seq<T>, items: seq<T>) {
    && |r| == |o|
    && forall p :: 0 <= p < |o| ==>
         match o[p]
         case Old(i) => i < |s| && r[p] == s[i]
         case New(k) => k < |items| && r[p] == items[k]
  }

  lemma FollowsInsert<T>(r: seq<T>, o: seq<Origin>, s: seq<T>, items: seq<T>, i: nat, m: nat)
    requires Follows(r, o, s, items) && i <= |r| && m < |items|
    ensures Follows(InsertOne(r, i, items[m]), InsertOne(o, i, New(m)), s, items)
  {
  }

  /** The origins are the same for names, types and columns: they depend on the indices
      alone. */
  lemma {:induction false} SameOrigins<T>(r: seq<T>, o: seq<Origin>, s: seq<T>, items: seq<T>, idx: seq<nat>,
                                          rest: seq<T>, news: seq<Origin>)
    requires Follows(r, o, s, items) && |idx| == |rest| == |news| <= |items| && Fits(|r|, idx)
    requires forall k :: 0 <= k < |rest| ==>
               rest[k] == items[|items| - |rest| + k] && news[k] == New(|items| - |rest| + k)
    ensures Follows(InsertAll(r, idx, rest), InsertAll(o, idx, news), s, items)
    decreases |idx|
  {
    if idx != [] {
      FollowsInsert(r, o, s, items, idx[0], |items| - |rest|);
      SameOrigins(InsertOne(r, idx[0], rest[0]), InsertOne(o, idx[0], news[0]), s, items, idx[1..], rest[1..],
          news[1..]);
    }
  }

  function News(m: nat, n: nat): (r: seq<Origin>)
    requires m <= n
    ensures |r| == n - m && forall k :: 0 <= k < |r| ==> r[k] == New(m + k)
  {
    seq(n - m, k requires 0 <= k < n - m => New(m + k))
  }

  function Olds(n: nat): (r: seq<Origin>)
    ensures |r| == n && forall k :: 0 <= k < n ==> r[k] == Old(k)
  {
    seq(n, k requires 0 <= k < n => Old(k))
  }

  ghost function Origins(n: nat, idx: seq<nat>): (r: seq<Origin>)
    requires Fits(n, idx)
    ensures |r| == n + |idx|
  {
    InsertAll(Olds(n), idx, News(0, |idx|))
  }

  /** Names, types and columns stay aligned: whatever is inserted, the element at a position
      has the same origin. */
  lemma Aligned<T>(s: seq<T>, items: seq<T>, idx: seq<nat>)
    requires |items| == |idx| && Fits(|s|, idx)
    ensures Follows(InsertAll(s, idx, items), Origins(|s|, idx), s, items)
  {
    var olds, news := Olds(|s|), News(0, |idx|);
    SameOrigins(s, olds, s, items, idx, items, news);
  }

  // ----- names and types -----

  datatype LoadMeta = LoadMeta(table: nat, column: ColumnId, index: nat, name: string, dataType: nat)

  function Indices(metas: seq<LoadMeta>): (r: seq<nat>)
    ensures |r| == |metas| && forall k :: 0 <= k < |r| ==> r[k] == metas[k].index
  {
    seq(|metas|, k requires 0 <= k < |metas| => metas[k].index)
  }

  function Names(metas: seq<LoadMeta>): (r: seq<string>)
    ensures |r| == |metas| && forall k :: 0 <= k < |r| ==> r[k] == metas[k].name
  {
    seq(|metas|, k requires 0 <= k < |metas| => metas[k].name)
  }

  function Types(metas: seq<LoadMeta>): (r: seq<nat>)
    ensures |r| == |metas| && forall k :: 0 <= k < |r| ==> r[k] == metas[k].dataType
  {
    seq(|metas|, k requires 0 <= k < |metas| => metas[k].dataType)
  }

  lemma FitsNext(n: nat, idx: seq<nat>, k: nat)
    requires k < |idx| && Fits(n, idx[k..])
    ensures idx[k] <= n && Fits(n + 1, idx[k + 1..])
  {
    assert idx[k..][0] == idx[k];
    var rest := idx[k + 1..];
    forall l | 0 <= l < |rest| ensures rest[l] <= n + 1 + l {
      assert rest[l] == idx[k..][l + 1];
    }
  }

  lemma InsertFirst<T>(s: seq<T>, idx: seq<nat>, items: seq<T>, i: nat, rest: seq<nat>, x: T, others: seq<T>)
    requires |idx| == |items| > 0 && Fits(|s|, idx)
    requires idx[0] == i && idx[1..] == rest && items[0] == x && items[1..] == others && Fits(|s| + 1, rest)
    ensures InsertAll(s, idx, items) == InsertAll(InsertOne(s, i, x), rest, others)
  {
  }

  lemma InsertNext<T>(s: seq<T>, idx: seq<nat>, items: seq<T>, k: nat)
    requires |idx| == |items| && k < |idx| && Fits(|s|, idx[k..])
    ensures idx[k] <= |s| && Fits(|s| + 1, idx[k + 1..])
    ensures InsertAll(s, idx[k..], items[k..])
            == InsertAll(InsertOne(s, idx[k], items[k]), idx[k + 1..], items[k + 1..])
  {
    FitsNext(|s|, idx, k);
    InsertFirst(s, idx[k..], items[k..], idx[k], idx[k + 1..], items[k], items[k + 1..]);
  }

  method GetOutputNames(prev: seq<string>, metas: seq<LoadMeta>) returns (names: seq<string>)
    requires Fits(|prev|, Indices(metas))
    ensures names == InsertAll(prev, Indices(metas), Names(metas))
  {
    names := prev;
    ghost var idx, items := Indices(metas), Names(metas);
    assert idx[0..] == idx && items[0..] == items;
    for k := 0 to |metas|
      invariant Fits(|names|, idx[k..])
      invariant InsertAll(names, idx[k..], items[k..]) == InsertAll(prev, idx, items)
    {
      InsertNext(names, idx, items, k);
      names := InsertOne(names, metas[k].index, metas[k].name);
    }
  }

  method GetOutputTypes(prev: seq<nat>, metas: seq<LoadMeta>) returns (types: seq<nat>)
    requires Fits(|prev|, Indices(metas))
    ensures types == InsertAll(prev, Indices(metas), Types(metas))
  {
    types := prev;
    ghost var idx, items := Indices(metas), Types(metas);
    assert idx[0..] == idx && items[0..] == items;
    for k := 0 to |metas|
      invariant Fits(|types|, idx[k..])
      invariant InsertAll(types, idx[k..], items[k..]) == InsertAll(prev, idx, items)
    {
      InsertNext(types, idx, items, k);
      types := InsertOne(types, metas[k].index, metas[k].dataType);
    }
  }

  // ----- the jobs -----

  const DEFAULT_BLOCK_CAPACITY: nat := 8192

  /** The block id is cut to 16 bits. */
  function BlockOf(offset: nat): BlockId {
    (offset / DEFAULT_BLOCK_CAPACITY) % (MAX_U16 + 1)
  }

  function OffsetOf(offset: nat): nat {
    offset % DEFAULT_BLOCK_CAPACITY
  }

  /** A segment offset survives the split exactly when it is below 2^29. */
  lemma SplitLosslessIff(offset: nat)
    ensures BlockOf(offset) * DEFAULT_BLOCK_CAPACITY + OffsetOf(offset) == offset <==> offset < 0x2000_0000
  {
    var q := offset / DEFAULT_BLOCK_CAPACITY;
    assert offset == q * DEFAULT_BLOCK_CAPACITY + OffsetOf(offset);
    assert q <= MAX_U16 <==> offset < 0x2000_0000;
    if q <= MAX_U16 {
      assert BlockOf(offset) == q;
    } else {
      assert BlockOf(offset) < q;
    }
  }

  function JobFor(meta: LoadMeta, i: nat, row: Value, j: nat): Job
    requires row.RowId?
  {
    Job(row.segment, BlockOf(row.offset), meta.column, OffsetOf(row.offset), i, meta.index, j)
  }

  predicate RowIds(ids: seq<Value>) {
    forall j :: 0 <= j < |ids| ==> ids[j].RowId?
  }

  /** The jobs of one row, for the first `k` loads. */
  function RowJobs(metas: seq<LoadMeta>, i: nat, row: Value, j: nat, k: nat): (r: seq<Job>)
    requires row.RowId? && k <= |metas|
  {
    if k == 0 then [] else RowJobs(metas, i, row, j, k - 1) + [JobFor(metas[k - 1], i, row, j)]
  }

  /** The jobs of the first `j` rows of block `i`. */
  function BlockJobs(metas: seq<LoadMeta>, i: nat, ids: seq<Value>, j: nat): seq<Job>
    requires RowIds(ids) && j <= |ids|
  {
    if j == 0 then [] else BlockJobs(metas, i, ids, j - 1) + RowJobs(metas, i, ids[j - 1], j - 1, |metas|)
  }

  ghost predicate AllRowIds(ids: seq<seq<Value>>) {
    forall i :: 0 <= i < |ids| ==> RowIds(ids[i])
  }

  /** The jobs of the first `i` blocks. */
  ghost function AllJobs(metas: seq<LoadMeta>, ids: seq<seq<Value>>, i: nat): seq<Job>
    requires AllRowIds(ids) && i <= |ids|
  {
    if i == 0 then [] else AllJobs(metas, ids, i - 1) + BlockJobs(metas, i - 1, ids[i - 1], |ids[i - 1]|)
  }

  ghost predicate LoadsRow(metas: seq<LoadMeta>, x: Job, i: nat, row: Value, j: nat, k: nat)
    requires row.RowId? && k <= |metas|
  {
    exists l :: 0 <= l < k && x == JobFor(metas[l], i, row, j)
  }

  ghost predicate LoadsBlock(metas: seq<LoadMeta>, x: Job, i: nat, ids: seq<Value>, n: nat)
    requires RowIds(ids) && n <= |ids|
  {
    exists j :: 0 <= j < n && LoadsRow(metas, x, i, ids[j], j, |metas|)
  }

  ghost predicate LoadsAny(metas: seq<LoadMeta>, x: Job, ids: seq<seq<Value>>, n: nat)
    requires AllRowIds(ids) && n <= |ids|
  {
    exists i :: 0 <= i < n && LoadsBlock(metas, x, i, ids[i], |ids[i]|)
  }

  lemma {:induction false} RowJobIn(metas: seq<LoadMeta>, i: nat, row: Value, j: nat, k: nat, x: Job)
    requires row.RowId? && k <= |metas|
    ensures x in RowJobs(metas, i, row, j, k) <==> LoadsRow(metas, x, i, row, j, k)
  {
    if k > 0 { RowJobIn(metas, i, row, j, k - 1, x); }
  }

  lemma {:induction false} BlockJobIn(metas: seq<LoadMeta>, i: nat, ids: seq<Value>, n: nat, x: Job)
    requires RowIds(ids) && n <= |ids|
    ensures x in BlockJobs(metas, i, ids, n) <==> LoadsBlock(metas, x, i, ids, n)
  {
    if n > 0 {
      BlockJobIn(metas, i, ids, n - 1, x);
      RowJobIn(metas, i, ids[n - 1], n - 1, |metas|, x);
      assert LoadsBlock(metas, x, i, ids, n) <==>
             LoadsBlock(metas, x, i, ids, n - 1) || LoadsRow(metas, x, i, ids[n - 1], n - 1, |metas|);
    }
  }

  lemma {:induction false} AllJobIn(metas: seq<LoadMeta>, ids: seq<seq<Value>>, n: nat, x: Job)
    requires AllRowIds(ids) && n <= |ids|
    ensures x in AllJobs(metas, ids, n) <==> LoadsAny(metas, x, ids, n)
  {
    if n > 0 {
      AllJobIn(metas, ids, n - 1, x);
      var m := n - 1;
      var last := ids[m];
      BlockJobIn(metas, m, last, |last|, x);
      assert LoadsAny(metas, x, ids, n) <==> LoadsAny(metas, x, ids, m) || LoadsBlock(metas, x, m, last, |last|);
    }
  }

  /** A job of the list loads some row `j` of load `k` in block `i`. */
  lemma JobOf(metas: seq<LoadMeta>, ids: seq<seq<Value>>, x: Job) returns (i: nat, k: nat, j: nat)
    requires AllRowIds(ids) && x in AllJobs(metas, ids, |ids|)
    ensures i < |ids| && j < |ids[i]| && k < |metas| && x == JobFor(metas[k], i, ids[i][j], j)
  {
    AllJobIn(metas, ids, |ids|, x);
    i :| 0 <= i < |ids| && LoadsBlock(metas, x, i, ids[i], |ids[i]|);
    j :| 0 <= j < |ids[i]| && LoadsRow(metas, x, i, ids[i][j], j, |metas|);
    k :| 0 <= k < |metas| && x == JobFor(metas[k], i, ids[i][j], j);
  }

  /** Every row of every load has its job. */
  lemma HasJob(metas: seq<LoadMeta>, ids: seq<seq<Value>>, i: nat, k: nat, j: nat)
    requires AllRowIds(ids) && i < |ids| && j < |ids[i]| && k < |metas|
    ensures JobFor(metas[k], i, ids[i][j], j) in AllJobs(metas, ids, |ids|)
  {
    var x := JobFor(metas[k], i, ids[i][j], j);
    AllJobIn(metas, ids, |ids|, x);
    assert LoadsRow(metas, x, i, ids[i][j], j, |metas|);
    assert LoadsBlock(metas, x, i, ids[i], |ids[i]|);
  }

  // ----- what is loaded -----

  /** Blocks as InputLoad takes them: rectangular, with row ids in the last column. */
  predicate Block(columns: seq<seq<Value>>) {
    && columns != []
    && (forall c :: 0 <= c < |columns| ==> |columns[c]| == |columns[|columns| - 1]|)
    && RowIds(columns[|columns| - 1])
  }

  function Ids(columns: seq<seq<Value>>): (r: seq<Value>)
    requires Block(columns)
    ensures RowIds(r)
  {
    columns[|columns| - 1]
  }

  ghost predicate Loadable(out: Blocks, metas: seq<LoadMeta>) {
    forall b :: 0 <= b < |out| ==> Block(out[b]) && BeforeLast(|out[b]|, Indices(metas))
  }

  function Blank(rows: nat): (r: seq<Value>)
    ensures |r| == rows
  {
    seq(rows, _ => Other([]))
  }

  function Blanks(rows: nat, n: nat): (r: seq<seq<Value>>)
    ensures |r| == n && forall k :: 0 <= k < n ==> r[k] == Blank(rows)
  {
    seq(n, _ => Blank(rows))
  }

  /** One block with room for the loads. */
  function Widened(columns: seq<seq<Value>>, metas: seq<LoadMeta>): seq<seq<Value>>
    requires Block(columns) && BeforeLast(|columns|, Indices(metas))
  {
    InsertAll(columns, Indices(metas), Blanks(|Ids(columns)|, |metas|))
  }

  ghost function AllWidened(out: Blocks, metas: seq<LoadMeta>): (r: Blocks)
    requires Loadable(out, metas)
    ensures |r| == |out| && forall b :: 0 <= b < |r| ==> r[b] == Widened(out[b], metas)
  {
    seq(|out|, b requires 0 <= b < |out| => Widened(out[b], metas))
  }

  ghost function AllIds(out: Blocks): (r: seq<seq<Value>>)
    requires forall b :: 0 <= b < |out| ==> Block(out[b])
    ensures |r| == |out| && forall b :: 0 <= b < |r| ==> r[b] == Ids(out[b])
    ensures AllRowIds(r)
  {
    seq(|out|, b requires 0 <= b < |out| => Ids(out[b]))
  }

  ghost function JobsOf(out: Blocks, metas: seq<LoadMeta>): seq<Job>
    requires Loadable(out, metas)
  {
    AllJobs(metas, AllIds(out), |out|)
  }

  lemma {:induction false} InsertRectangular(s: seq<seq<Value>>, idx: seq<nat>, items: seq<seq<Value>>, n: nat)
    requires |idx| == |items| && Fits(|s|, idx)
    requires forall c :: 0 <= c < |s| ==> |s[c]| == n
    requires forall c :: 0 <= c < |items| ==> |items[c]| == n
    ensures forall c :: 0 <= c < |s| + |idx| ==> |InsertAll(s, idx, items)[c]| == n
    decreases |idx|
  {
    if idx != [] { InsertRectangular(InsertOne(s, idx[0], items[0]), idx[1..], items[1..], n); }
  }

  /** Every job has a destination. */
  lemma JobsWritable(out: Blocks, metas: seq<LoadMeta>)
    requires Loadable(out, metas)
    ensures AllWritable(AllWidened(out, metas), JobsOf(out, metas))
  {
    var w, jobs := AllWidened(out, metas), JobsOf(out, metas);
    forall n | 0 <= n < |jobs| ensures Writable(w, jobs[n]) {
      var i, k, j := JobOf(metas, AllIds(out), jobs[n]);
      var rows := |Ids(out[i])|;
      InsertRectangular(out[i], Indices(metas), Blanks(rows, |metas|), rows);
      assert Indices(metas)[k] < |out[i]| + k;
    }
  }

  /** The column load `k` should have: for each row, the value stored at its row id. */
  function LoadedColumn(store: Store, meta: LoadMeta, ids: seq<Value>): (r: seq<Value>)
    requires RowIds(ids)
    requires forall j :: 0 <= j < |ids| ==> Readable(store, JobFor(meta, 0, ids[j], j))
    ensures |r| == |ids| && forall j :: 0 <= j < |r| ==> r[j] == Stored(store, JobFor(meta, 0, ids[j], j))
  {
    seq(|ids|, j requires 0 <= j < |ids| => Stored(store, JobFor(meta, 0, ids[j], j)))
  }

  ghost predicate AllReadable(store: Store, out: Blocks, metas: seq<LoadMeta>)
    requires Loadable(out, metas)
  {
    forall b, k, j :: 0 <= b < |out| && 0 <= k < |metas| && 0 <= j < |Ids(out[b])| ==>
      Readable(store, JobFor(metas[k], 0, Ids(out[b])[j], j))
  }

  ghost function LoadedColumns(store: Store, metas: seq<LoadMeta>, out: Blocks, b: nat): (r: seq<seq<Value>>)
    requires Loadable(out, metas) && AllReadable(store, out, metas) && b < |out|
    ensures |r| == |metas| && forall k :: 0 <= k < |r| ==> r[k] == LoadedColumn(store, metas[k], Ids(out[b]))
  {
    seq(|metas|, k requires 0 <= k < |metas| => LoadedColumn(store, metas[k], Ids(out[b])))
  }

  ghost function Loaded(store: Store, out: Blocks, metas: seq<LoadMeta>): (r: Blocks)
    requires Loadable(out, metas) && AllReadable(store, out, metas)
    ensures |r| == |out|
    ensures forall b :: 0 <= b < |r| ==> r[b] == InsertAll(out[b], Indices(metas), LoadedColumns(store, metas, out, b))
  {
    seq(|out|, b requires 0 <= b < |out| => InsertAll(out[b], Indices(metas), LoadedColumns(store, metas, out, b)))
  }

  lemma JobsReady(store: Store, out: Blocks, metas: seq<LoadMeta>)
    requires Loadable(out, metas) && AllReadable(store, out, metas)
    ensures Ready(store, AllWidened(out, metas), JobsOf(out, metas))
  {
    JobsWritable(out, metas);
    var jobs := JobsOf(out, metas);
    forall n | 0 <= n < |jobs| ensures Readable(store, jobs[n]) {
      var i, k, j := JobOf(metas, AllIds(out), jobs[n]);
      assert Readable(store, JobFor(metas[k], 0, Ids(out[i])[j], j));
    }
  }

  lemma JobsDistinct(out: Blocks, metas: seq<LoadMeta>)
    requires Loadable(out, metas) && Increasing(Indices(metas))
    ensures Distinct(JobsOf(out, metas))
  {
    var jobs, ids := JobsOf(out, metas), AllIds(out);
    forall x, y | x in jobs && y in jobs && To(x, y.outBlock, y.outColumn, y.outRow) ensures x == y {
      var i, k, j := JobOf(metas, ids, x);
      var i2, k2, j2 := JobOf(metas, ids, y);
      var idx := Indices(metas);
      assert idx[k] == idx[k2];
      assert k == k2;
    }
  }

  /** Outside the load indices the inserted items do not show. */
  lemma {:induction false} SameOutside<T>(s: seq<T>, t: seq<T>, idx: seq<nat>, items: seq<T>, others: seq<T>, p: nat,
        done: set<nat>)
    requires |s| == |t| && |idx| == |items| == |others| && Fits(|s|, idx) && Increasing(idx)
    requires forall q: nat :: q < |s| && q !in done ==> s[q] == t[q]
    requires forall q :: q in done && idx != [] ==> q < idx[0]
    requires p < |s| + |idx| && p !in idx && p !in done
    ensures InsertAll(s, idx, items)[p] == InsertAll(t, idx, others)[p]
    decreases |idx|
  {
    if idx != [] {
      var s1, t1 := InsertOne(s, idx[0], items[0]), InsertOne(t, idx[0], others[0]);
      forall q: nat | q < |s1| && q !in done + {idx[0]} ensures s1[q] == t1[q] {
        if q > idx[0] { assert q - 1 !in done; }
      }
      SameOutside(s1, t1, idx[1..], items[1..], others[1..], p, done + {idx[0]});
    }
  }

  lemma LoadedShape(store: Store, out: Blocks, metas: seq<LoadMeta>, b: nat)
    requires Loadable(out, metas) && AllReadable(store, out, metas) && b < |out|
    ensures var w, l := AllWidened(out, metas), Loaded(store, out, metas);
            |w[b]| == |l[b]| && forall c :: 0 <= c < |w[b]| ==> |w[b][c]| == |Ids(out[b])| == |l[b][c]|
  {
    var n := |Ids(out[b])|;
    InsertRectangular(out[b], Indices(metas), Blanks(n, |metas|), n);
    InsertRectangular(out[b], Indices(metas), LoadedColumns(store, metas, out, b), n);
  }

  lemma LoadedInside(store: Store, out: Blocks, metas: seq<LoadMeta>, b: nat, k: nat, r: nat)
    requires Loadable(out, metas) && AllReadable(store, out, metas) && Increasing(Indices(metas))
    requires b < |out| && k < |metas| && r < |Ids(out[b])|
    ensures var x := JobFor(metas[k], b, Ids(out[b])[r], r);
            && x in JobsOf(out, metas) && To(x, b, metas[k].index, r) && Readable(store, x)
            && Has(Loaded(store, out, metas), b, metas[k].index, r)
            && Loaded(store, out, metas)[b][metas[k].index][r] == Stored(store, x)
  {
    var ids := AllIds(out);
    var x := JobFor(metas[k], b, ids[b][r], r);
    HasJob(metas, ids, b, k, r);
    InsertedAtIndex(out[b], Indices(metas), LoadedColumns(store, metas, out, b), k);
    assert Readable(store, JobFor(metas[k], 0, Ids(out[b])[r], r));
  }

  lemma LoadedOutside(store: Store, out: Blocks, metas: seq<LoadMeta>, b: nat, c: nat, r: nat)
    requires Loadable(out, metas) && AllReadable(store, out, metas) && Increasing(Indices(metas))
    requires b < |out| && c < |out[b]| + |metas| && c !in Indices(metas)
    ensures forall x :: x in JobsOf(out, metas) ==> !To(x, b, c, r)
    ensures Loaded(store, out, metas)[b][c] == AllWidened(out, metas)[b][c]
  {
    var ids, idx := AllIds(out), Indices(metas);
    SameOutside(out[b], out[b], idx, Blanks(|Ids(out[b])|, |metas|), LoadedColumns(store, metas, out, b), c, {});
    forall x | x in JobsOf(out, metas) ensures !To(x, b, c, r) {
      var i, k, j := JobOf(metas, ids, x);
      assert idx[k] in idx;
    }
  }

  lemma LoadedCell(store: Store, out: Blocks, metas: seq<LoadMeta>, b: nat, c: nat, r: nat)
    requires Loadable(out, metas) && AllReadable(store, out, metas) && Increasing(Indices(metas))
    requires Ready(store, AllWidened(out, metas), JobsOf(out, metas)) && Has(AllWidened(out, metas), b, c, r)
    ensures var d := Direct(store, AllWidened(out, metas), JobsOf(out, metas));
            Has(Loaded(store, out, metas), b, c, r) && Has(d, b, c, r)
                && d[b][c][r] == Loaded(store, out, metas)[b][c][r]
  {
    JobsDistinct(out, metas);
    LoadedShape(store, out, metas, b);
    DirectCell(store, AllWidened(out, metas), JobsOf(out, metas), b, c, r);
    var idx := Indices(metas);
    if c in idx {
      var k :| 0 <= k < |idx| && idx[k] == c;
      LoadedInside(store, out, metas, b, k, r);
    } else {
      LoadedOutside(store, out, metas, b, c, r);
    }
  }

  /** InputLoad as a whole: with increasing indices that leave the row ids last, the result is
      the old columns with each loaded column inserted at its index, filled with the values
      stored at the row ids. */
  lemma LoadsStoredValues(store: Store, out: Blocks, metas: seq<LoadMeta>)
    requires Loadable(out, metas) && AllReadable(store, out, metas) && Increasing(Indices(metas))
    requires !Sentinel(JobsOf(out, metas))
    ensures AllWritable(AllWidened(out, metas), Sort(JobsOf(out, metas)))
    ensures var t := Run(store, Started(AllWidened(out, metas)), Sort(JobsOf(out, metas)));
            t.Some? && t.value.out == Loaded(store, out, metas)
  {
    JobsReady(store, out, metas);
    JobsDistinct(out, metas);
    var w, jobs := AllWidened(out, metas), JobsOf(out, metas);
    CachedIsDirect(store, w, jobs);
    var d, l := Direct(store, w, jobs), Loaded(store, out, metas);
    forall b | 0 <= b < |w| ensures |w[b]| == |l[b]| && forall c :: 0 <= c < |w[b]| ==> |w[b][c]| == |l[b][c]| {
      LoadedShape(store, out, metas, b);
    }
    forall b: nat, c: nat, r: nat | Has(d, b, c, r) ensures d[b][c][r] == l[b][c][r] {
      LoadedCell(store, out, metas, b, c, r);
    }
    SameCells(d, l);
  }

  /** The value stored at a row id. */
  function CellAt(store: Store, row: Value, column: ColumnId): Option<Value>
    requires row.RowId? && row.offset < 0x2000_0000
  {
    var block: BlockId := row.offset / DEFAULT_BLOCK_CAPACITY;
    var o := row.offset % DEFAULT_BLOCK_CAPACITY;
    if (row.segment, block) in store && column in store[(row.segment, block)]
        && o < |store[(row.segment, block)][column]|
    then Some(store[(row.segment, block)][column][o])
    else None
  }

  lemma StoredIsCellAt(store: Store, meta: LoadMeta, b: nat, row: Value, r: nat)
    requires row.RowId? && row.offset < 0x2000_0000 && Readable(store, JobFor(meta, b, row, r))
    ensures CellAt(store, row, meta.column) == Some(Stored(store, JobFor(meta, b, row, r)))
  {
    assert BlockOf(row.offset) == row.offset / DEFAULT_BLOCK_CAPACITY;
  }

  /** Row `r` of load `k` is the value stored at that row's id. */
  lemma LoadedByRowId(store: Store, out: Blocks, metas: seq<LoadMeta>, b: nat, k: nat, r: nat)
    requires Loadable(out, metas) && AllReadable(store, out, metas) && Increasing(Indices(metas))
    requires b < |out| && k < |metas| && r < |Ids(out[b])| && Ids(out[b])[r].offset < 0x2000_0000
    ensures var l := Loaded(store, out, metas);
            Has(l, b, metas[k].index, r) && Some(l[b][metas[k].index][r])
                == CellAt(store, Ids(out[b])[r], metas[k].column)
  {
    LoadedInside(store, out, metas, b, k, r);
    StoredIsCellAt(store, metas[k], b, Ids(out[b])[r], r);
  }

  /** The row ids are still last and the other columns are the old ones in their order. */
  lemma OthersKept(store: Store, out: Blocks, metas: seq<LoadMeta>, b: nat)
    requires Loadable(out, metas) && AllReadable(store, out, metas) && b < |out|
    ensures var l := Loaded(store, out, metas)[b];
            && |l| == |out[b]| + |metas| && l[|l| - 1] == Ids(out[b])
            && RemoveAll(l, |out[b]|, Indices(metas)) == out[b]
  {
    var idx, columns := Indices(metas), LoadedColumns(store, metas, out, b);
    LastStays(out[b], idx, columns);
    InsertKeepsOthers(out[b], idx, columns);
  }

  // ----- the method -----

  datatype Outcome = NothingToLoad | TableRefNotFound | Broken | Done

  /** Makes room in one block. */
  method Widen(block: DataBlock, metas: seq<LoadMeta>)
    requires Block(block.columns) && block.rowCount == |Ids(block.columns)|
    requires BeforeLast(|block.columns|, Indices(metas))
    modifies block
    ensures block.columns == Widened(old(block.columns), metas)
  {
    ghost var idx, items := Indices(metas), Blanks(block.rowCount, |metas|);
    assert idx[0..] == idx && items[0..] == items;
    for k := 0 to |metas|
      invariant Fits(|block.columns|, idx[k..])
      invariant InsertAll(block.columns, idx[k..], items[k..]) == Widened(old(block.columns), metas)
    {
      InsertNext(block.columns, idx, items, k);
      block.InsertVector(Blank(block.rowCount), metas[k].index);
    }
  }

  /** Adds the jobs of one block. */
  method AddJobs(helper: OutputToDataBlockHelper, metas: seq<LoadMeta>, i: nat, ids: seq<Value>)
    requires RowIds(ids)
    modifies helper
    ensures helper.jobs == old(helper.jobs) + BlockJobs(metas, i, ids, |ids|)
  {
    for j := 0 to |ids|
      invariant helper.jobs == old(helper.jobs) + BlockJobs(metas, i, ids, j)
    {
      ghost var before := helper.jobs;
      for k := 0 to |metas|
        invariant helper.jobs == before + RowJobs(metas, i, ids[j], j, k)
      {
        helper.AddOutputJobInfo(JobFor(metas[k], i, ids[j], j));
      }
    }
  }

  /** The row counts of the blocks are the lengths of their columns. */
  ghost predicate Counted(blocks: seq<DataBlock>, out: Blocks)
    requires forall b :: 0 <= b < |out| ==> Block(out[b])
  {
    |blocks| == |out| && forall b :: 0 <= b < |blocks| ==> blocks[b].rowCount == |Ids(out[b])|
  }

  /** Makes room in block `i` and adds its jobs. */
  method PrepareOne(helper: OutputToDataBlockHelper, metas: seq<LoadMeta>, i: nat, block: DataBlock)
    requires Block(block.columns) && block.rowCount == |Ids(block.columns)|
    requires BeforeLast(|block.columns|, Indices(metas))
    modifies helper, block
    ensures block.columns == Widened(old(block.columns), metas)
    ensures var ids := Ids(old(block.columns)); helper.jobs == old(helper.jobs) + BlockJobs(metas, i, ids, |ids|)
  {
    Widen(block, metas);
    LastStays(old(block.columns), Indices(metas), Blanks(block.rowCount, |metas|));
    AddJobs(helper, metas, i, block.columns[|block.columns| - 1]);
  }

  method PrepareAt(helper: OutputToDataBlockHelper, metas: seq<LoadMeta>, blocks: seq<DataBlock>, i: nat)
    requires Unaliased(blocks) && i < |blocks| && Block(Contents(blocks)[i])
    requires blocks[i].rowCount == |Ids(Contents(blocks)[i])| && BeforeLast(|Contents(blocks)[i]|, Indices(metas))
    modifies helper, blocks
    ensures Contents(blocks) == old(Contents(blocks))[i := Widened(old(Contents(blocks)[i]), metas)]
    ensures var ids := Ids(old(Contents(blocks)[i])); helper.jobs == old(helper.jobs) + BlockJobs(metas, i, ids, |ids|)
  {
    PrepareOne(helper, metas, i, blocks[i]);
  }

  /** The blocks when the first `i` have been widened. */
  ghost function PartWidened(out: Blocks, metas: seq<LoadMeta>, i: nat): (r: Blocks)
    requires Loadable(out, metas) && i <= |out|
    ensures |r| == |out| && (i < |out| ==> r[i] == out[i])
  {
    AllWidened(out, metas)[..i] + out[i..]
  }

  lemma PartWidenedNext(out: Blocks, metas: seq<LoadMeta>, i: nat)
    requires Loadable(out, metas) && i < |out|
    ensures Block(out[i]) && PartWidened(out, metas, i + 1) == PartWidened(out, metas, i)[i := Widened(out[i], metas)]
  {
  }

  lemma PartWidenedEnds(out: Blocks, metas: seq<LoadMeta>)
    requires Loadable(out, metas)
    ensures PartWidened(out, metas, |out|) == AllWidened(out, metas)
  {
  }

  /** The first `i` blocks have been widened and their jobs added. */
  ghost predicate Prepared(helper: OutputToDataBlockHelper, metas: seq<LoadMeta>, blocks: seq<DataBlock>,
        out: Blocks, i: nat)
    requires Loadable(out, metas) && i <= |out|
    reads helper, blocks
  {
    Contents(blocks) == PartWidened(out, metas, i) && helper.jobs == AllJobs(metas, AllIds(out), i)
  }

  method PrepareNext(helper: OutputToDataBlockHelper, metas: seq<LoadMeta>, blocks: seq<DataBlock>, i: nat,
        ghost out: Blocks)
    requires Unaliased(blocks) && Loadable(out, metas) && Counted(blocks, out) && i < |out|
    requires Prepared(helper, metas, blocks, out, i)
    modifies helper, blocks
    ensures Prepared(helper, metas, blocks, out, i + 1)
  {
    PartWidenedNext(out, metas, i);
    ghost var ids := AllIds(out);
    ghost var here := ids[i];
    assert Contents(blocks)[i] == out[i] && here == Ids(out[i]);
    PrepareAt(helper, metas, blocks, i);
    assert helper.jobs == AllJobs(metas, ids, i) + BlockJobs(metas, i, here, |here|);
  }

  /** Makes room in all blocks and adds all jobs. */
  method Prepare(helper: OutputToDataBlockHelper, metas: seq<LoadMeta>, blocks: seq<DataBlock>)
    requires Unaliased(blocks) && Loadable(Contents(blocks), metas) && helper.jobs == []
    requires Counted(blocks, Contents(blocks))
    modifies helper, blocks
    ensures Prepared(helper, metas, blocks, old(Contents(blocks)), |blocks|)
  {
    ghost var out := Contents(blocks);
    assert PartWidened(out, metas, 0) == out;
    for i := 0 to |blocks|
      invariant Prepared(helper, metas, blocks, out, i)
    {
      PrepareNext(helper, metas, blocks, i, out);
    }
  }

  method Load(metas: seq<LoadMeta>, tables: map<nat, Store>, blocks: seq<DataBlock>) returns (r: Outcome)
    requires Unaliased(blocks)
    requires metas != [] && metas[0].table in tables ==>
               Loadable(Contents(blocks), metas) && Counted(blocks, Contents(blocks))
    modifies blocks
    ensures metas == [] ==> r == NothingToLoad && Contents(blocks) == old(Contents(blocks))
    ensures metas != [] && metas[0].table !in tables
            ==> r == TableRefNotFound && Contents(blocks) == old(Contents(blocks))
    ensures metas != [] && metas[0].table in tables ==>
              && AllWritable(AllWidened(old(Contents(blocks)), metas), Sort(JobsOf(old(Contents(blocks)), metas)))
              && match Run(tables[metas[0].table], Started(AllWidened(old(Contents(blocks)), metas)),
                 Sort(JobsOf(old(Contents(blocks)), metas)))
                 case None => r == Broken
                 case Some(t) => r == Done && Contents(blocks) == t.out
  {
    if metas == [] { return NothingToLoad; }
    if metas[0].table !in tables { return TableRefNotFound; }
    JobsWritable(Contents(blocks), metas);
    PartWidenedEnds(Contents(blocks), metas);
    var helper := new OutputToDataBlockHelper();
    Prepare(helper, metas, blocks);
    var fetched := helper.OutputToDataBlock(tables[metas[0].table], blocks);
    r := if fetched.None? then Broken else Done;
  }
}
