/** Byte encoders of result columns and the in-place narrowing of embeddings:
    src/embedded_infinity/wrap_infinity.cpp. */
module Encoders {
  import opened Basics

  const TWO_31: nat := 0x8000_0000
  const TWO_32: nat := 0x1_0000_0000
  const TWO_63: nat := 0x8000_0000_0000_0000
  const TWO_64: nat := 0x1_0000_0000_0000_0000

  // ----- 32-bit lengths -----

  /** The i32 that an integer is converted to. */
  function ToI32(n: int): int {
    (n + TWO_31) % TWO_32 - TWO_31
  }

  /** The size of an i32. */
  const WORD: nat := 4

  /** The low `k` bytes, lowest first. */
  function LowBytes(n: nat, k: nat): (r: Bytes)
    ensures |r| == k
    decreases k
  {
    if k == 0 then [] else [(n % 256) as Byte] + LowBytes(n / 256, k - 1)
  }

  function Little(b: Bytes): nat {
    if b == [] then 0 else b[0] as nat + 256 * Little(b[1..])
  }

  /** What memcpy takes of a length. */
  function Prefix(n: nat): (r: Bytes)
    ensures |r| == WORD
  {
    LowBytes(n, WORD)
  }

  function ReadI32(b: Bytes): int
    requires |b| == WORD
  {
    ToI32(Little(b))
  }

  function Power(k: nat): nat {
    if k == 0 then 1 else 256 * Power(k - 1)
  }

  lemma {:induction false} LowBytesAreLow(n: nat, k: nat) returns (q: nat)
    ensures n == Little(LowBytes(n, k)) + Power(k) * q
    decreases k
  {
    if k == 0 {
      q := n;
    } else {
      q := LowBytesAreLow(n / 256, k - 1);
      var low, rest := LowBytes(n / 256, k - 1), LowBytes(n, k);
      assert rest[0] as nat == n % 256 && rest[1..] == low;
      assert 256 * (Power(k - 1) * q) == Power(k) * q;
    }
  }

  lemma WordPower()
    ensures Power(WORD) == TWO_32
  {
    assert Power(1) == 256 && Power(2) == 65536 && Power(3) == 16777216;
  }

  lemma NonNegativeI32(n: nat)
    requires n < TWO_32 && ToI32(n) >= 0
    ensures ToI32(n) == n < TWO_31
  {
  }

  lemma PrefixReads(n: nat)
    ensures ReadI32(Prefix(n)) == ToI32(n)
  {
    var q := LowBytesAreLow(n, WORD);
    WordPower();
    WrapDrops(Little(Prefix(n)), q);
  }

  lemma {:induction false} LittleInverts(b: Bytes)
    ensures LowBytes(Little(b), |b|) == b && Little(b) < Power(|b|)
  {
    if b != [] {
      LittleInverts(b[1..]);
      var m := Little(b[1..]);
      assert Little(b) / 256 == m && Little(b) % 256 == b[0] as nat;
      assert b == [b[0]] + b[1..];
    }
  }

  lemma WrapDrops(n: int, k: nat)
    ensures ToI32(n + TWO_32 * k) == ToI32(n)
  {
  }

  /** A length is written as four bytes, the lowest first. */
  lemma LittleEndian(n: nat)
    ensures var p := Prefix(n);
            && |p| == 4 && p[0] as nat == n % 256 && p[1] as nat == n / 256 % 256
            && p[2] as nat == n / 256 / 256 % 256 && p[3] as nat == n / 256 / 256 / 256 % 256
  {
    assert LowBytes(n, 4)[1..] == LowBytes(n / 256, 3);
    assert LowBytes(n / 256, 3)[1..] == LowBytes(n / 256 / 256, 2);
    assert LowBytes(n / 256 / 256, 2)[1..] == LowBytes(n / 256 / 256 / 256, 1);
  }

  /** The sizes of the integer types. */
  lemma WordSizes()
    ensures TWO_32 == 2 * TWO_31 == 65536 * 65536 && TWO_64 == 2 * TWO_63 == TWO_32 * TWO_32
  {
  }

  // ----- chunks: varchar, tensor and multi-vector columns -----

  /** A length and that many bytes. */
  function Chunk(data: Bytes): Bytes {
    Prefix(|data|) + data
  }

  function Chunks(rows: seq<Bytes>): Bytes {
    if rows == [] then [] else Chunk(rows[0]) + Chunks(rows[1..])
  }

  ghost predicate Short(rows: seq<Bytes>) {
    forall i :: 0 <= i < |rows| ==> |rows[i]| < TWO_31
  }

  lemma {:induction false} ChunksAppend(rows: seq<Bytes>, row: Bytes)
    ensures Chunks(rows + [row]) == Chunks(rows) + Chunk(row)
  {
    if rows == [] {
      assert Chunks([row]) == Chunk(row) + Chunks([row][1..]);
      assert rows + [row] == [row];
    } else {
      assert (rows + [row])[1..] == rows[1..] + [row];
      ChunksAppend(rows[1..], row);
    }
  }

  lemma ChunksNext(rows: seq<Bytes>, k: nat)
    requires k < |rows|
    ensures Chunks(rows[..k + 1]) == Chunks(rows[..k]) + Chunk(rows[k])
  {
    assert rows[..k + 1] == rows[..k] + [rows[k]];
    ChunksAppend(rows[..k], rows[k]);
  }

  lemma {:induction false} ChunksMonotone(rows: seq<Bytes>, k: nat, n: nat)
    requires k <= n <= |rows|
    ensures |Chunks(rows[..k])| <= |Chunks(rows[..n])|
    decreases n - k
  {
    if k < n {
      ChunksNext(rows, k);
      ChunksMonotone(rows, k + 1, n);
    }
  }

  /** What one more row adds. */
  lemma ChunkStep(rows: seq<Bytes>, k: nat)
    requires k < |rows|
    ensures Chunks(rows[..k + 1]) == Chunks(rows[..k]) + Chunk(rows[k])
    ensures |Chunks(rows[..k + 1])| == |Chunks(rows[..k])| + WORD + |rows[k]| <= |Chunks(rows)|
  {
    ChunksNext(rows, k);
    ChunksMonotone(rows, k + 1, |rows|);
    assert rows[..|rows|] == rows;
  }

  lemma SmallI32(n: nat)
    requires n < TWO_31
    ensures ToI32(n) == n
  {
  }

  // ----- reading chunks back -----

  function ReadChunk(b: Bytes): (r: Option<(Bytes, Bytes)>)
    ensures r.Some? ==> |r.value.0| < TWO_31 && |r.value.1| < |b| && b == Prefix(|r.value.0|) + r.value.0 + r.value.1
  {
    if |b| < WORD then None
    else
      var n := ReadI32(b[..WORD]);
      if n < 0 || WORD + n > |b| then None
      else
        PrefixOfRead(b[..WORD]);
        assert b == b[..WORD] + b[WORD..WORD + n] + b[WORD + n..];
        Some((b[WORD..WORD + n], b[WORD + n..]))
  }

  lemma PrefixOfRead(b: Bytes)
    requires |b| == WORD && ReadI32(b) >= 0
    ensures Prefix(ReadI32(b)) == b && ReadI32(b) < TWO_31
  {
    LittleInverts(b);
    WordPower();
    NonNegativeI32(Little(b));
  }

  lemma Parts(p: Bytes, data: Bytes, rest: Bytes)
    ensures var b := p + data + rest;
            b[..|p|] == p && b[|p|..|p| + |data|] == data && b[|p| + |data|..] == rest && b[|p|..] == data + rest
  {
  }

  lemma ReadsPrefixed(p: Bytes, data: Bytes, rest: Bytes)
    requires |p| == WORD && ReadI32(p) == |data|
    ensures ReadChunk(p + data + rest) == Some((data, rest))
  {
    Parts(p, data, rest);
  }

  lemma ReadsChunk(data: Bytes, rest: Bytes)
    requires |data| < TWO_31
    ensures ReadChunk(Chunk(data) + rest) == Some((data, rest))
  {
    PrefixReads(|data|);
    ReadsPrefixed(Prefix(|data|), data, rest);
  }

  function ReadChunks(b: Bytes): Option<seq<Bytes>>
    decreases |b|
  {
    if b == [] then Some([])
    else
      var c := ReadChunk(b);
      if c.None? then None
      else
        var rest := ReadChunks(c.value.1);
        if rest.None? then None else Some([c.value.0] + rest.value)
  }

  lemma {:induction false} ChunksReadBack(rows: seq<Bytes>)
    requires Short(rows)
    ensures ReadChunks(Chunks(rows)) == Some(rows)
  {
    if rows != [] {
      ReadsChunk(rows[0], Chunks(rows[1..]));
      ChunksReadBack(rows[1..]);
      assert rows == [rows[0]] + rows[1..];
    }
  }

  /** Whatever can be read is the encoding of what was read. */
  lemma {:induction false} ReadIsEncoded(b: Bytes)
    requires ReadChunks(b).Some?
    ensures Chunks(ReadChunks(b).value) == b && Short(ReadChunks(b).value)
    decreases |b|
  {
    if b != [] {
      var c := ReadChunk(b).value;
      ReadIsEncoded(c.1);
      var rows := ReadChunks(b).value;
      assert rows[0] == c.0 && rows[1..] == ReadChunks(c.1).value;
    }
  }

  /** The rows come back exactly when every length is below 2^31. */
  lemma ChunksRoundTripIff(rows: seq<Bytes>)
    ensures ReadChunks(Chunks(rows)) == Some(rows) <==> Short(rows)
  {
    if Short(rows) { ChunksReadBack(rows); }
    if ReadChunks(Chunks(rows)) == Some(rows) { ReadIsEncoded(Chunks(rows)); }
  }

  // ----- tensor arrays -----

  function Arrays(rows: seq<seq<Bytes>>): Bytes {
    if rows == [] then [] else Prefix(|rows[0]|) + Chunks(rows[0]) + Arrays(rows[1..])
  }

  ghost predicate ShortArrays(rows: seq<seq<Bytes>>) {
    forall i :: 0 <= i < |rows| ==> |rows[i]| < TWO_31 && Short(rows[i])
  }

  lemma {:induction false} ArraysAppend(rows: seq<seq<Bytes>>, row: seq<Bytes>)
    ensures Arrays(rows + [row]) == Arrays(rows) + (Prefix(|row|) + Chunks(row))
  {
    if rows == [] {
      assert Arrays([row]) == Prefix(|row|) + Chunks(row) + Arrays([row][1..]);
      assert rows + [row] == [row];
    } else {
      assert (rows + [row])[1..] == rows[1..] + [row];
      ArraysAppend(rows[1..], row);
    }
  }

  lemma ArraysNext(rows: seq<seq<Bytes>>, k: nat)
    requires k < |rows|
    ensures Arrays(rows[..k + 1]) == Arrays(rows[..k]) + (Prefix(|rows[k]|) + Chunks(rows[k]))
  {
    assert rows[..k + 1] == rows[..k] + [rows[k]];
    ArraysAppend(rows[..k], rows[k]);
  }

  lemma {:induction false} ArraysMonotone(rows: seq<seq<Bytes>>, k: nat, n: nat)
    requires k <= n <= |rows|
    ensures |Arrays(rows[..k])| <= |Arrays(rows[..n])|
    decreases n - k
  {
    if k < n {
      ArraysNext(rows, k);
      ArraysMonotone(rows, k + 1, n);
    }
  }

  /** Reads `n` chunks and gives what is left. */
  function ReadN(b: Bytes, n: nat): (r: Option<(seq<Bytes>, Bytes)>)
    ensures r.Some? ==> |r.value.0| == n && |r.value.1| <= |b|
    decreases n
  {
    if n == 0 then Some(([], b))
    else
      var c := ReadChunk(b);
      if c.None? then None
      else
        var rest := ReadN(c.value.1, n - 1);
        if rest.None? then None else Some(([c.value.0] + rest.value.0, rest.value.1))
  }

  function ReadArrays(b: Bytes): Option<seq<seq<Bytes>>>
    decreases |b|
  {
    if b == [] then Some([])
    else if |b| < WORD then None
    else
      var n := ReadI32(b[..WORD]);
      if n < 0 then None
      else
        var row := ReadN(b[WORD..], n);
        if row.None? then None
        else
          var rest := ReadArrays(row.value.1);
          if rest.None? then None else Some([row.value.0] + rest.value)
  }

  lemma ReadNNext(data: Bytes, rest: Bytes, n: nat)
    requires |data| < TWO_31 && ReadN(rest, n).Some?
    ensures var r := ReadN(rest, n).value; ReadN(Chunk(data) + rest, n + 1) == Some(([data] + r.0, r.1))
  {
    ReadsChunk(data, rest);
  }

  lemma {:induction false} ReadsN(row: seq<Bytes>, rest: Bytes)
    requires Short(row)
    ensures ReadN(Chunks(row) + rest, |row|) == Some((row, rest))
  {
    if row == [] {
      assert Chunks(row) + rest == rest;
    } else {
      ReadsN(row[1..], rest);
      Associative(Chunk(row[0]), Chunks(row[1..]), rest);
      ReadNNext(row[0], Chunks(row[1..]) + rest, |row| - 1);
      assert row == [row[0]] + row[1..];
    }
  }

  lemma ReadsArray(p: Bytes, row: seq<Bytes>, rest: Bytes)
    requires |p| == WORD && ReadI32(p) == |row| && Short(row)
    ensures var b := p + Chunks(row) + rest;
            b[..WORD] == p && ReadN(b[WORD..], |row|) == Some((row, rest))
  {
    Parts(p, Chunks(row), rest);
    ReadsN(row, rest);
  }

  lemma {:induction false} ArraysReadBack(rows: seq<seq<Bytes>>)
    requires ShortArrays(rows)
    ensures ReadArrays(Arrays(rows)) == Some(rows)
  {
    if rows != [] {
      PrefixReads(|rows[0]|);
      ReadsArray(Prefix(|rows[0]|), rows[0], Arrays(rows[1..]));
      ArraysReadBack(rows[1..]);
      assert rows == [rows[0]] + rows[1..];
    }
  }

  lemma {:induction false} ReadNShort(b: Bytes, n: nat)
    requires ReadN(b, n).Some?
    ensures Short(ReadN(b, n).value.0)
    decreases n
  {
    if n > 0 { ReadNShort(ReadChunk(b).value.1, n - 1); }
  }

  lemma {:induction false} ReadArraysShort(b: Bytes)
    requires ReadArrays(b).Some?
    ensures ShortArrays(ReadArrays(b).value)
    decreases |b|
  {
    if b != [] {
      var n := ReadI32(b[..WORD]);
      ReadNShort(b[WORD..], n);
      ReadArraysShort(ReadN(b[WORD..], n).value.1);
    }
  }

  /** The arrays come back exactly when every count and every length is below 2^31. */
  lemma ArraysRoundTripIff(rows: seq<seq<Bytes>>)
    ensures ReadArrays(Arrays(rows)) == Some(rows) <==> ShortArrays(rows)
  {
    if ShortArrays(rows) { ArraysReadBack(rows); }
    if ReadArrays(Arrays(rows)) == Some(rows) { ReadArraysShort(Arrays(rows)); }
  }

  // ----- sparse vectors -----

  /** `nnz` indices and as many values, of fixed sizes. */
  datatype Sparse = Sparse(nnz: nat, data: Bytes, index: Bytes)

  ghost predicate Fits(s: Sparse, dataSize: nat, indexSize: nat) {
    |s.data| == dataSize * s.nnz && |s.index| == indexSize * s.nnz
  }

  ghost predicate AllFit(rows: seq<Sparse>, dataSize: nat, indexSize: nat) {
    forall i :: 0 <= i < |rows| ==> Fits(rows[i], dataSize, indexSize)
  }

  function SparseBytes(s: Sparse): Bytes {
    Prefix(s.nnz) + s.index + s.data
  }

  function Sparses(rows: seq<Sparse>): Bytes {
    if rows == [] then [] else SparseBytes(rows[0]) + Sparses(rows[1..])
  }

  lemma {:induction false} SparsesAppend(rows: seq<Sparse>, row: Sparse)
    ensures Sparses(rows + [row]) == Sparses(rows) + SparseBytes(row)
  {
    if rows == [] {
      assert Sparses([row]) == SparseBytes(row) + Sparses([row][1..]);
      assert rows + [row] == [row];
    } else {
      assert (rows + [row])[1..] == rows[1..] + [row];
      SparsesAppend(rows[1..], row);
    }
  }

  lemma SparsesNext(rows: seq<Sparse>, k: nat)
    requires k < |rows|
    ensures Sparses(rows[..k + 1]) == Sparses(rows[..k]) + SparseBytes(rows[k])
  {
    assert rows[..k + 1] == rows[..k] + [rows[k]];
    SparsesAppend(rows[..k], rows[k]);
  }

  lemma {:induction false} SparsesMonotone(rows: seq<Sparse>, k: nat, n: nat)
    requires k <= n <= |rows|
    ensures |Sparses(rows[..k])| <= |Sparses(rows[..n])|
    decreases n - k
  {
    if k < n {
      SparsesNext(rows, k);
      SparsesMonotone(rows, k + 1, n);
    }
  }

  /** What one more row adds. */
  lemma SparseStep(rows: seq<Sparse>, k: nat)
    requires k < |rows|
    ensures Sparses(rows[..k + 1]) == Sparses(rows[..k]) + SparseBytes(rows[k])
    ensures |Sparses(rows[..k + 1])| == |Sparses(rows[..k])| + WORD + |rows[k].index| + |rows[k].data|
    ensures |Sparses(rows[..k + 1])| <= |Sparses(rows)|
  {
    SparsesNext(rows, k);
    SparsesMonotone(rows, k + 1, |rows|);
    assert rows[..|rows|] == rows;
  }

  function ReadSparse(b: Bytes, dataSize: nat, indexSize: nat): (r: Option<(Sparse, Bytes)>)
    ensures r.Some? ==> |r.value.1| < |b| && r.value.0.nnz < TWO_31
  {
    if |b| < WORD then None
    else
      var n := ReadI32(b[..WORD]);
      if n < 0 then None
      else
        var i, d := indexSize * n, dataSize * n;
        if WORD + i + d > |b| then None
        else Some((Sparse(n, b[WORD + i..WORD + i + d], b[WORD..WORD + i]), b[WORD + i + d..]))
  }

  function ReadSparses(b: Bytes, dataSize: nat, indexSize: nat): Option<seq<Sparse>>
    decreases |b|
  {
    if b == [] then Some([])
    else
      var s := ReadSparse(b, dataSize, indexSize);
      if s.None? then None
      else
        var rest := ReadSparses(s.value.1, dataSize, indexSize);
        if rest.None? then None else Some([s.value.0] + rest.value)
  }

  lemma FourParts(p: Bytes, q: Bytes, r: Bytes, rest: Bytes)
    ensures var b := p + q + r + rest;
            && b[..|p|] == p && b[|p|..|p| + |q|] == q
            && b[|p| + |q|..|p| + |q| + |r|] == r && b[|p| + |q| + |r|..] == rest
  {
  }

  lemma ReadsCounted(p: Bytes, s: Sparse, rest: Bytes, dataSize: nat, indexSize: nat)
    requires |p| == WORD && ReadI32(p) == s.nnz && Fits(s, dataSize, indexSize)
    ensures ReadSparse(p + s.index + s.data + rest, dataSize, indexSize) == Some((s, rest))
  {
    FourParts(p, s.index, s.data, rest);
  }

  lemma ReadsSparse(s: Sparse, rest: Bytes, dataSize: nat, indexSize: nat)
    requires Fits(s, dataSize, indexSize) && s.nnz < TWO_31
    ensures ReadSparse(SparseBytes(s) + rest, dataSize, indexSize) == Some((s, rest))
  {
    PrefixReads(s.nnz);
    SmallI32(s.nnz);
    ReadsCounted(Prefix(s.nnz), s, rest, dataSize, indexSize);
  }

  ghost predicate ShortSparses(rows: seq<Sparse>) {
    forall i :: 0 <= i < |rows| ==> rows[i].nnz < TWO_31
  }

  lemma {:induction false} SparsesReadBack(rows: seq<Sparse>, dataSize: nat, indexSize: nat)
    requires AllFit(rows, dataSize, indexSize) && ShortSparses(rows)
    ensures ReadSparses(Sparses(rows), dataSize, indexSize) == Some(rows)
  {
    if rows != [] {
      ReadsSparse(rows[0], Sparses(rows[1..]), dataSize, indexSize);
      SparsesReadBack(rows[1..], dataSize, indexSize);
      assert rows == [rows[0]] + rows[1..];
    }
  }

  lemma {:induction false} ReadSparsesShort(b: Bytes, dataSize: nat, indexSize: nat)
    requires ReadSparses(b, dataSize, indexSize).Some?
    ensures ShortSparses(ReadSparses(b, dataSize, indexSize).value)
    decreases |b|
  {
    if b != [] { ReadSparsesShort(ReadSparse(b, dataSize, indexSize).value.1, dataSize, indexSize); }
  }

  /** The vectors come back exactly when every count is below 2^31. */
  lemma SparsesRoundTripIff(rows: seq<Sparse>, dataSize: nat, indexSize: nat)
    requires AllFit(rows, dataSize, indexSize)
    ensures ReadSparses(Sparses(rows), dataSize, indexSize) == Some(rows) <==> ShortSparses(rows)
  {
    if ShortSparses(rows) { SparsesReadBack(rows, dataSize, indexSize); }
    if ReadSparses(Sparses(rows), dataSize, indexSize) == Some(rows) {
      ReadSparsesShort(Sparses(rows), dataSize, indexSize);
    }
  }

  // ----- filling the buffer -----

  /** memcpy into the buffer. */
  method Copy(dst: array<Byte>, at: nat, src: Bytes)
    requires at + |src| <= dst.Length
    modifies dst
    ensures dst[..] == old(dst[..at]) + src + old(dst[at + |src|..])
  {
    for i := 0 to |src|
      invariant forall k :: 0 <= k < i ==> dst[at + k] == src[k]
      invariant forall k :: 0 <= k < dst.Length && !(at <= k < at + i) ==> dst[k] == old(dst[k])
    {
      dst[at + i] := src[i];
    }
  }

  /** Two copies in a row extend what is written. */
  lemma Extends(before: Bytes, after: Bytes, at: nat, done: Bytes, src: Bytes)
    requires at == |done| && at + |src| <= |before| && before[..at] == done
    requires after == before[..at] + src + before[at + |src|..]
    ensures |after| == |before| && after[..at + |src|] == done + src
  {
  }

  /** Writes a length and its bytes. */
  method CopyChunk(dst: array<Byte>, at: nat, data: Bytes, ghost done: Bytes)
    requires at == |done| && at + WORD + |data| <= dst.Length && dst[..at] == done
    modifies dst
    ensures dst[..at + WORD + |data|] == done + Chunk(data)
  {
    ghost var d0 := dst[..];
    Copy(dst, at, Prefix(|data|));
    ghost var d1 := dst[..];
    Extends(d0, d1, at, done, Prefix(|data|));
    Copy(dst, at + WORD, data);
    Extends(d1, dst[..], at + WORD, done + Prefix(|data|), data);
    assert done + Prefix(|data|) + data == done + Chunk(data);
  }

  method SizeOfChunks(rows: seq<Bytes>) returns (size: nat)
    ensures size == |Chunks(rows)|
  {
    size := 0;
    for k := 0 to |rows|
      invariant size == |Chunks(rows[..k])|
    {
      ChunksNext(rows, k);
      size := size + WORD + |rows[k]|;
    }
    assert rows[..|rows|] == rows;
  }

  /** HandleVarcharType, while all lengths but the last are below 2^31.  A String cannot hold
      2^63 bytes. */
  method EncodeVarchars(rows: seq<Bytes>) returns (field: Bytes, offset: nat)
    requires |Chunks(rows)| < TWO_63
    requires rows != [] ==> Short(rows[..|rows| - 1])
    ensures field == Chunks(rows) && offset == VarcharCursor(rows)
  {
    var size := SizeOfChunks(rows);
    var dst := new Byte[size];
    offset := 0;
    assert rows[..|rows|] == rows;
    for k := 0 to |rows|
      invariant |Chunks(rows[..k])| <= dst.Length && dst[..|Chunks(rows[..k])|] == Chunks(rows[..k])
      invariant offset == VarcharCursor(rows[..k])
    {
      ChunkStep(rows, k);
      VarcharCursorIsExact(rows, k);
      CopyChunk(dst, offset, rows[k], Chunks(rows[..k]));
      VarcharCursorNext(rows, k);
      var length := ToI32(|rows[k]|);
      offset := SizeT(offset + WORD + length);
    }
    field := dst[..];
  }

  lemma VarcharCursorIsExact(rows: seq<Bytes>, k: nat)
    requires k < |rows| && Short(rows[..|rows| - 1]) && |Chunks(rows)| < TWO_63
    ensures VarcharCursor(rows[..k]) == |Chunks(rows[..k])|
  {
    ShortPrefix(rows, k);
    ChunksMonotone(rows, k, |rows|);
    assert rows[..|rows|] == rows;
    VarcharCursorEndsAtSizeIff(rows[..k]);
  }

  lemma ShortPrefix(rows: seq<Bytes>, k: nat)
    requires k < |rows| && Short(rows[..|rows| - 1])
    ensures Short(rows[..k])
  {
    forall i | 0 <= i < k ensures |rows[..k][i]| < TWO_31 { assert rows[..k][i] == rows[..|rows| - 1][i]; }
  }

  // ----- the i32 cursor of tensor columns -----

  /** The cursor after the rows, from `c` on. */
  function Cursor(c: int, rows: seq<Bytes>): int {
    if rows == [] then c else ToI32(Cursor(c, rows[..|rows| - 1]) + WORD + |rows[|rows| - 1]|)
  }

  lemma CursorNext(c: int, rows: seq<Bytes>, k: nat)
    requires k < |rows|
    ensures Cursor(c, rows[..k + 1]) == ToI32(Cursor(c, rows[..k]) + WORD + |rows[k]|)
  {
    assert rows[..k + 1][..k] == rows[..k];
  }

  lemma WrapTwice(a: int, b: int)
    ensures ToI32(ToI32(a) + b) == ToI32(a + b)
  {
    var k := (a + TWO_31) / TWO_32;
    assert ToI32(a) == a - TWO_32 * k;
  }

  lemma {:induction false} CursorWraps(c: nat, rows: seq<Bytes>)
    ensures Cursor(ToI32(c), rows) == ToI32(c + |Chunks(rows)|)
  {
    if rows != [] {
      var n := |rows| - 1;
      CursorWraps(c, rows[..n]);
      ChunksNext(rows, n);
      assert rows[..n + 1] == rows;
      WrapTwice(c + |Chunks(rows[..n])|, WORD + |rows[n]|);
    }
  }

  lemma ExactI32(n: nat)
    ensures ToI32(n) == n <==> n < TWO_31
  {
  }

  /** The cursor of a tensor column ends at the computed size exactly when that is below 2^31. */
  lemma CursorEndsAtSizeIff(rows: seq<Bytes>)
    ensures Cursor(0, rows) == |Chunks(rows)| <==> |Chunks(rows)| < TWO_31
  {
    CursorWraps(0, rows);
    ExactI32(|Chunks(rows)|);
  }

  /** HandleTensorType and HandleMultiVectorType, while the last chunk starts below 2^31. */
  method EncodeTensors(rows: seq<Bytes>) returns (field: Bytes, cursor: int)
    requires rows != [] ==> |Chunks(rows[..|rows| - 1])| < TWO_31
    ensures field == Chunks(rows) && cursor == Cursor(0, rows)
  {
    var size := SizeOfChunks(rows);
    var dst := new Byte[size];
    cursor := CopyChunks(dst, 0, rows, []);
    field := dst[..];
    assert [] + Chunks(rows) == Chunks(rows);
  }

  /** Writes chunks from offset `at` on, which the last one does not reach beyond 2^31. */
  method CopyChunks(dst: array<Byte>, at: nat, row: seq<Bytes>, ghost done: Bytes) returns (cursor: int)
    requires at == |done| < TWO_31 && at + |Chunks(row)| <= dst.Length && dst[..at] == done
    requires row != [] ==> at + |Chunks(row[..|row| - 1])| < TWO_31
    modifies dst
    ensures cursor == Cursor(at, row) && dst[..at + |Chunks(row)|] == done + Chunks(row)
  {
    cursor := at;
    assert row[..0] == [] && row[..|row|] == row && done + [] == done;
    ghost var here := done;
    for k := 0 to |row|
      invariant here == done + Chunks(row[..k]) && |here| <= dst.Length && dst[..|here|] == here
      invariant cursor == Cursor(at, row[..k])
    {
      BehindStep(done, row, k);
      CursorIsExact(at, row, k);
      CopyChunk(dst, cursor, row[k], here);
      here := here + Chunk(row[k]);
      CursorNext(at, row, k);
      cursor := ToI32(cursor + WORD + |row[k]|);
    }
  }

  lemma BehindStep(done: Bytes, row: seq<Bytes>, k: nat)
    requires k < |row|
    ensures done + Chunks(row[..k + 1]) == done + Chunks(row[..k]) + Chunk(row[k])
    ensures |Chunks(row[..k + 1])| == |Chunks(row[..k])| + WORD + |row[k]| <= |Chunks(row)|
  {
    ChunkStep(row, k);
    Associative(done, Chunks(row[..k]), Chunk(row[k]));
  }

  lemma CursorIsExact(at: nat, row: seq<Bytes>, k: nat)
    requires k < |row| && at < TWO_31 && at + |Chunks(row[..|row| - 1])| < TWO_31
    ensures Cursor(at, row[..k]) == at + |Chunks(row[..k])|
  {
    ChunksMonotone(row, k, |row| - 1);
    SmallI32(at);
    CursorWraps(at, row[..k]);
    SmallI32(at + |Chunks(row[..k])|);
  }

  // ----- the cursor of varchar columns -----

  /** The SizeT that an integer is converted to. */
  function SizeT(n: int): nat {
    n % TWO_64
  }

  /** The cursor after the rows of a varchar column: a SizeT, to which each length is added as
      an i32. */
  function VarcharCursor(rows: seq<Bytes>): nat {
    if rows == [] then 0 else SizeT(VarcharCursor(rows[..|rows| - 1]) + WORD + ToI32(|rows[|rows| - 1]|))
  }

  lemma VarcharCursorNext(rows: seq<Bytes>, k: nat)
    requires k < |rows|
    ensures VarcharCursor(rows[..k + 1]) == SizeT(VarcharCursor(rows[..k]) + WORD + ToI32(|rows[k]|))
  {
    assert rows[..k + 1][..k] == rows[..k];
  }

  /** What the lengths add up to as i32. */
  function Advance(rows: seq<Bytes>): int {
    if rows == [] then 0 else Advance(rows[..|rows| - 1]) + WORD + ToI32(|rows[|rows| - 1]|)
  }

  lemma SizeTAdds(a: int, b: int)
    ensures SizeT(SizeT(a) + b) == SizeT(a + b)
  {
    var k := a / TWO_64;
    assert a + b == SizeT(a) + b + TWO_64 * k;
    SizeTPeriod(SizeT(a) + b, k);
  }

  lemma SizeTPeriod(n: int, k: int)
    ensures SizeT(n + TWO_64 * k) == SizeT(n)
  {
  }

  lemma {:induction false} CursorIsAdvance(rows: seq<Bytes>)
    ensures VarcharCursor(rows) == SizeT(Advance(rows))
  {
    if rows != [] {
      var n := |rows| - 1;
      CursorIsAdvance(rows[..n]);
      SizeTAdds(Advance(rows[..n]), WORD + ToI32(|rows[n]|));
    }
  }

  /** The lengths as i32 add up to the size exactly when they are all below 2^31, and never to
      more, or to less than its negative. */
  lemma {:induction false} AdvanceIsSizeIff(rows: seq<Bytes>)
    ensures 0 <= Advance(rows) + |Chunks(rows)| && Advance(rows) <= |Chunks(rows)|
    ensures Advance(rows) == |Chunks(rows)| <==> Short(rows)
  {
    if rows != [] {
      var n := |rows| - 1;
      AdvanceIsSizeIff(rows[..n]);
      ChunksNext(rows, n);
      assert rows[..n + 1] == rows;
      ExactI32(|rows[n]|);
      I32Bounds(|rows[n]|);
      ShortSnoc(rows);
    }
  }

  /** The cursor of a varchar column ends at the computed size exactly when every length is
      below 2^31. */
  lemma VarcharCursorEndsAtSizeIff(rows: seq<Bytes>)
    requires |Chunks(rows)| < TWO_63
    ensures VarcharCursor(rows) == |Chunks(rows)| <==> Short(rows)
  {
    CursorIsAdvance(rows);
    AdvanceIsSizeIff(rows);
    SizeTExact(Advance(rows), |Chunks(rows)|);
  }

  lemma SizeTExact(a: int, n: nat)
    requires n < TWO_63 && 0 <= a + n && a <= n
    ensures SizeT(a) == n <==> a == n
  {
  }

  lemma I32Bounds(n: nat)
    ensures 0 <= ToI32(n) + n && ToI32(n) <= n
  {
  }

  lemma ShortSnoc(rows: seq<Bytes>)
    requires rows != []
    ensures Short(rows) <==> Short(rows[..|rows| - 1]) && |rows[|rows| - 1]| < TWO_31
  {
    var n := |rows| - 1;
    if Short(rows) { ShortPrefix(rows, n); }
    if Short(rows[..n]) && |rows[n]| < TWO_31 {
      forall i | 0 <= i < |rows| ensures |rows[i]| < TWO_31 {
        if i < n { assert rows[i] == rows[..n][i]; }
      }
    }
  }

  // ----- where things are in a column -----

  /** The bytes of the rows before row `k`, each with its length in four bytes. */
  function ChunkStart(rows: seq<Bytes>, k: nat): nat
    requires k <= |rows|
    decreases k
  {
    if k == 0 then 0 else ChunkStart(rows, k - 1) + 4 + |rows[k - 1]|
  }

  lemma {:induction false} ChunkStarts(rows: seq<Bytes>, k: nat)
    requires k <= |rows|
    ensures |Chunks(rows[..k])| == ChunkStart(rows, k)
    decreases k
  {
    if k > 0 {
      ChunkStarts(rows, k - 1);
      ChunksNext(rows, k - 1);
    }
  }

  lemma {:induction false} ChunksSplit(rows: seq<Bytes>, k: nat)
    requires k <= |rows|
    ensures Chunks(rows) == Chunks(rows[..k]) + Chunks(rows[k..])
    decreases k
  {
    if k == 0 {
      assert rows[..0] == [] && rows[0..] == rows;
    } else {
      ChunksSplit(rows, k - 1);
      ChunksNext(rows, k - 1);
      assert rows[k - 1..][1..] == rows[k..];
      Associative(Chunks(rows[..k - 1]), Chunk(rows[k - 1]), Chunks(rows[k..]));
    }
  }

  /** The bytes `x` stand at place `at`. */
  ghost predicate Stands(all: Bytes, at: nat, x: Bytes) {
    at + |x| <= |all| && all[at..at + |x|] == x
  }

  lemma StandsAt(a: Bytes, b: Bytes, c: Bytes)
    ensures Stands(a + (b + c), |a|, b)
  {
  }

  ghost predicate Consists(all: Bytes, a: Bytes, b: Bytes, c: Bytes, d: Bytes, e: Bytes) {
    all == a + (b + (c + (d + e)))
  }

  /** Three parts of a byte string behind its first `i` bytes. */
  lemma PartsAt(all: Bytes, a: Bytes, b: Bytes, c: Bytes, d: Bytes, e: Bytes, i: nat, j: nat, k: nat)
    requires Consists(all, a, b, c, d, e) && |a| == i && i + |b| == j && j + |c| == k
    ensures Stands(all, i, b) && Stands(all, j, c) && Stands(all, k, d)
  {
    StandsAt(a, b, c + (d + e));
    Associative(a, b, c + (d + e));
    StandsAt(a + b, c, d + e);
    Associative(a + b, c, d + e);
    StandsAt(a + b + c, d, e);
  }

  lemma ChunksAt(rows: seq<Bytes>, k: nat) returns (before: Bytes, rest: Bytes)
    requires k < |rows|
    ensures |before| == ChunkStart(rows, k)
    ensures Consists(Chunks(rows), before, Prefix(|rows[k]|), rows[k], [], rest)
  {
    ChunkStarts(rows, k);
    ChunksSplit(rows, k);
    before, rest := Chunks(rows[..k]), Chunks(rows[k + 1..]);
    assert rows[k..][0] == rows[k] && rows[k..][1..] == rows[k + 1..] && [] + rest == rest;
    Associative(Prefix(|rows[k]|), rows[k], rest);
  }

  /** The layout of a varchar or tensor column: the rows in order, each after its length. */
  lemma ChunkLayout(rows: seq<Bytes>, k: nat)
    requires k < |rows|
    ensures var at, n := ChunkStart(rows, k), |rows[k]|;
            Stands(Chunks(rows), at, Prefix(n)) && Stands(Chunks(rows), at + 4, rows[k])
  {
    var before, rest := ChunksAt(rows, k);
    var at := ChunkStart(rows, k);
    PartsAt(Chunks(rows), before, Prefix(|rows[k]|), rows[k], [], rest, at, at + 4, at + 4 + |rows[k]|);
  }

  /** Nothing follows the last row. */
  lemma ChunksEnd(rows: seq<Bytes>)
    ensures |Chunks(rows)| == ChunkStart(rows, |rows|)
  {
    ChunkStarts(rows, |rows|);
    assert rows[..|rows|] == rows;
  }

  /** The bytes of the rows before row `k` of a tensor array column. */
  function ArrayStart(rows: seq<seq<Bytes>>, k: nat): nat
    requires k <= |rows|
    decreases k
  {
    if k == 0 then 0 else ArrayStart(rows, k - 1) + 4 + ChunkStart(rows[k - 1], |rows[k - 1]|)
  }

  lemma {:induction false} ArrayStartsAt(rows: seq<seq<Bytes>>, k: nat)
    requires k <= |rows|
    ensures |Arrays(rows[..k])| == ArrayStart(rows, k)
    decreases k
  {
    if k > 0 {
      ArrayStartsAt(rows, k - 1);
      ArraysLength(rows, k - 1);
      ChunkStarts(rows[k - 1], |rows[k - 1]|);
      assert rows[k - 1][..|rows[k - 1]|] == rows[k - 1];
    }
  }

  lemma {:induction false} ArraysSplit(rows: seq<seq<Bytes>>, k: nat)
    requires k <= |rows|
    ensures Arrays(rows) == Arrays(rows[..k]) + Arrays(rows[k..])
    decreases k
  {
    if k == 0 {
      assert rows[..0] == [] && rows[0..] == rows;
    } else {
      ArraysSplit(rows, k - 1);
      ArraysNext(rows, k - 1);
      assert rows[k - 1..][1..] == rows[k..];
      Associative(Arrays(rows[..k - 1]), Prefix(|rows[k - 1]|) + Chunks(rows[k - 1]), Arrays(rows[k..]));
    }
  }

  lemma ArraysAt(rows: seq<seq<Bytes>>, k: nat) returns (before: Bytes, rest: Bytes)
    requires k < |rows|
    ensures |before| == ArrayStart(rows, k)
    ensures Consists(Arrays(rows), before, Prefix(|rows[k]|), Chunks(rows[k]), [], rest)
  {
    ArrayStartsAt(rows, k);
    ArraysSplit(rows, k);
    before, rest := Arrays(rows[..k]), Arrays(rows[k + 1..]);
    assert rows[k..][0] == rows[k] && rows[k..][1..] == rows[k + 1..] && [] + rest == rest;
    Associative(Prefix(|rows[k]|), Chunks(rows[k]), rest);
  }

  /** The layout of a tensor array column: each row is the number of its tensors and then the
      tensors, laid out as the rows of a tensor column are. */
  lemma ArrayLayout(rows: seq<seq<Bytes>>, k: nat)
    requires k < |rows|
    ensures var at := ArrayStart(rows, k);
            Stands(Arrays(rows), at, Prefix(|rows[k]|)) && Stands(Arrays(rows), at + 4, Chunks(rows[k]))
  {
    var before, rest := ArraysAt(rows, k);
    var at := ArrayStart(rows, k);
    PartsAt(Arrays(rows), before, Prefix(|rows[k]|), Chunks(rows[k]), [], rest, at, at + 4, at + 4 + |Chunks(rows[k])|);
  }

  lemma ArraysEnd(rows: seq<seq<Bytes>>)
    ensures |Arrays(rows)| == ArrayStart(rows, |rows|)
  {
    ArrayStartsAt(rows, |rows|);
    assert rows[..|rows|] == rows;
  }

  /** The bytes of the rows before row `k` of a sparse column. */
  function SparseStart(rows: seq<Sparse>, k: nat): nat
    requires k <= |rows|
    decreases k
  {
    if k == 0 then 0 else SparseStart(rows, k - 1) + 4 + |rows[k - 1].index| + |rows[k - 1].data|
  }

  lemma {:induction false} SparseStartsAt(rows: seq<Sparse>, k: nat)
    requires k <= |rows|
    ensures |Sparses(rows[..k])| == SparseStart(rows, k)
    decreases k
  {
    if k > 0 {
      SparseStartsAt(rows, k - 1);
      SparseStep(rows, k - 1);
    }
  }

  lemma {:induction false} SparsesSplit(rows: seq<Sparse>, k: nat)
    requires k <= |rows|
    ensures Sparses(rows) == Sparses(rows[..k]) + Sparses(rows[k..])
    decreases k
  {
    if k == 0 {
      assert rows[..0] == [] && rows[0..] == rows;
    } else {
      SparsesSplit(rows, k - 1);
      SparsesNext(rows, k - 1);
      assert rows[k - 1..][1..] == rows[k..];
      Associative(Sparses(rows[..k - 1]), SparseBytes(rows[k - 1]), Sparses(rows[k..]));
    }
  }

  lemma SparsesAt(rows: seq<Sparse>, k: nat) returns (before: Bytes, rest: Bytes)
    requires k < |rows|
    ensures |before| == SparseStart(rows, k)
    ensures Consists(Sparses(rows), before, Prefix(rows[k].nnz), rows[k].index, rows[k].data, rest)
  {
    SparseStartsAt(rows, k);
    SparsesSplit(rows, k);
    before, rest := Sparses(rows[..k]), Sparses(rows[k + 1..]);
    var p, x, y := Prefix(rows[k].nnz), rows[k].index, rows[k].data;
    assert rows[k..][0] == rows[k] && rows[k..][1..] == rows[k + 1..];
    Associative(p + x, y, rest);
    Associative(p, x, y + rest);
  }

  /** The number of entries at place `at`, then the indices, then the values. */
  ghost predicate SparseAt(all: Bytes, at: nat, s: Sparse) {
    Stands(all, at, Prefix(s.nnz)) && Stands(all, at + 4, s.index) && Stands(all, at + 4 + |s.index|, s.data)
  }

  lemma SparseStands(all: Bytes, at: nat, s: Sparse, before: Bytes, rest: Bytes)
    requires Consists(all, before, Prefix(s.nnz), s.index, s.data, rest) && |before| == at
    ensures SparseAt(all, at, s)
  {
    PartsAt(all, before, Prefix(s.nnz), s.index, s.data, rest, at, at + 4, at + 4 + |s.index|);
  }

  /** The layout of a sparse column: the rows in order, each as said. */
  lemma SparseLayout(rows: seq<Sparse>, k: nat)
    requires k < |rows|
    ensures SparseAt(Sparses(rows), SparseStart(rows, k), rows[k])
  {
    var before, rest := SparsesAt(rows, k);
    SparseStands(Sparses(rows), SparseStart(rows, k), rows[k], before, rest);
  }

  lemma SparsesEnd(rows: seq<Sparse>)
    ensures |Sparses(rows)| == SparseStart(rows, |rows|)
  {
    SparseStartsAt(rows, |rows|);
    assert rows[..|rows|] == rows;
  }

  // ----- tensor arrays and sparse vectors -----

  method SizeOfArrays(rows: seq<seq<Bytes>>) returns (size: nat)
    ensures size == |Arrays(rows)|
  {
    size := 0;
    for k := 0 to |rows|
      invariant size == |Arrays(rows[..k])|
    {
      ArraysNext(rows, k);
      var n := SizeOfChunks(rows[k]);
      size := size + WORD + n;
    }
    assert rows[..|rows|] == rows;
  }

  /** The cursor after the rows of a tensor array column. */
  function ArrayCursor(rows: seq<seq<Bytes>>): int {
    if rows == [] then 0 else Cursor(ToI32(ArrayCursor(rows[..|rows| - 1]) + WORD), rows[|rows| - 1])
  }

  lemma ArrayCursorNext(rows: seq<seq<Bytes>>, k: nat)
    requires k < |rows|
    ensures ArrayCursor(rows[..k + 1]) == Cursor(ToI32(ArrayCursor(rows[..k]) + WORD), rows[k])
  {
    assert rows[..k + 1][..k] == rows[..k];
  }

  lemma {:induction false} ArrayCursorWraps(rows: seq<seq<Bytes>>, k: nat)
    requires k <= |rows|
    ensures ArrayCursor(rows[..k]) == ToI32(|Arrays(rows[..k])|)
  {
    if k > 0 {
      ArrayCursorWraps(rows, k - 1);
      ArrayCursorNext(rows, k - 1);
      ArraysLength(rows, k - 1);
      ArrayWrapStep(ArrayCursor(rows[..k - 1]), |Arrays(rows[..k - 1])|, |Arrays(rows[..k])|, rows[k - 1]);
    }
  }

  lemma ArraysLength(rows: seq<seq<Bytes>>, k: nat)
    requires k < |rows|
    ensures |Arrays(rows[..k + 1])| == |Arrays(rows[..k])| + WORD + |Chunks(rows[k])|
  {
    ArraysNext(rows, k);
  }

  lemma ArrayWrapStep(cursor: int, a: nat, b: nat, row: seq<Bytes>)
    requires cursor == ToI32(a) && b == a + WORD + |Chunks(row)|
    ensures Cursor(ToI32(cursor + WORD), row) == ToI32(b)
  {
    WrapTwice(a, WORD);
    CursorWraps(a + WORD, row);
  }

  /** The cursor of a tensor array column ends at the computed size exactly when that is below
      2^31. */
  lemma ArrayCursorEndsAtSizeIff(rows: seq<seq<Bytes>>)
    ensures ArrayCursor(rows) == |Arrays(rows)| <==> |Arrays(rows)| < TWO_31
  {
    ArrayCursorWraps(rows, |rows|);
    assert rows[..|rows|] == rows;
    ExactI32(|Arrays(rows)|);
  }

  /** Where the last write begins: the last tensor of the last row, or the count of that row. */
  function LastStart(rows: seq<seq<Bytes>>): nat
    requires rows != []
  {
    var n := |rows| - 1;
    if rows[n] == [] then |Arrays(rows[..n])|
    else |Arrays(rows[..n])| + WORD + |Chunks(rows[n][..|rows[n]| - 1])|
  }

  /** What one more row adds. */
  lemma ArrayStep(rows: seq<seq<Bytes>>, k: nat)
    requires k < |rows|
    ensures Arrays(rows[..k + 1]) == Arrays(rows[..k]) + (Prefix(|rows[k]|) + Chunks(rows[k]))
    ensures |Arrays(rows[..k + 1])| == |Arrays(rows[..k])| + WORD + |Chunks(rows[k])| <= |Arrays(rows)|
  {
    ArraysNext(rows, k);
    ArraysLength(rows, k);
    ArraysMonotone(rows, k + 1, |rows|);
    assert rows[..|rows|] == rows;
  }

  lemma LastChunkStarts(row: seq<Bytes>)
    requires row != []
    ensures |Chunks(row[..|row| - 1])| <= |Chunks(row)|
  {
    ChunksMonotone(row, |row| - 1, |row|);
    assert row[..|row|] == row;
  }

  /** Every write of row `k` begins no later than the last one of the column. */
  lemma RowStartsBelow(rows: seq<seq<Bytes>>, k: nat)
    requires k < |rows|
    ensures |Arrays(rows[..k])| <= LastStart(rows)
    ensures rows[k] != [] ==> |Arrays(rows[..k])| + WORD + |Chunks(rows[k][..|rows[k]| - 1])| <= LastStart(rows)
  {
    if k < |rows| - 1 {
      RowEndsBelow(rows, k);
      if rows[k] != [] { LastChunkStarts(rows[k]); }
    }
  }

  lemma RowEndsBelow(rows: seq<seq<Bytes>>, k: nat)
    requires k < |rows| - 1
    ensures |Arrays(rows[..k])| + WORD + |Chunks(rows[k])| <= LastStart(rows)
  {
    ArraysLength(rows, k);
    ArraysMonotone(rows, k + 1, |rows| - 1);
    LastStartsBehind(rows);
  }

  lemma LastStartsBehind(rows: seq<seq<Bytes>>)
    requires rows != []
    ensures |Arrays(rows[..|rows| - 1])| <= LastStart(rows)
  {
  }

  /** Writes one row of a tensor array: the number of tensors, then the tensors. */
  method CopyArray(dst: array<Byte>, at: nat, row: seq<Bytes>, ghost done: Bytes) returns (cursor: int)
    requires at == |done| < TWO_31 && at + WORD + |Chunks(row)| <= dst.Length && dst[..at] == done
    requires row != [] ==> at + WORD + |Chunks(row[..|row| - 1])| < TWO_31
    modifies dst
    ensures cursor == Cursor(ToI32(at + WORD), row)
    ensures var now := done + (Prefix(|row|) + Chunks(row)); |now| <= dst.Length && dst[..|now|] == now
  {
    ghost var d0 := dst[..];
    var p := Prefix(|row|);
    Copy(dst, at, p);
    Extends(d0, dst[..], at, done, p);
    Associative(done, p, Chunks(row));
    cursor := ToI32(at + WORD);
    if row == [] {
      assert p + Chunks(row) == p;
    } else {
      SmallI32(at + WORD);
      cursor := CopyChunks(dst, cursor, row, done + p);
    }
  }

  /** The first `k` rows have been written. */
  ghost predicate Written(b: Bytes, rows: seq<seq<Bytes>>, k: nat, cursor: int)
    requires k <= |rows|
  {
    var a := Arrays(rows[..k]);
    |a| <= |b| && b[..|a|] == a && cursor == ArrayCursor(rows[..k])
  }

  method CopyNextArray(dst: array<Byte>, rows: seq<seq<Bytes>>, k: nat, at: int) returns (cursor: int)
    requires k < |rows| && LastStart(rows) < TWO_31 && dst.Length == |Arrays(rows)| && Written(dst[..], rows, k, at)
    modifies dst
    ensures Written(dst[..], rows, k + 1, cursor)
  {
    ArrayStarts(rows, k);
    cursor := CopyArray(dst, at, rows[k], Arrays(rows[..k]));
    NextWritten(dst[..], rows, k, at, cursor);
  }

  /** HandleTensorArrayType, while the last write begins below 2^31. */
  method EncodeTensorArrays(rows: seq<seq<Bytes>>) returns (field: Bytes, cursor: int)
    requires rows != [] ==> LastStart(rows) < TWO_31
    ensures field == Arrays(rows) && cursor == ArrayCursor(rows)
  {
    var size := SizeOfArrays(rows);
    var dst := new Byte[size];
    cursor := 0;
    for k := 0 to |rows|
      invariant Written(dst[..], rows, k, cursor)
    {
      cursor := CopyNextArray(dst, rows, k, cursor);
    }
    assert rows[..|rows|] == rows;
    field := dst[..];
  }

  /** Where row `k` starts. */
  lemma ArrayStarts(rows: seq<seq<Bytes>>, k: nat)
    requires k < |rows| && LastStart(rows) < TWO_31
    ensures var at := |Arrays(rows[..k])|;
            && ArrayCursor(rows[..k]) == at < TWO_31 && at + WORD + |Chunks(rows[k])| <= |Arrays(rows)|
            && (rows[k] != [] ==> at + WORD + |Chunks(rows[k][..|rows[k]| - 1])| < TWO_31)
  {
    RowStartsBelow(rows, k);
    ArrayStep(rows, k);
    ArrayCursorWraps(rows, k);
    SmallI32(|Arrays(rows[..k])|);
  }

  lemma NextWritten(b: Bytes, rows: seq<seq<Bytes>>, k: nat, at: int, cursor: int)
    requires k < |rows| && at == ArrayCursor(rows[..k]) && cursor == Cursor(ToI32(at + WORD), rows[k])
    requires var now := Arrays(rows[..k]) + (Prefix(|rows[k]|) + Chunks(rows[k])); |now| <= |b| && b[..|now|] == now
    ensures Written(b, rows, k + 1, cursor)
  {
    ArraysNext(rows, k);
    ArrayCursorNext(rows, k);
  }

  /** Writes three parts one after the other. */
  method CopyParts(dst: array<Byte>, at: nat, p: Bytes, q: Bytes, r: Bytes, ghost done: Bytes)
    requires at == |done| && at + |p| + |q| + |r| <= dst.Length && dst[..at] == done
    modifies dst
    ensures dst[..at + |p| + |q| + |r|] == done + (p + q + r)
  {
    ghost var d0 := dst[..];
    Copy(dst, at, p);
    ghost var d1 := dst[..];
    Extends(d0, d1, at, done, p);
    Copy(dst, at + |p|, q);
    ghost var d2 := dst[..];
    Extends(d1, d2, at + |p|, done + p, q);
    Copy(dst, at + |p| + |q|, r);
    Extends(d2, dst[..], at + |p| + |q|, done + p + q, r);
    Associative(done + p, q, r);
    Associative(done, p, q + r);
    Associative(p, q, r);
  }

  method SizeOfSparses(rows: seq<Sparse>) returns (size: nat)
    ensures size == |Sparses(rows)|
  {
    size := 0;
    for k := 0 to |rows|
      invariant size == |Sparses(rows[..k])|
    {
      SparseStep(rows, k);
      size := size + WORD + |rows[k].data| + |rows[k].index|;
    }
    assert rows[..|rows|] == rows;
  }

  /** HandleSparseType. */
  method EncodeSparses(rows: seq<Sparse>) returns (field: Bytes)
    ensures field == Sparses(rows)
  {
    var size := SizeOfSparses(rows);
    var dst := new Byte[size];
    var offset := 0;
    assert rows[..|rows|] == rows;
    for k := 0 to |rows|
      invariant offset == |Sparses(rows[..k])| <= dst.Length && dst[..offset] == Sparses(rows[..k])
    {
      SparseStep(rows, k);
      CopyParts(dst, offset, Prefix(rows[k].nnz), rows[k].index, rows[k].data, Sparses(rows[..k]));
      offset := offset + WORD + |rows[k].index| + |rows[k].data|;
    }
    field := dst[..];
  }

  // ----- narrowing in place -----

  /** Where item `k` of `w` bytes starts: k * w. */
  function At(k: nat, w: nat): nat {
    if k == 0 then 0 else At(k - 1, w) + w
  }

  lemma {:induction false} AtIsProduct(k: nat, w: nat)
    ensures At(k, w) == k * w
  {
    if k > 0 {
      AtIsProduct(k - 1, w);
      assert k * w == (k - 1) * w + w;
    }
  }

  lemma {:induction false} AtBefore(k: nat, n: nat, w: nat)
    requires k < n
    ensures At(k, w) + w == At(k + 1, w) <= At(n, w)
    decreases n
  {
    if k + 1 < n { AtBefore(k, n - 1, w); }
  }

  /** The first `n` items converted one by one into a separate array. */
  ghost function Narrowed(b: Bytes, n: nat, w: nat, convert: Bytes -> Bytes): Bytes
    requires At(n, w) <= |b|
  {
    if n == 0 then []
    else Narrowed(b, n - 1, w, convert) + convert(b[At(n - 1, w)..At(n, w)])
  }

  ghost predicate Converts(convert: Bytes -> Bytes, w: nat, v: nat) {
    forall x :: |x| == w ==> |convert(x)| == v
  }

  /** Memory after one item: read `w` bytes at `rd`, write `v` bytes at `wr`. */
  ghost function OneNarrowed(now: Bytes, rd: nat, wr: nat, w: nat, v: nat, convert: Bytes -> Bytes): (r: Bytes)
    requires wr <= rd && rd + w <= |now| && v <= w && Converts(convert, w, v)
    ensures |r| == |now|
  {
    now[..wr] + convert(now[rd..rd + w]) + now[wr + v..]
  }

  method NarrowOne(a: array<Byte>, rd: nat, wr: nat, w: nat, v: nat, convert: Bytes -> Bytes)
    requires wr <= rd && rd + w <= a.Length && v <= w && Converts(convert, w, v)
    modifies a
    ensures a[..] == OneNarrowed(old(a[..]), rd, wr, w, v, convert)
  {
    ghost var was := a[..];
    var x := a[rd..rd + w];
    assert x == was[rd..rd + w];
    var y := convert(x);
    Copy(a, wr, y);
  }

  lemma {:induction false} AtNarrower(k: nat, v: nat, w: nat)
    requires v <= w
    ensures At(k, v) <= At(k, w)
  {
    if k > 0 { AtNarrower(k - 1, v, w); }
  }

  /** Memory after `n` items, each read and written through the same memory. */
  ghost function InPlace(b: Bytes, n: nat, w: nat, v: nat, convert: Bytes -> Bytes): (r: Bytes)
    requires At(n, w) <= |b| && v <= w && Converts(convert, w, v)
    ensures |r| == |b|
  {
    if n == 0 then b
    else
      AtNarrower(n - 1, v, w);
      OneNarrowed(InPlace(b, n - 1, w, v, convert), At(n - 1, w), At(n - 1, v), w, v, convert)
  }

  /** Narrows `n` items of `w` bytes to `v` bytes through two views of the same memory. */
  method Narrow(a: array<Byte>, n: nat, w: nat, v: nat, convert: Bytes -> Bytes)
    requires At(n, w) <= a.Length && v <= w && Converts(convert, w, v)
    modifies a
    ensures a[..] == InPlace(old(a[..]), n, w, v, convert)
  {
    var rd: nat, wr: nat := 0, 0;
    for i := 0 to n
      invariant wr == At(i, v) && rd == At(i, w) <= At(n, w)
      invariant a[..] == InPlace(old(a[..]), i, w, v, convert)
    {
      AtBefore(i, n, w);
      AtNarrower(i, v, w);
      NarrowOne(a, rd, wr, w, v, convert);
      rd, wr := rd + w, wr + v;
    }
  }

  lemma Tails(was: Bytes, now: Bytes, rd: nat, w: nat)
    requires rd + w <= |was| == |now| && now[rd..] == was[rd..]
    ensures now[rd..rd + w] == was[rd..rd + w] && now[rd + w..] == was[rd + w..]
  {
    assert now[rd..rd + w] == now[rd..][..w] && was[rd..rd + w] == was[rd..][..w];
    assert now[rd + w..] == now[rd..][w..] && was[rd + w..] == was[rd..][w..];
  }

  lemma OneStep(now: Bytes, rd: nat, wr: nat, w: nat, v: nat, convert: Bytes -> Bytes)
    requires wr <= rd && rd + w <= |now| && v <= w && Converts(convert, w, v)
    ensures var next := OneNarrowed(now, rd, wr, w, v, convert);
            next[..wr + v] == now[..wr] + convert(now[rd..rd + w]) && next[rd + w..] == now[rd + w..]
  {
  }

  /** The memory holds `done` in its first `wr` bytes, and from `rd` on what it held at first. */
  ghost predicate Separate(was: Bytes, now: Bytes, done: Bytes, rd: nat, wr: nat) {
    wr <= rd <= |was| && |was| == |now| && now[..wr] == done && now[rd..] == was[rd..]
  }

  lemma OneSeparate(was: Bytes, now: Bytes, done: Bytes, rd: nat, wr: nat, w: nat, v: nat, convert: Bytes -> Bytes)
    requires Separate(was, now, done, rd, wr) && rd + w <= |was| && v <= w && Converts(convert, w, v)
    ensures var next := OneNarrowed(now, rd, wr, w, v, convert);
            Separate(was, next, done + convert(was[rd..rd + w]), rd + w, wr + v)
  {
    Tails(was, now, rd, w);
    OneStep(now, rd, wr, w, v, convert);
  }

  lemma {:induction false} StaysSeparate(b: Bytes, n: nat, w: nat, v: nat, convert: Bytes -> Bytes)
    requires At(n, w) <= |b| && v <= w && Converts(convert, w, v)
    ensures Separate(b, InPlace(b, n, w, v, convert), Narrowed(b, n, w, convert), At(n, w), At(n, v))
    decreases n
  {
    if n > 0 {
      var now, done := InPlace(b, n - 1, w, v, convert), Narrowed(b, n - 1, w, convert);
      StaysSeparate(b, n - 1, w, v, convert);
      OneSeparate(b, now, done, At(n - 1, w), At(n - 1, v), w, v, convert);
    }
  }

  /** With v <= w the result is that of converting into a separate array, and the memory
      behind the items stays. */
  lemma InPlaceIsSeparate(b: Bytes, n: nat, w: nat, v: nat, convert: Bytes -> Bytes)
    requires At(n, w) <= |b| && v <= w && Converts(convert, w, v)
    ensures n * v == At(n, v) <= At(n, w) == n * w
    ensures InPlace(b, n, w, v, convert)[..n * v] == Narrowed(b, n, w, convert)
    ensures InPlace(b, n, w, v, convert)[n * w..] == b[n * w..]
  {
    AtIsProduct(n, v);
    AtIsProduct(n, w);
    StaysSeparate(b, n, w, v, convert);
  }
}
