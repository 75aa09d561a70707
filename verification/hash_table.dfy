/** Group-by keys and tables: src/executor/hash_table.cpp. */
module HashTables {
  import opened Basics

  /** A column type: of fixed size, varchar, or one Init refuses. */
  datatype DataType = Fixed(size: nat) | Varchar | Unsupported(size: nat)

  /** A cell is null or some bytes. */
  type Cell = Option<Bytes>
  type Row = seq<Cell>

  /** Types of fixed size have at least one byte. */
  ghost predicate Types(types: seq<DataType>) {
    forall c :: 0 <= c < |types| && types[c].Fixed? ==> types[c].size > 0
  }

  /** The cells have the sizes of their types. */
  ghost predicate Typed(types: seq<DataType>, row: Row) {
    && |row| == |types|
    && forall c :: 0 <= c < |row| && row[c].Some? && !types[c].Varchar? ==> |row[c].value| == types[c].size
  }

  ghost predicate NonNull(row: Row) {
    forall c :: 0 <= c < |row| ==> row[c].Some?
  }

  // ----- keys -----

  /** What a cell adds to the key; a null adds nothing, since appending the literal "\0\0"
      appends a C string of length zero. */
  function CellKey(cell: Cell): Bytes {
    if cell.None? then [] else cell.value + [0]
  }

  function KeyOf(row: Row): Bytes {
    if row == [] then [] else CellKey(row[0]) + KeyOf(row[1..])
  }

  lemma {:induction false} KeyAppend(row: Row, cell: Cell)
    ensures KeyOf(row + [cell]) == KeyOf(row) + CellKey(cell)
  {
    if row == [] {
      assert KeyOf([cell]) == CellKey(cell) + KeyOf([cell][1..]);
      assert row + [cell] == [cell];
    } else {
      assert (row + [cell])[1..] == row[1..] + [cell];
      KeyAppend(row[1..], cell);
    }
  }

  /** The bytes before the part of column `c`: a column that is not null takes its bytes and
      one more. */
  function Offset(row: Row, c: nat): nat
    requires c <= |row|
    decreases c
  {
    if c == 0 then 0 else Offset(row, c - 1) + if row[c - 1].Some? then |row[c - 1].value| + 1 else 0
  }

  lemma {:induction false} KeyPrefix(row: Row, c: nat)
    requires c <= |row|
    ensures |KeyOf(row[..c])| == Offset(row, c) && KeyOf(row[..c]) <= KeyOf(row)
    decreases |row| - c, 1
  {
    PrefixLength(row, c);
    if c == |row| {
      assert row[..c] == row;
    } else {
      KeyPrefix(row, c + 1);
      assert row[..c + 1] == row[..c] + [row[c]];
      KeyAppend(row[..c], row[c]);
    }
  }

  lemma {:induction false} PrefixLength(row: Row, c: nat)
    requires c <= |row|
    ensures |KeyOf(row[..c])| == Offset(row, c)
    decreases c
  {
    if c > 0 {
      PrefixLength(row, c - 1);
      assert row[..c] == row[..c - 1] + [row[c - 1]];
      KeyAppend(row[..c - 1], row[c - 1]);
    }
  }

  /** The layout of a key: the columns that are not null one after the other, each followed by
      a zero byte, and nothing else. */
  lemma KeyLayout(row: Row, c: nat)
    requires c < |row|
    ensures |KeyOf(row)| == Offset(row, |row|)
    ensures row[c].Some? ==>
              var k, v := Offset(row, c), row[c].value;
              k + |v| < |KeyOf(row)| && KeyOf(row)[k..k + |v|] == v && KeyOf(row)[k + |v|] == 0
  {
    KeyPrefix(row, |row|);
    assert row[..|row|] == row;
    KeyPrefix(row, c);
    KeyPrefix(row, c + 1);
    assert row[..c + 1] == row[..c] + [row[c]];
    KeyAppend(row[..c], row[c]);
    var a, b := KeyOf(row[..c]), KeyOf(row);
    assert a + CellKey(row[c]) <= b;
  }

  predicate ZeroFree(b: Bytes) {
    forall i :: 0 <= i < |b| ==> b[i] != 0
  }

  /** Varchar values without zero bytes. */
  ghost predicate Text(types: seq<DataType>, row: Row)
    requires |row| == |types|
  {
    forall c :: 0 <= c < |row| && row[c].Some? && types[c].Varchar? ==> ZeroFree(row[c].value)
  }

  lemma SplitAt(x: Bytes, y: Bytes, s: Bytes, t: Bytes)
    requires x + [0] + s == y + [0] + t && |x| == |y|
    ensures x == y && s == t
  {
    var l, r := x + [0] + s, y + [0] + t;
    assert x == l[..|x|] && y == r[..|y|];
    assert s == l[|x| + 1..] && t == r[|y| + 1..];
  }

  lemma ZeroAt(x: Bytes, s: Bytes)
    requires ZeroFree(x)
    ensures (x + [0] + s)[|x|] == 0 && forall i :: 0 <= i < |x| ==> (x + [0] + s)[i] != 0
  {
  }

  lemma SplitText(x: Bytes, y: Bytes, s: Bytes, t: Bytes)
    requires x + [0] + s == y + [0] + t && ZeroFree(x) && ZeroFree(y)
    ensures x == y && s == t
  {
    ZeroAt(x, s);
    ZeroAt(y, t);
    assert |x| == |y|;
    SplitAt(x, y, s, t);
  }

  /** Rows without nulls and with zero-free varchars have equal keys only if they are equal. */
  lemma {:induction false} TextKeysInjective(types: seq<DataType>, a: Row, b: Row)
    requires Typed(types, a) && Typed(types, b) && NonNull(a) && NonNull(b) && Text(types, a) && Text(types, b)
    requires KeyOf(a) == KeyOf(b)
    ensures a == b
    decreases |a|
  {
    if a != [] {
      var x, y := a[0].value, b[0].value;
      assert x + [0] + KeyOf(a[1..]) == y + [0] + KeyOf(b[1..]);
      if types[0].Varchar? {
        SplitText(x, y, KeyOf(a[1..]), KeyOf(b[1..]));
      } else {
        SplitAt(x, y, KeyOf(a[1..]), KeyOf(b[1..]));
      }
      TextKeysInjective(types[1..], a[1..], b[1..]);
      assert a == [a[0]] + a[1..] && b == [b[0]] + b[1..];
    }
  }

  // ----- how many varchars are too many -----

  function Varchars(types: seq<DataType>): nat {
    if types == [] then 0 else (if types[0].Varchar? then 1 else 0) + Varchars(types[1..])
  }

  /** The key of every non-null row identifies it. */
  ghost predicate Identifies(types: seq<DataType>) {
    forall a, b :: Typed(types, a) && Typed(types, b) && NonNull(a) && NonNull(b) && KeyOf(a) == KeyOf(b) ==> a == b
  }

  lemma {:induction false} FixedKeyLength(types: seq<DataType>, a: Row, b: Row)
    requires Typed(types, a) && Typed(types, b) && NonNull(a) && NonNull(b) && Varchars(types) == 0
    ensures |KeyOf(a)| == |KeyOf(b)|
    decreases |a|
  {
    if a != [] { FixedKeyLength(types[1..], a[1..], b[1..]); }
  }

  lemma {:induction false} OneVarcharSuffices(types: seq<DataType>, a: Row, b: Row)
    requires Typed(types, a) && Typed(types, b) && NonNull(a) && NonNull(b) && Varchars(types) <= 1
    requires KeyOf(a) == KeyOf(b)
    ensures a == b
    decreases |a|
  {
    if a != [] {
      var x, y := a[0].value, b[0].value;
      assert x + [0] + KeyOf(a[1..]) == y + [0] + KeyOf(b[1..]);
      if types[0].Varchar? {
        FixedKeyLength(types[1..], a[1..], b[1..]);
        assert |KeyOf(a)| == |x| + 1 + |KeyOf(a[1..])| && |KeyOf(b)| == |y| + 1 + |KeyOf(b[1..])|;
      }
      SplitAt(x, y, KeyOf(a[1..]), KeyOf(b[1..]));
      OneVarcharSuffices(types[1..], a[1..], b[1..]);
      assert a == [a[0]] + a[1..] && b == [b[0]] + b[1..];
    }
  }

  function Zeros(n: nat): (r: Bytes)
    ensures |r| == n && forall i :: 0 <= i < n ==> r[i] == 0
  {
    seq(n, _ => 0)
  }

  lemma ZerosAdd(m: nat, n: nat)
    ensures Zeros(m) + Zeros(n) == Zeros(m + n)
  {
  }

  /** The row of zero bytes whose first varchar has `m` of them and whose second has `n`. */
  function ZeroRow(types: seq<DataType>, m: nat, n: nat): (r: Row)
    ensures |r| == |types| && NonNull(r) && Typed(types, r)
    decreases |types|
  {
    if types == [] then []
    else if types[0].Varchar? then [Some(Zeros(m))] + ZeroRow(types[1..], n, 0)
    else [Some(Zeros(types[0].size))] + ZeroRow(types[1..], m, n)
  }

  function Sizes(types: seq<DataType>): nat {
    if types == [] then 0 else (if types[0].Varchar? then 1 else types[0].size + 1) + Sizes(types[1..])
  }

  lemma {:induction false} ZeroRowKey(types: seq<DataType>, m: nat, n: nat)
    ensures KeyOf(ZeroRow(types, m, n)) ==
            Zeros(Sizes(types) + (if Varchars(types) > 0 then m else 0) + (if Varchars(types) > 1 then n else 0))
    decreases |types|
  {
    if types == [] {
      assert Zeros(0) == [];
    } else {
      var k := if types[0].Varchar? then m else types[0].size;
      var rest := if types[0].Varchar? then ZeroRow(types[1..], n, 0) else ZeroRow(types[1..], m, n);
      if types[0].Varchar? { ZeroRowKey(types[1..], n, 0); } else { ZeroRowKey(types[1..], m, n); }
      var row := ZeroRow(types, m, n);
      assert row[0] == Some(Zeros(k)) && row[1..] == rest;
      assert CellKey(row[0]) == Zeros(k + 1);
      ZerosAdd(k + 1, |KeyOf(rest)|);
    }
  }

  lemma {:induction false} ZeroRowsDiffer(types: seq<DataType>)
    requires Varchars(types) > 0
    ensures ZeroRow(types, 1, 0) != ZeroRow(types, 0, 1)
    decreases |types|
  {
    var a, b := ZeroRow(types, 1, 0), ZeroRow(types, 0, 1);
    if types[0].Varchar? {
      assert |a[0].value| == 1 && |b[0].value| == 0;
    } else {
      ZeroRowsDiffer(types[1..]);
      assert a[1..] == ZeroRow(types[1..], 1, 0) && b[1..] == ZeroRow(types[1..], 0, 1);
    }
  }

  lemma TwoVarcharsCollide(types: seq<DataType>)
    requires Varchars(types) > 1
    ensures !Identifies(types)
  {
    ZeroRowKey(types, 1, 0);
    ZeroRowKey(types, 0, 1);
    ZeroRowsDiffer(types);
    Collide(types, ZeroRow(types, 1, 0), ZeroRow(types, 0, 1));
  }

  lemma Collide(types: seq<DataType>, a: Row, b: Row)
    requires Typed(types, a) && Typed(types, b) && NonNull(a) && NonNull(b)
    requires KeyOf(a) == KeyOf(b) && a != b
    ensures !Identifies(types)
  {
  }

  /** The keys of all non-null rows are different exactly when there is at most one varchar
      column: with two, a zero byte can be in either. */
  lemma IdentifiesIff(types: seq<DataType>)
    ensures Identifies(types) <==> Varchars(types) <= 1
  {
    if Varchars(types) <= 1 {
      forall a, b | Typed(types, a) && Typed(types, b) && NonNull(a) && NonNull(b) && KeyOf(a) == KeyOf(b)
          ensures a == b {
        OneVarcharSuffices(types, a, b);
      }
    } else {
      TwoVarcharsCollide(types);
    }
  }

  // ----- nulls -----

  /** The key of every row identifies it, nulls included. */
  ghost predicate IdentifiesNulls(types: seq<DataType>) {
    forall a, b :: Typed(types, a) && Typed(types, b) && KeyOf(a) == KeyOf(b) ==> a == b
  }

  /** Which cells are not null. */
  function MaskOf(row: Row): (m: seq<bool>)
    ensures |m| == |row| && forall c :: 0 <= c < |row| ==> m[c] == row[c].Some?
  {
    seq(|row|, c requires 0 <= c < |row| => row[c].Some?)
  }

  /** What a column adds to the length of a key, with varchars of length `w`. */
  function Width(t: DataType, w: nat): nat {
    (if t.Varchar? then w else t.size) + 1
  }

  /** The sum of the widths of the columns in the mask. */
  function MaskSum(types: seq<DataType>, m: seq<bool>, w: nat): nat
    requires |m| == |types|
  {
    if types == [] then 0 else (if m[0] then Width(types[0], w) else 0) + MaskSum(types[1..], m[1..], w)
  }

  /** Different sets of columns have different sums of size + 1. */
  ghost predicate DistinctSums(types: seq<DataType>) {
    forall m: seq<bool>, n: seq<bool> :: |m| == |n| == |types| && MaskSum(types, m, 0) == MaskSum(types, n, 0)
        ==> m == n
  }

  lemma {:induction false} KeyLength(types: seq<DataType>, row: Row)
    requires Typed(types, row) && Varchars(types) == 0
    ensures |KeyOf(row)| == MaskSum(types, MaskOf(row), 0)
    decreases |row|
  {
    if row != [] {
      assert MaskOf(row)[1..] == MaskOf(row[1..]);
      KeyLength(types[1..], row[1..]);
    }
  }

  lemma {:induction false} SameMask(types: seq<DataType>, a: Row, b: Row)
    requires Typed(types, a) && Typed(types, b) && Varchars(types) == 0 && MaskOf(a) == MaskOf(b)
             && KeyOf(a) == KeyOf(b)
    ensures a == b
    decreases |a|
  {
    if a != [] {
      assert MaskOf(a)[0] == MaskOf(b)[0];
      assert MaskOf(a[1..]) == MaskOf(a)[1..] && MaskOf(b[1..]) == MaskOf(b)[1..];
      if a[0].Some? {
        SplitAt(a[0].value, b[0].value, KeyOf(a[1..]), KeyOf(b[1..]));
      } else {
        assert KeyOf(a) == KeyOf(a[1..]) && KeyOf(b) == KeyOf(b[1..]);
      }
      SameMask(types[1..], a[1..], b[1..]);
      assert a == [a[0]] + a[1..] && b == [b[0]] + b[1..];
    }
  }

  /** The row of zero bytes with the mask. */
  function Blank(types: seq<DataType>, m: seq<bool>, w: nat): (r: Row)
    requires |m| == |types|
    ensures |r| == |types|
    decreases |types|
  {
    if types == [] then []
    else [if m[0] then Some(Zeros(Width(types[0], w) - 1)) else None] + Blank(types[1..], m[1..], w)
  }

  lemma {:induction false} BlankAt(types: seq<DataType>, m: seq<bool>, w: nat, c: nat)
    requires |m| == |types| && c < |types|
    ensures Blank(types, m, w)[c] == if m[c] then Some(Zeros(Width(types[c], w) - 1)) else None
    decreases |types|
  {
    if c > 0 { BlankAt(types[1..], m[1..], w, c - 1); }
  }

  lemma BlankTyped(types: seq<DataType>, m: seq<bool>, w: nat)
    requires |m| == |types|
    ensures Typed(types, Blank(types, m, w)) && MaskOf(Blank(types, m, w)) == m
  {
    forall c | 0 <= c < |types| ensures Blank(types, m, w)[c] == if m[c] then Some(Zeros(Width(types[c], w) - 1))
        else None {
      BlankAt(types, m, w, c);
    }
  }

  lemma {:induction false} BlankKey(types: seq<DataType>, m: seq<bool>, w: nat)
    requires |m| == |types|
    ensures KeyOf(Blank(types, m, w)) == Zeros(MaskSum(types, m, w))
    decreases |types|
  {
    if types == [] {
      assert Zeros(0) == [];
    } else {
      BlankKey(types[1..], m[1..], w);
      var row := Blank(types, m, w);
      assert row[1..] == Blank(types[1..], m[1..], w);
      var k := if m[0] then Width(types[0], w) else 0;
      assert CellKey(row[0]) == Zeros(k);
      ZerosAdd(k, MaskSum(types[1..], m[1..], w));
    }
  }

  lemma BlanksCollide(types: seq<DataType>, m: seq<bool>, v: nat, n: seq<bool>, w: nat)
    requires |m| == |n| == |types| && m != n && MaskSum(types, m, v) == MaskSum(types, n, w)
    ensures !IdentifiesNulls(types)
  {
    BlankKey(types, m, v);
    BlankKey(types, n, w);
    BlankTyped(types, m, v);
    BlankTyped(types, n, w);
    assert MaskOf(Blank(types, m, v)) != MaskOf(Blank(types, n, w));
  }

  /** The mask of one column. */
  function Only(n: nat, c: nat): (m: seq<bool>)
    ensures |m| == n && forall i :: 0 <= i < n ==> m[i] == (i == c)
  {
    seq(n, i => i == c)
  }

  lemma {:induction false} OnlySum(types: seq<DataType>, c: nat, w: nat)
    requires c < |types|
    ensures MaskSum(types, Only(|types|, c), w) == Width(types[c], w)
    decreases |types|
  {
    var n := |types| - 1;
    if c == 0 {
      NoSum(types[1..], Only(|types|, c)[1..], w);
    } else {
      assert Only(|types|, c)[1..] == Only(n, c - 1);
      OnlySum(types[1..], c - 1, w);
    }
  }

  lemma {:induction false} NoSum(types: seq<DataType>, m: seq<bool>, w: nat)
    requires |m| == |types| && forall i :: 0 <= i < |m| ==> !m[i]
    ensures MaskSum(types, m, w) == 0
    decreases |types|
  {
    if types != [] { NoSum(types[1..], m[1..], w); }
  }

  lemma {:induction false} FindVarchar(types: seq<DataType>) returns (c: nat)
    requires Varchars(types) > 0
    ensures c < |types| && types[c].Varchar?
  {
    c := 0;
    if !types[0].Varchar? {
      c := FindVarchar(types[1..]);
      c := c + 1;
    }
  }

  /** Next to any other column a varchar can imitate it: one is null, the other zero bytes. */
  lemma VarcharImitates(types: seq<DataType>)
    requires Varchars(types) > 0 && |types| > 1
    ensures !IdentifiesNulls(types)
  {
    var v := FindVarchar(types);
    var c := if v == 0 then 1 else 0;
    var w := Width(types[c], 0) - 1;
    OnlySum(types, v, w);
    OnlySum(types, c, 0);
    assert Only(|types|, v)[v] != Only(|types|, c)[v];
    BlanksCollide(types, Only(|types|, v), w, Only(|types|, c), 0);
  }

  lemma LoneVarchar(types: seq<DataType>, a: Row, b: Row)
    requires |types| == 1 && types[0].Varchar? && Typed(types, a) && Typed(types, b) && KeyOf(a) == KeyOf(b)
    ensures a == b
  {
    assert a[1..] == [] && b[1..] == [];
    assert KeyOf(a) == CellKey(a[0]) + KeyOf([]) && KeyOf(b) == CellKey(b[0]) + KeyOf([]);
    assert CellKey(a[0]) + [] == CellKey(a[0]) && CellKey(b[0]) + [] == CellKey(b[0]);
    if a[0].Some? && b[0].Some? { SplitAt(a[0].value, b[0].value, [], []); }
  }

  /** With nulls, keys separate all rows exactly in two cases: a varchar is the only column, or
      there is no varchar and different sets of columns have different sums of size + 1. */
  lemma IdentifiesNullsIff(types: seq<DataType>)
    ensures IdentifiesNulls(types) <==> if Varchars(types) > 0 then |types| == 1 else DistinctSums(types)
  {
    if Varchars(types) > 0 {
      if |types| == 1 {
        forall a, b | Typed(types, a) && Typed(types, b) && KeyOf(a) == KeyOf(b)
            ensures a == b { LoneVarchar(types, a, b); }
      } else {
        VarcharImitates(types);
      }
    } else if DistinctSums(types) {
      forall a, b | Typed(types, a) && Typed(types, b) && KeyOf(a) == KeyOf(b) ensures a == b {
        KeyLength(types, a);
        KeyLength(types, b);
        SameMask(types, a, b);
      }
    } else {
      var m: seq<bool>, n: seq<bool> :| |m| == |n| == |types| && MaskSum(types, m, 0) == MaskSum(types, n, 0) && m != n;
      BlanksCollide(types, m, 0, n, 0);
    }
  }

  /** Two columns of one size are never told apart with nulls; nulls in columns of one and two
      bytes are. */
  lemma NullExamples(size: nat)
    ensures !IdentifiesNulls([Fixed(size), Fixed(size)]) && IdentifiesNulls([Fixed(1), Fixed(2)])
  {
    var t := [Fixed(size), Fixed(size)];
    TwoColumnSum(t[0], t[1], true, false);
    TwoColumnSum(t[0], t[1], false, true);
    BlanksCollide(t, [true, false], 0, [false, true], 0);
    var u := [Fixed(1), Fixed(2)];
    forall m: seq<bool>, n: seq<bool> | |m| == |n| == |u| && MaskSum(u, m, 0) == MaskSum(u, n, 0) ensures m == n {
      assert m == [m[0], m[1]] && n == [n[0], n[1]];
      TwoColumnSum(u[0], u[1], m[0], m[1]);
      TwoColumnSum(u[0], u[1], n[0], n[1]);
    }
    IdentifiesNullsIff(u);
  }

  lemma TwoColumnSum(a: DataType, b: DataType, x: bool, y: bool)
    ensures MaskSum([a, b], [x, y], 0) == (if x then Width(a, 0) else 0) + (if y then Width(b, 0) else 0)
  {
    assert [a, b][1..] == [b] && [x, y][1..] == [y];
    assert MaskSum([b], [y], 0) == (if y then Width(b, 0) else 0) + MaskSum([b][1..], [y][1..], 0);
  }

  // ----- Init -----

  /** The key size Init computes; None for an unsupported type. */
  function KeySize(types: seq<DataType>): Option<nat> {
    var n := SumSizes(types, 0);
    if n.None? then None else Some(if n.value == 0 then 0 else n.value + |types|)
  }

  /** The loop of Init from a size of `n`: it stops at the first varchar. */
  function SumSizes(types: seq<DataType>, n: nat): Option<nat>
    decreases |types|
  {
    if types == [] then Some(n)
    else
      match types[0]
      case Fixed(size) => if n + size == 0 then Some(0) else SumSizes(types[1..], n + size)
      case Varchar => Some(0)
      case Unsupported(_) => None
  }

  /** The loop of Init stops at this column: a varchar, or a first column of no bytes. */
  predicate Stops(types: seq<DataType>, i: nat)
    requires i < |types|
  {
    types[i].Varchar? || (i == 0 && types[i] == Fixed(0))
  }

  /** Column `i` is refused, and the loop comes to it. */
  ghost predicate RefusedAt(types: seq<DataType>, i: nat) {
    i < |types| && types[i].Unsupported? && forall j :: 0 <= j < i ==> !Stops(types, j)
  }

  /** The loop stops at column `i`, and has refused none before. */
  ghost predicate StoppedAt(types: seq<DataType>, i: nat) {
    i < |types| && Stops(types, i) && forall j :: 0 <= j < i ==> !types[j].Unsupported?
  }

  function TotalSize(types: seq<DataType>): nat {
    if types == [] then 0 else (if types[0].Fixed? then types[0].size else 0) + TotalSize(types[1..])
  }

  /** The answer of Init: an error exactly when an unsupported type comes before the first
      varchar; no fixed size exactly when a varchar comes before any unsupported type, or there
      is nothing to add up; otherwise the sizes of the columns and one byte for each. */
  lemma KeySizeIff(types: seq<DataType>)
    ensures KeySize(types) == None <==> exists i: nat :: RefusedAt(types, i)
    ensures KeySize(types) == Some(0) <==> types == [] || exists i: nat :: StoppedAt(types, i)
    ensures KeySize(types).Some? && KeySize(types).value > 0 ==> KeySize(types).value == TotalSize(types) + |types|
  {
    if types != [] {
      if types[0].Fixed? && types[0].size > 0 {
        SumFrom(types, 1, types[0].size);
        assert !Stops(types, 0);
        assert TotalSize(types) == types[0].size + TotalSize(types[1..]);
      } else if types[0].Unsupported? {
        assert RefusedAt(types, 0);
      } else {
        assert StoppedAt(types, 0);
      }
    }
  }

  /** The rest of the loop, from a size of `n`. */
  lemma {:induction false} SumFrom(types: seq<DataType>, k: nat, n: nat)
    requires 0 < k <= |types| && 0 < n
    requires forall j :: 0 <= j < k ==> !Stops(types, j) && !types[j].Unsupported?
    ensures SumSizes(types[k..], n) == None <==> exists i: nat :: RefusedAt(types, i)
    ensures SumSizes(types[k..], n) == Some(0) <==> exists i: nat :: StoppedAt(types, i)
    ensures SumSizes(types[k..], n).Some? && SumSizes(types[k..], n).value > 0 ==>
              SumSizes(types[k..], n).value == n + TotalSize(types[k..])
    decreases |types| - k
  {
    if k < |types| {
      var rest := types[k..];
      assert rest[0] == types[k] && rest[1..] == types[k + 1..];
      match types[k]
      case Fixed(size) => SumFrom(types, k + 1, n + size);
      case Varchar => assert StoppedAt(types, k);
      case Unsupported(_) => assert RefusedAt(types, k);
    }
  }

  lemma {:induction false} SumIsKeyLength(types: seq<DataType>, n: nat, row: Row)
    requires Types(types) && Typed(types, row) && NonNull(row) && SumSizes(types, n).Some?
             && SumSizes(types, n).value > 0
    ensures |KeyOf(row)| + n == SumSizes(types, n).value + |types|
    decreases |types|
  {
    if types != [] {
      assert types[1..] == [] || forall c :: 0 <= c < |types[1..]| ==> types[1..][c] == types[c + 1];
      SumIsKeyLength(types[1..], n + types[0].size, row[1..]);
    }
  }

  /** When Init gives a key size, every key of a non-null row has exactly that length. */
  lemma KeyHasKeySize(types: seq<DataType>, row: Row)
    requires Types(types) && Typed(types, row) && NonNull(row) && KeySize(types).Some? && KeySize(types).value > 0
    ensures |KeyOf(row)| == KeySize(types).value
  {
    SumIsKeyLength(types, 0, row);
  }

  // ----- the tables as histories -----

  type Column = seq<Cell>

  predicate Rectangular(columns: seq<Column>, rows: nat) {
    forall c :: 0 <= c < |columns| ==> |columns[c]| >= rows
  }

  function RowAt(columns: seq<Column>, r: nat): (row: Row)
    requires Rectangular(columns, r + 1)
    ensures |row| == |columns|
  {
    seq(|columns|, c requires 0 <= c < |columns| => columns[c][r])
  }

  /** The keys of the first `rows` rows. */
  function KeysIn(columns: seq<Column>, rows: nat): (r: seq<Bytes>)
    requires Rectangular(columns, rows)
    ensures |r| == rows && forall n: nat :: n < rows ==> r[n] == KeyOf(RowAt(columns, n))
  {
    seq(rows, n requires 0 <= n < rows => KeyOf(RowAt(columns, n)))
  }

  /** One row that went into a table. */
  datatype Entry = Entry(key: Bytes, block: nat, row: nat)

  /** The rows of a block, given by their keys. */
  ghost function Entries(block: nat, keys: seq<Bytes>): (r: seq<Entry>)
    ensures |r| == |keys|
  {
    if keys == [] then []
    else Entries(block, keys[..|keys| - 1]) + [Entry(keys[|keys| - 1], block, |keys| - 1)]
  }

  /** The rows of `block` with key `key`, in the order they were added. */
  ghost function RowsOf(history: seq<Entry>, key: Bytes, block: nat): seq<nat> {
    if history == [] then []
    else
      var last := history[|history| - 1];
      RowsOf(history[..|history| - 1], key, block) + (if last.key == key && last.block == block then [last.row] else [])
  }

  type Table = map<Bytes, map<nat, seq<nat>>>

  function Lookup(t: Table, key: Bytes, block: nat): seq<nat> {
    if key in t && block in t[key] then t[key][block] else []
  }

  /** The table holds exactly the rows of the history, and no empty lists. */
  ghost predicate Represents(t: Table, history: seq<Entry>) {
    && (forall key, block :: Lookup(t, key, block) == RowsOf(history, key, block))
    && (forall key :: key in t ==> t[key] != map[])
    && (forall key, block :: key in t && block in t[key] ==> t[key][block] != [])
  }

  function Added(t: Table, key: Bytes, block: nat, row: nat): Table {
    var blocks: map<nat, seq<nat>> := if key in t then t[key] else map[];
    t[key := blocks[block := Lookup(t, key, block) + [row]]]
  }

  lemma AddedLookup(t: Table, key: Bytes, block: nat, row: nat, k: Bytes, b: nat)
    ensures Lookup(Added(t, key, block, row), k, b) == Lookup(t, k, b) + (if k == key && b == block then [row] else [])
  {
  }

  lemma RowsOfAppend(history: seq<Entry>, e: Entry, key: Bytes, block: nat)
    ensures RowsOf(history + [e], key, block) ==
            RowsOf(history, key, block) + (if e.key == key && e.block == block then [e.row] else [])
  {
    assert (history + [e])[..|history + [e]| - 1] == history;
  }

  lemma AddedFilled(t: Table, key: Bytes, block: nat, row: nat)
    requires forall k :: k in t ==> t[k] != map[]
    requires forall k, b :: k in t && b in t[k] ==> t[k][b] != []
    ensures var t2 := Added(t, key, block, row);
            && (forall k :: k in t2 ==> t2[k] != map[])
            && (forall k, b :: k in t2 && b in t2[k] ==> t2[k][b] != [])
  {
    assert block in Added(t, key, block, row)[key];
  }

  lemma AddedRepresents(t: Table, history: seq<Entry>, e: Entry)
    requires Represents(t, history)
    ensures Represents(Added(t, e.key, e.block, e.row), history + [e])
  {
    AddedFilled(t, e.key, e.block, e.row);
    forall key, block
      ensures Lookup(Added(t, e.key, e.block, e.row), key, block) == RowsOf(history + [e], key, block)
    {
      AddedLookup(t, e.key, e.block, e.row, key, block);
      RowsOfAppend(history, e, key, block);
    }
  }

  // ----- the partition -----

  /** A block as it is appended: its id and the keys of its rows. */
  datatype Block = Block(id: nat, keys: seq<Bytes>)

  ghost predicate DistinctIds(blocks: seq<Block>) {
    forall i, j :: 0 <= i < j < |blocks| ==> blocks[i].id != blocks[j].id
  }

  ghost function AllEntries(blocks: seq<Block>): seq<Entry> {
    if blocks == [] then []
    else AllEntries(blocks[..|blocks| - 1]) + Entries(blocks[|blocks| - 1].id, blocks[|blocks| - 1].keys)
  }

  lemma {:induction false} RowsOfConcat(a: seq<Entry>, b: seq<Entry>, key: Bytes, block: nat)
    ensures RowsOf(a + b, key, block) == RowsOf(a, key, block) + RowsOf(b, key, block)
    decreases |b|
  {
    if b == [] {
      assert a + b == a;
    } else {
      var init := b[..|b| - 1];
      assert (a + b)[..|a + b| - 1] == a + init;
      RowsOfConcat(a, init, key, block);
    }
  }

  /** The rows with key `key`, ascending. */
  ghost function Matching(keys: seq<Bytes>, key: Bytes): seq<nat> {
    if keys == [] then []
    else Matching(keys[..|keys| - 1], key) + (if keys[|keys| - 1] == key then [|keys| - 1] else [])
  }

  ghost predicate Ascending(r: seq<nat>) {
    forall i, j :: 0 <= i < j < |r| ==> r[i] < r[j]
  }

  lemma {:induction false} MatchingHas(keys: seq<Bytes>, key: Bytes, n: nat)
    ensures n in Matching(keys, key) <==> n < |keys| && keys[n] == key
  {
    if keys != [] { MatchingHas(keys[..|keys| - 1], key, n); }
  }

  lemma {:induction false} MatchingAscends(keys: seq<Bytes>, key: Bytes)
    ensures Ascending(Matching(keys, key))
  {
    if keys != [] {
      var init := keys[..|keys| - 1];
      MatchingAscends(init, key);
      var r := Matching(init, key);
      forall i | 0 <= i < |r| ensures r[i] < |init| {
        MatchingHas(init, key, r[i]);
      }
    }
  }

  lemma {:induction false} EntriesMatch(id: nat, keys: seq<Bytes>, key: Bytes, block: nat)
    ensures RowsOf(Entries(id, keys), key, block) == if id == block then Matching(keys, key) else []
  {
    if keys != [] {
      var init := keys[..|keys| - 1];
      EntriesMatch(id, init, key, block);
      RowsOfAppend(Entries(id, init), Entry(keys[|keys| - 1], id, |keys| - 1), key, block);
    }
  }

  lemma AllEntriesStep(blocks: seq<Block>, key: Bytes, block: nat)
    requires blocks != []
    ensures var init, last := blocks[..|blocks| - 1], blocks[|blocks| - 1];
            RowsOf(AllEntries(blocks), key, block) ==
            RowsOf(AllEntries(init), key, block) + if last.id == block then Matching(last.keys, key) else []
  {
    var init, last := blocks[..|blocks| - 1], blocks[|blocks| - 1];
    EntriesMatch(last.id, last.keys, key, block);
    RowsOfConcat(AllEntries(init), Entries(last.id, last.keys), key, block);
  }

  lemma {:induction false} NoOtherBlock(blocks: seq<Block>, key: Bytes, block: nat)
    requires forall i :: 0 <= i < |blocks| ==> blocks[i].id != block
    ensures RowsOf(AllEntries(blocks), key, block) == []
    decreases |blocks|
  {
    if blocks != [] {
      NoOtherBlock(blocks[..|blocks| - 1], key, block);
      AllEntriesStep(blocks, key, block);
    }
  }

  lemma {:induction false} HistoryPartitions(blocks: seq<Block>, i: nat, key: Bytes)
    requires DistinctIds(blocks) && i < |blocks|
    ensures RowsOf(AllEntries(blocks), key, blocks[i].id) == Matching(blocks[i].keys, key)
    decreases |blocks|
  {
    var init := blocks[..|blocks| - 1];
    AllEntriesStep(blocks, key, blocks[i].id);
    if i < |init| {
      HistoryPartitions(init, i, key);
    } else {
      NoOtherBlock(init, key, blocks[i].id);
    }
  }

  /** Appending blocks with different ids partitions all their rows by key: the list of a key
      and a block is exactly the rows of that block with that key, ascending. */
  lemma AppendPartitions(t: Table, blocks: seq<Block>, i: nat, key: Bytes)
    requires DistinctIds(blocks) && Represents(t, AllEntries(blocks)) && i < |blocks|
    ensures var rows := Lookup(t, key, blocks[i].id);
            && (forall n: nat :: n in rows <==> n < |blocks[i].keys| && blocks[i].keys[n] == key)
            && Ascending(rows)
  {
    HistoryPartitions(blocks, i, key);
    MatchingAscends(blocks[i].keys, key);
    forall n: nat ensures n in Matching(blocks[i].keys, key) <==> n < |blocks[i].keys| && blocks[i].keys[n] == key {
      MatchingHas(blocks[i].keys, key, n);
    }
  }

  /** Nothing else is in the table. */
  lemma OnlyAppended(t: Table, blocks: seq<Block>, key: Bytes, block: nat)
    requires Represents(t, AllEntries(blocks))
    requires key in t && block in t[key]
    ensures exists i :: 0 <= i < |blocks| && blocks[i].id == block
  {
    assert Lookup(t, key, block) != [];
    if forall i :: 0 <= i < |blocks| ==> blocks[i].id != block {
      NoOtherBlock(blocks, key, block);
    }
  }

  // ----- first come, first kept -----

  /** The first entry with the key. */
  ghost function First(history: seq<Entry>, key: Bytes): Option<Entry> {
    if history == [] then None else if history[0].key == key then Some(history[0]) else First(history[1..], key)
  }

  ghost predicate Keeps(t: map<Bytes, (nat, nat)>, history: seq<Entry>) {
    forall key ::
      match First(history, key)
      case None => key !in t
      case Some(e) => key in t && t[key] == (e.block, e.row)
  }

  lemma {:induction false} FirstAppend(history: seq<Entry>, e: Entry, key: Bytes)
    ensures First(history + [e], key) ==
            if First(history, key).Some? then First(history, key) else if e.key == key then Some(e) else None
  {
    if history == [] {
      assert (history + [e])[1..] == [];
    } else {
      assert (history + [e])[1..] == history[1..] + [e];
      FirstAppend(history[1..], e, key);
    }
  }

  lemma KeepsAppend(t: map<Bytes, (nat, nat)>, history: seq<Entry>, e: Entry)
    requires Keeps(t, history)
    ensures Keeps(if e.key in t then t else t[e.key := (e.block, e.row)], history + [e])
  {
    forall key ensures First(history + [e], key) ==
                       if First(history, key).Some? then First(history, key) else if e.key == key then Some(e)
                           else None {
      FirstAppend(history, e, key);
    }
  }

  /** The answers of GetOrInsert to a series of rows: true where the key was there before. */
  ghost function Answers(history: seq<Entry>): (r: seq<bool>)
    ensures |r| == |history|
  {
    if history == [] then []
    else
      var init, last := history[..|history| - 1], history[|history| - 1];
      Answers(init) + [First(init, last.key).Some?]
  }

  lemma {:induction false} FirstIff(history: seq<Entry>, key: Bytes)
    ensures First(history, key).Some? <==> exists i :: 0 <= i < |history| && history[i].key == key
  {
    if history != [] {
      FirstIff(history[1..], key);
      if i :| 0 <= i < |history| && history[i].key == key && i > 0 { assert history[1..][i - 1].key == key; }
      if i :| 0 <= i < |history[1..]| && history[1..][i].key == key { assert history[i + 1].key == key; }
    }
  }

  lemma {:induction false} AnswerAt(history: seq<Entry>, i: nat)
    requires i < |history|
    ensures Answers(history)[i] <==> First(history[..i], history[i].key).Some?
  {
    var init := history[..|history| - 1];
    if i < |init| {
      AnswerAt(init, i);
      assert init[..i] == history[..i];
    }
  }

  /** A series of GetOrInsert calls answers false for a key exactly once: at its first row. */
  lemma FalseOncePerKey(history: seq<Entry>, key: Bytes) returns (j: nat)
    requires First(history, key).Some?
    ensures j < |history| && history[j].key == key && First(history, key) == Some(history[j])
    ensures forall i :: 0 <= i < |history| && history[i].key == key ==> (Answers(history)[i] <==> i != j)
  {
    j := FirstIndex(history, key);
    forall i | 0 <= i < |history| && history[i].key == key ensures Answers(history)[i] <==> i != j {
      AnswerAt(history, i);
      FirstIff(history[..i], key);
      if j < i { assert history[..i][j].key == key; }
    }
  }

  lemma {:induction false} FirstIndex(history: seq<Entry>, key: Bytes) returns (j: nat)
    requires First(history, key).Some?
    ensures j < |history| && First(history, key) == Some(history[j]) && history[j].key == key
    ensures forall i :: 0 <= i < j ==> history[i].key != key
  {
    j := 0;
    if history[0].key != key {
      var k := FirstIndex(history[1..], key);
      forall i | 0 <= i < k + 1 ensures history[i].key != key {
        if i > 0 { assert history[i] == history[1..][i - 1]; }
      }
      j := k + 1;
    }
  }

  // ----- the classes -----

  datatype KeyResult = Key(key: Bytes) | SizeMismatch

  /** The cells of row `r` have the sizes of the types. */
  ghost predicate TypedRows(types: seq<DataType>, columns: seq<Column>, rows: nat) {
    && |columns| == |types|
    && Rectangular(columns, rows)
    && forall r: nat :: r < rows ==> Typed(types, RowAt(columns, r))
  }

  ghost predicate Sized(types: seq<DataType>, keySize: nat) {
    Types(types) && KeySize(types) == Some(keySize)
  }

  lemma NeverMismatch(types: seq<DataType>, keySize: nat, row: Row)
    requires Sized(types, keySize) && Typed(types, row)
    ensures !(NonNull(row) && keySize != 0 && |KeyOf(row)| != keySize)
  {
    if NonNull(row) && keySize != 0 { KeyHasKeySize(types, row); }
  }

  /** HashTableBase::Init; None for a type it does not support. */
  method Init(types: seq<DataType>) returns (keySize: Option<nat>)
    ensures keySize == KeySize(types)
  {
    var n, i := 0, 0;
    var stop := false;
    while i < |types| && !stop
      invariant i <= |types|
      invariant stop ==> n == 0
      invariant SumSizes(types, 0) == if stop then Some(n) else SumSizes(types[i..], n)
      decreases |types| - i
    {
      assert types[i..][0] == types[i] && types[i..][1..] == types[i + 1..];
      match types[i] {
        case Fixed(size) => n := n + size;
        case Varchar => n := 0;
        case Unsupported(_) => return None;
      }
      if n == 0 { stop := true; }
      i := i + 1;
    }
    keySize := Some(if n != 0 then n + |types| else n);
  }

  /** HashTableBase::GetHashKey. */
  method GetHashKey(types: seq<DataType>, keySize: nat, columns: seq<Column>, r: nat) returns (k: KeyResult)
    requires Sized(types, keySize) && Rectangular(columns, r + 1) && Typed(types, RowAt(columns, r))
    ensures k == Key(KeyOf(RowAt(columns, r)))
  {
    ghost var row := RowAt(columns, r);
    var key: Bytes, hasNull := [], false;
    for c := 0 to |columns|
      invariant key == KeyOf(row[..c])
      invariant hasNull <==> exists i :: 0 <= i < c && row[i].None?
    {
      assert row[..c + 1] == row[..c] + [row[c]];
      KeyAppend(row[..c], row[c]);
      var cell := columns[c][r];
      if cell.None? {
        hasNull := true;
      } else {
        key := key + cell.value;
        key := key + [0];
      }
    }
    assert row[..|row|] == row;
    NeverMismatch(types, keySize, row);
    if !hasNull && keySize != 0 && |key| != keySize { return SizeMismatch; }
    k := Key(key);
  }

  class HashTable {
    const types: seq<DataType>
    const keySize: nat
    var table: Table
    ghost var history: seq<Entry>

    ghost predicate Valid()
      reads this
    {
      Sized(types, keySize) && Represents(table, history)
    }

    constructor (types: seq<DataType>, keySize: nat)
      requires Sized(types, keySize)
      ensures Valid() && history == [] && this.types == types
    {
      this.types, this.keySize, table, history := types, keySize, map[], [];
    }

    method Add(key: Bytes, block: nat, row: nat)
      requires Valid()
      modifies this
      ensures Valid() && history == old(history) + [Entry(key, block, row)]
    {
      AddedRepresents(table, history, Entry(key, block, row));
      table := Added(table, key, block, row);
      history := history + [Entry(key, block, row)];
    }

    method Append(columns: seq<Column>, block: nat, rows: nat)
      requires Valid() && TypedRows(types, columns, rows)
      modifies this
      ensures Valid() && history == old(history) + Entries(block, KeysIn(columns, rows))
    {
      ghost var keys := KeysIn(columns, rows);
      for r := 0 to rows
        invariant Valid() && history == old(history) + Entries(block, keys[..r])
      {
        var k := GetHashKey(types, keySize, columns, r);
        Add(k.key, block, r);
        EntriesStep(block, keys, r);
      }
      assert keys[..rows] == keys;
    }
  }

  lemma EntriesStep(block: nat, keys: seq<Bytes>, r: nat)
    requires r < |keys|
    ensures Entries(block, keys[..r + 1]) == Entries(block, keys[..r]) + [Entry(keys[r], block, r)]
  {
    assert keys[..r + 1][..r] == keys[..r];
  }

  class MergeHashTable {
    const types: seq<DataType>
    const keySize: nat
    var table: map<Bytes, (nat, nat)>
    ghost var history: seq<Entry>

    ghost predicate Valid()
      reads this
    {
      Sized(types, keySize) && Keeps(table, history)
    }

    constructor (types: seq<DataType>, keySize: nat)
      requires Sized(types, keySize)
      ensures Valid() && history == [] && this.types == types
    {
      this.types, this.keySize, table, history := types, keySize, map[], [];
    }

    /** Answers whether the key was there, and the block and row first seen with it. */
    method GetOrInsert(columns: seq<Column>, r: nat, place: (nat, nat)) returns (found: bool, first: (nat, nat))
      requires Valid() && Rectangular(columns, r + 1) && Typed(types, RowAt(columns, r))
      modifies this
      ensures Valid() && history == old(history) + [Entry(KeyOf(RowAt(columns, r)), place.0, place.1)]
      ensures found <==> First(old(history), KeyOf(RowAt(columns, r))).Some?
      ensures var e := First(history, KeyOf(RowAt(columns, r))); e.Some? && first == (e.value.block, e.value.row)
    {
      var k := GetHashKey(types, keySize, columns, r);
      ghost var e := Entry(k.key, place.0, place.1);
      KeepsAppend(table, history, e);
      FirstAppend(history, e, k.key);
      found := k.key in table;
      if !found {
        table := table[k.key := place];
      }
      first := table[k.key];
      history := history + [e];
    }

    method Add(key: Bytes, block: nat, row: nat) returns (ok: bool)
      requires Valid()
      modifies this
      ensures Valid() && history == if ok then old(history) + [Entry(key, block, row)] else old(history)
      ensures ok <==> First(old(history), key).None?
    {
      KeepsAppend(table, history, Entry(key, block, row));
      ok := key !in table;
      if ok {
        table := table[key := (block, row)];
        history := history + [Entry(key, block, row)];
      }
    }

    /** Adds all rows, or stops with an error at the first row whose key is there already. */
    method Append(columns: seq<Column>, block: nat, rows: nat) returns (ok: bool)
      requires Valid() && TypedRows(types, columns, rows)
      modifies this
      ensures Valid()
      ensures ok ==> history == old(history) + Entries(block, KeysIn(columns, rows))
      ensures ok <==> Fresh(old(history), KeysIn(columns, rows))
    {
      ghost var keys := KeysIn(columns, rows);
      for r := 0 to rows
        invariant Valid() && history == old(history) + Entries(block, keys[..r])
        invariant Fresh(old(history), keys[..r])
      {
        var k := GetHashKey(types, keySize, columns, r);
        FreshStep(old(history), block, keys, r);
        ok := Add(k.key, block, r);
        if !ok { return; }
        EntriesStep(block, keys, r);
      }
      assert keys[..rows] == keys;
      ok := true;
    }
  }

  /** The keys are new to the history and different from each other. */
  ghost predicate Fresh(history: seq<Entry>, keys: seq<Bytes>) {
    && (forall i :: 0 <= i < |keys| ==> First(history, keys[i]).None?)
    && (forall i, j :: 0 <= i < j < |keys| ==> keys[i] != keys[j])
  }

  lemma {:induction false} FirstOfEntries(history: seq<Entry>, block: nat, keys: seq<Bytes>, key: Bytes)
    ensures First(history + Entries(block, keys), key).Some? <==> First(history, key).Some? || key in keys
    decreases |keys|
  {
    if keys == [] {
      assert history + Entries(block, keys) == history;
    } else {
      var n := |keys| - 1;
      var e := Entry(keys[n], block, n);
      FirstOfEntries(history, block, keys[..n], key);
      assert history + Entries(block, keys) == history + Entries(block, keys[..n]) + [e];
      FirstAppend(history + Entries(block, keys[..n]), e, key);
      assert keys == keys[..n] + [keys[n]];
    }
  }

  lemma FreshStep(history: seq<Entry>, block: nat, keys: seq<Bytes>, r: nat)
    requires r < |keys| && Fresh(history, keys[..r])
    ensures Fresh(history, keys[..r + 1]) <==> First(history + Entries(block, keys[..r]), keys[r]).None?
    ensures Fresh(history, keys) ==> Fresh(history, keys[..r + 1])
  {
    FirstOfEntries(history, block, keys[..r], keys[r]);
    assert keys[r] in keys[..r] <==> exists i :: 0 <= i < r && keys[i] == keys[r];
    var a, b := keys[..r], keys[..r + 1];
    assert b[r] == keys[r] && forall i :: 0 <= i < r ==> b[i] == a[i] == keys[i];
  }
}
