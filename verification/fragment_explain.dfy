/** The text of EXPLAIN for fragments: src/executor/explain_fragment.cpp. */
module FragmentExplain {
  import opened Basics
  import opened FragmentModel
  import opened FragmentTheorems
  import opened FragmentProperties

  /** One line of the text: a fragment title, or a text followed by the fragments it refers to. */
  datatype Line = Line(title: Option<nat>, text: string, refs: seq<nat>)

  /** What ExplainPhysicalPlan prints for operators, sources and sinks. */
  datatype Printer = Printer(op: Node -> seq<string>, source: End<SourceType> -> seq<string>,
        sink: End<SinkType> -> seq<string>)

  function Texts(ts: seq<string>): seq<Line> {
    if ts == [] then [] else [Line(None, ts[0], [])] + Texts(ts[1..])
  }

  function OpLines(d: Printer, ops: seq<Node>): seq<Line> {
    if ops == [] then [] else Texts(d.op(ops[0])) + OpLines(d, ops[1..])
  }

  function ChildIds(fs: seq<Fragment>): (r: seq<nat>)
    ensures |r| == |fs| && forall i :: 0 <= i < |fs| ==> r[i] == fs[i].id
  {
    if fs == [] then [] else [fs[0].id] + ChildIds(fs[1..])
  }

  /** The footer: the last line names the child fragments. */
  function Footer(lines: seq<Line>, ids: seq<nat>): (r: seq<Line>)
    requires lines != []
  {
    var n := |lines| - 1;
    lines[n := lines[n].(refs := lines[n].refs + ids)]
  }

  const BLANK := Line(None, "", [])

  /** Title, sink and operators. */
  function Top(d: Printer, f: Fragment): (r: seq<Line>)
    ensures r != []
  {
    [Line(Some(f.id), "", [])] + (if f.sink.Some? then Texts(d.sink(f.sink.value)) else []) + OpLines(d, f.ops)
  }

  /** The lines of one fragment without its children. */
  function Own(d: Printer, f: Fragment): (r: seq<Line>)
    ensures r != []
  {
    if f.source.None? then Top(d, f)
    else
      var body := Top(d, f) + Texts(d.source(f.source.value));
      if f.children == [] then body else Footer(body, ChildIds(f.children))
  }

  function Lines(d: Printer, f: Fragment): seq<Line>
    decreases f, 1
  {
    Own(d, f) + [BLANK] + LinesAll(d, f.children)
  }

  function LinesAll(d: Printer, fs: seq<Fragment>): seq<Line>
    decreases fs, 0
  {
    if fs == [] then [] else Lines(d, fs[0]) + [BLANK] + LinesAll(d, fs[1..])
  }

  // ----- the text -----

  function Decimal(n: nat): (r: string)
    ensures r != []
  {
    (if n < 10 then [] else Decimal(n / 10)) + ["0123456789"[n % 10]]
  }

  /** Reading a decimal number. */
  function Number(s: string): nat {
    if s == [] then 0 else 10 * Number(s[..|s| - 1]) + DigitOf(s[|s| - 1])
  }

  function DigitOf(c: char): nat {
    if '0' <= c <= '9' then c as nat - '0' as nat else 0
  }

  lemma {:induction false} DecimalIsRead(n: nat)
    ensures Number(Decimal(n)) == n && (n > 0 ==> Decimal(n)[0] != '0')
    ensures forall i :: 0 <= i < |Decimal(n)| ==> '0' <= Decimal(n)[i] <= '9'
  {
    var last := "0123456789"[n % 10];
    assert DigitOf(last) == n % 10 && '0' <= last <= '9';
    if n < 10 {
      assert Decimal(n) == [last] && Decimal(n)[..0] == [];
    } else {
      DecimalIsRead(n / 10);
      assert Decimal(n)[..|Decimal(n)| - 1] == Decimal(n / 10);
    }
  }

  function FragmentTitle(id: nat, head: bool): string {
    if head then "FRAGMENT (" + Decimal(id) + ")" else "FRAGMENT #" + Decimal(id)
  }

  /** The titles of fragments in a footer. */
  function Names(ids: seq<nat>): string {
    if ids == [] then ""
    else (if |ids| == 1 then "" else Names(ids[..|ids| - 1]) + ", ") + FragmentTitle(ids[|ids| - 1], false)
  }

  /** The text that the printer gives for the operators, one after the other. */
  function Printed(d: Printer, ops: seq<Node>): seq<string> {
    if ops == [] then [] else Printed(d, ops[..|ops| - 1]) + d.op(ops[|ops| - 1])
  }

  /** The lines of one fragment before its footer. */
  function Body(d: Printer, f: Fragment): (r: seq<string>)
    ensures r != []
  {
    [FragmentTitle(f.id, true)]
    + (if f.sink.Some? then d.sink(f.sink.value) else [])
    + Printed(d, f.ops)
    + (if f.source.Some? then d.source(f.source.value) else [])
  }

  function Signed(lines: seq<string>, ids: seq<nat>): (r: seq<string>)
    requires lines != []
  {
    lines[..|lines| - 1] + [lines[|lines| - 1] + ": " + Names(ids)]
  }

  /** The whole text of EXPLAIN: title, sink, operators and source of a fragment, its children
      named on the last line, a blank, then the children in order. */
  function Text(d: Printer, f: Fragment): seq<string>
    decreases f, 1
  {
    OwnText(d, f) + [""] + TextAll(d, f.children)
  }

  function OwnText(d: Printer, f: Fragment): (r: seq<string>)
    ensures r != []
  {
    if f.source.Some? && f.children != [] then Signed(Body(d, f), ChildIds(f.children)) else Body(d, f)
  }

  function TextAll(d: Printer, fs: seq<Fragment>): seq<string>
    decreases fs, 0
  {
    if fs == [] then [] else Text(d, fs[0]) + [""] + TextAll(d, fs[1..])
  }

  // ----- the method -----

  method ExplainBody(d: Printer, f: Fragment, result: seq<string>) returns (r: seq<string>)
    ensures r == result + Body(d, f)
  {
    r := result + [FragmentTitle(f.id, true)];
    if f.sink.Some? { r := r + d.sink(f.sink.value); }
    ghost var before := r;
    assert r == before + Printed(d, f.ops[..0]);
    for i := 0 to |f.ops|
      invariant r == before + Printed(d, f.ops[..i])
    {
      PrintedNext(d, before, f.ops, i);
      r := r + d.op(f.ops[i]);
    }
    assert f.ops[..|f.ops|] == f.ops;
    if f.source.Some? { r := r + d.source(f.source.value); }
    BodyParts(d, f, result);
  }

  lemma PrintedNext(d: Printer, before: seq<string>, ops: seq<Node>, i: nat)
    requires i < |ops|
    ensures before + Printed(d, ops[..i + 1]) == before + Printed(d, ops[..i]) + d.op(ops[i])
  {
    assert ops[..i + 1][..i] == ops[..i];
    Associative(before, Printed(d, ops[..i]), d.op(ops[i]));
  }

  lemma BodyParts(d: Printer, f: Fragment, result: seq<string>)
    ensures var sink := if f.sink.Some? then d.sink(f.sink.value) else [];
            var source := if f.source.Some? then d.source(f.source.value) else [];
            result + [FragmentTitle(f.id, true)] + sink + Printed(d, f.ops) + source == result + Body(d, f)
  {
    var t := [FragmentTitle(f.id, true)];
    var sink := if f.sink.Some? then d.sink(f.sink.value) else [];
    var source := if f.source.Some? then d.source(f.source.value) else [];
    Associative(result, t, sink);
    Associative(result, t + sink, Printed(d, f.ops));
    Associative(result, t + sink + Printed(d, f.ops), source);
  }

  lemma SignedAfter(result: seq<string>, body: seq<string>, ids: seq<nat>)
    requires body != []
    ensures Signed(result + body, ids) == result + Signed(body, ids)
  {
    var all := result + body;
    assert all[..|all| - 1] == result + body[..|body| - 1] && all[|all| - 1] == body[|body| - 1];
  }

  method ExplainOwn(d: Printer, f: Fragment, result: seq<string>) returns (r: seq<string>)
    ensures r == result + OwnText(d, f)
  {
    r := ExplainBody(d, f, result);
    if f.source.Some? && f.children != [] {
      SignedAfter(result, Body(d, f), ChildIds(f.children));
      var footer := r[|r| - 1] + ": ";
      ghost var start := footer;
      for i := 0 to |f.children|
        invariant footer == start + Names(ChildIds(f.children)[..i])
      {
        NamesNext(start, ChildIds(f.children), i);
        if i > 0 { footer := footer + ", "; }
        footer := footer + FragmentTitle(f.children[i].id, false);
      }
      assert ChildIds(f.children)[..|f.children|] == ChildIds(f.children);
      r := r[..|r| - 1] + [footer];
    }
  }

  lemma NamesNext(start: string, ids: seq<nat>, i: nat)
    requires i < |ids|
    ensures start + Names(ids[..i + 1])
            == (if i > 0 then start + Names(ids[..i]) + ", " else start + Names(ids[..i]))
               + FragmentTitle(ids[i], false)
  {
    assert ids[..i + 1][..i] == ids[..i];
    if i > 0 {
      Associative(start, Names(ids[..i]), ", ");
      Associative(start, Names(ids[..i]) + ", ", FragmentTitle(ids[i], false));
    }
  }

  lemma {:induction false} TextAllAppend(d: Printer, a: seq<Fragment>, f: Fragment)
    ensures TextAll(d, a + [f]) == TextAll(d, a) + (Text(d, f) + [""])
    decreases |a|
  {
    if a == [] {
      assert a + [f] == [f] && [f][1..] == [];
    } else {
      assert (a + [f])[1..] == a[1..] + [f] && (a + [f])[0] == a[0];
      TextAllAppend(d, a[1..], f);
      Associative(Text(d, a[0]) + [""], TextAll(d, a[1..]), Text(d, f) + [""]);
    }
  }

  lemma TextNext(d: Printer, top: seq<string>, fs: seq<Fragment>, i: nat)
    requires i < |fs|
    ensures top + TextAll(d, fs[..i + 1]) == top + TextAll(d, fs[..i]) + Text(d, fs[i]) + [""]
  {
    var done := TextAll(d, fs[..i]);
    assert fs[..i + 1] == fs[..i] + [fs[i]];
    TextAllAppend(d, fs[..i], fs[i]);
    Associative(top + done, Text(d, fs[i]), [""]);
    Associative(top, done, Text(d, fs[i]) + [""]);
  }

  lemma TextEnd(d: Printer, f: Fragment, result: seq<string>)
    ensures result + OwnText(d, f) + [""] + TextAll(d, f.children) == result + Text(d, f)
  {
    Associative(result, OwnText(d, f), [""]);
    Associative(result, OwnText(d, f) + [""], TextAll(d, f.children));
  }

  /** ExplainFragment::Explain appends to the text and rewrites its last line. */
  method Explain(d: Printer, f: Fragment, result: seq<string>) returns (r: seq<string>)
    ensures r == result + Text(d, f)
    decreases f, 1
  {
    TextEnd(d, f, result);
    r := ExplainOwn(d, f, result);
    r := r + [""];
    r := ExplainChildren(d, f, r);
  }

  method ExplainChildren(d: Printer, f: Fragment, result: seq<string>) returns (r: seq<string>)
    ensures r == result + TextAll(d, f.children)
    decreases f, 0
  {
    r := result;
    assert f.children[..0] == [] && f.children[..|f.children|] == f.children && result + [] == result;
    for i := 0 to |f.children|
      invariant r == result + TextAll(d, f.children[..i])
    {
      TextNext(d, result, f.children, i);
      r := Explain(d, f.children[i], r);
      r := r + [""];
    }
  }

  /** A title in the head and in a footer. */
  lemma WrittenTitles()
    ensures FragmentTitle(7, true) == "FRAGMENT (7)" && FragmentTitle(7, false) == "FRAGMENT #7"
  {
    assert Decimal(7) == "7";
  }

  lemma JoinedNames(a: nat, b: nat)
    ensures Names([a, b]) == FragmentTitle(a, false) + ", " + FragmentTitle(b, false)
  {
    var ids := [a, b];
    assert ids[..1] == [a] && Names([a]) == "" + FragmentTitle(a, false);
    assert "" + FragmentTitle(a, false) == FragmentTitle(a, false);
  }

  /** A fragment of one operator and one child, each part printed in one line. */
  lemma TextOfParent(d: Printer, f: Fragment, c: Fragment, sink: string, op: string, source: string)
    requires |f.ops| == 1 && f.children == [c] && f.sink.Some? && f.source.Some?
    requires d.sink(f.sink.value) == [sink] && d.op(f.ops[0]) == [op] && d.source(f.source.value) == [source]
    ensures Text(d, f)
            == [FragmentTitle(f.id, true), sink, op, source + ": " + FragmentTitle(c.id, false), ""] + Text(d, c) + [""]
  {
    OwnOfParent(d, f, c, sink, op, source);
    OneChild(d, c);
    var own := [FragmentTitle(f.id, true), sink, op, source + ": " + FragmentTitle(c.id, false)];
    Associative(own + [""], Text(d, c), [""]);
    assert own + [""] == [own[0], own[1], own[2], own[3], ""];
  }

  lemma OwnOfParent(d: Printer, f: Fragment, c: Fragment, sink: string, op: string, source: string)
    requires |f.ops| == 1 && f.children == [c] && f.sink.Some? && f.source.Some?
    requires d.sink(f.sink.value) == [sink] && d.op(f.ops[0]) == [op] && d.source(f.source.value) == [source]
    ensures OwnText(d, f) == [FragmentTitle(f.id, true), sink, op, source + ": " + FragmentTitle(c.id, false)]
  {
    OneOperator(d, f, sink, op, source);
    OneName(c.id);
    assert ChildIds([c]) == [c.id];
  }

  lemma OneChild(d: Printer, c: Fragment)
    ensures TextAll(d, [c]) == Text(d, c) + [""]
  {
    var fs := [c];
    assert fs[1..] == [];
    assert TextAll(d, fs) == Text(d, fs[0]) + [""] + TextAll(d, fs[1..]);
  }

  lemma OneOperator(d: Printer, f: Fragment, sink: string, op: string, source: string)
    requires |f.ops| == 1 && f.sink.Some? && f.source.Some?
    requires d.sink(f.sink.value) == [sink] && d.op(f.ops[0]) == [op] && d.source(f.source.value) == [source]
    ensures Body(d, f) == [FragmentTitle(f.id, true), sink, op, source]
  {
    assert f.ops[..0] == [] && Printed(d, f.ops) == Printed(d, f.ops[..0]) + d.op(f.ops[0]);
  }

  lemma OneName(id: nat)
    ensures Names([id]) == FragmentTitle(id, false)
  {
    assert "" + FragmentTitle(id, false) == FragmentTitle(id, false);
  }

  /** The same without a child. */
  lemma TextOfLeaf(d: Printer, f: Fragment, sink: string, op: string, source: string)
    requires |f.ops| == 1 && f.children == [] && f.sink.Some? && f.source.Some?
    requires d.sink(f.sink.value) == [sink] && d.op(f.ops[0]) == [op] && d.source(f.source.value) == [source]
    ensures Text(d, f) == [FragmentTitle(f.id, true), sink, op, source, ""]
  {
    OneOperator(d, f, sink, op, source);
  }

  // ----- the text and the lines -----

  function Render(l: Line): string {
    (if l.title.Some? then FragmentTitle(l.title.value, true) else l.text)
    + (if l.refs == [] then "" else ": " + Names(l.refs))
  }

  function Rendered(lines: seq<Line>): (r: seq<string>)
    ensures |r| == |lines| && forall i :: 0 <= i < |r| ==> r[i] == Render(lines[i])
  {
    seq(|lines|, i requires 0 <= i < |lines| => Render(lines[i]))
  }

  lemma RenderedAppend(a: seq<Line>, b: seq<Line>)
    ensures Rendered(a + b) == Rendered(a) + Rendered(b)
  {
  }

  lemma {:induction false} RenderedTexts(ts: seq<string>)
    ensures Rendered(Texts(ts)) == ts
  {
    if ts != [] {
      RenderedTexts(ts[1..]);
      RenderedAppend([Line(None, ts[0], [])], Texts(ts[1..]));
      assert Render(Line(None, ts[0], [])) == ts[0];
    }
  }

  lemma {:induction false} RenderedOps(d: Printer, ops: seq<Node>)
    ensures Rendered(OpLines(d, ops)) == Printed(d, ops)
  {
    if ops != [] {
      RenderedTexts(d.op(ops[0]));
      RenderedOps(d, ops[1..]);
      RenderedAppend(Texts(d.op(ops[0])), OpLines(d, ops[1..]));
      PrintedCons(d, ops);
    }
  }

  lemma {:induction false} PrintedCons(d: Printer, ops: seq<Node>)
    requires ops != []
    ensures Printed(d, ops) == d.op(ops[0]) + Printed(d, ops[1..])
    decreases |ops|
  {
    var n := |ops| - 1;
    if n == 0 {
      assert ops[..n] == [] && ops[1..] == [];
    } else {
      PrintedCons(d, ops[..n]);
      assert ops[..n][1..] == ops[1..][..n - 1] && ops[1..][n - 1] == ops[n];
      Associative(d.op(ops[0]), Printed(d, ops[1..][..n - 1]), d.op(ops[n]));
    }
  }

  lemma RenderTitle(id: nat)
    ensures Render(Line(Some(id), "", [])) == FragmentTitle(id, true)
  {
    assert FragmentTitle(id, true) + "" == FragmentTitle(id, true);
  }

  lemma RenderedBody(d: Printer, f: Fragment)
    ensures var lines := if f.source.Some? then Top(d, f) + Texts(d.source(f.source.value)) else Top(d, f);
            Rendered(lines) == Body(d, f)
  {
    var t := [Line(Some(f.id), "", [])];
    var k := if f.sink.Some? then Texts(d.sink(f.sink.value)) else [];
    RenderTitle(f.id);
    assert Rendered(t) == [FragmentTitle(f.id, true)];
    if f.sink.Some? { RenderedTexts(d.sink(f.sink.value)); }
    RenderedOps(d, f.ops);
    RenderedAppend(t, k);
    RenderedAppend(t + k, OpLines(d, f.ops));
    if f.source.Some? {
      RenderedTexts(d.source(f.source.value));
      RenderedAppend(Top(d, f), Texts(d.source(f.source.value)));
    }
  }

  lemma {:induction false} NoRefs(lines: seq<Line>, i: nat)
    requires Refs(lines) == [] && i < |lines|
    ensures lines[i].refs == []
  {
    if i > 0 { NoRefs(lines[1..], i - 1); }
  }

  lemma RenderedFooter(lines: seq<Line>, ids: seq<nat>)
    requires lines != [] && lines[|lines| - 1].refs == [] && ids != []
    ensures Rendered(Footer(lines, ids)) == Signed(Rendered(lines), ids)
  {
    var n := |lines| - 1;
    var last := lines[n];
    assert last.refs + ids == ids;
    assert Render(last.(refs := ids)) == Render(last) + ": " + Names(ids);
  }

  lemma RenderedOwn(d: Printer, f: Fragment)
    ensures Rendered(Own(d, f)) == OwnText(d, f)
  {
    RenderedBody(d, f);
    if f.source.Some? && f.children != [] {
      var body := Top(d, f) + Texts(d.source(f.source.value));
      TopMarks(d, f);
      TextsPlain(d.source(f.source.value));
      MarksAppend(Top(d, f), Texts(d.source(f.source.value)));
      NoRefs(body, |body| - 1);
      RenderedFooter(body, ChildIds(f.children));
    }
  }

  /** The text of EXPLAIN is that of the lines whose titles and references are accounted for
      below. */
  lemma {:induction false} TextOfLines(d: Printer, f: Fragment)
    ensures Rendered(Lines(d, f)) == Text(d, f)
    decreases f, 1
  {
    RenderedOwn(d, f);
    TextOfAllLines(d, f.children);
    assert Rendered([BLANK]) == [""];
    RenderedAppend(Own(d, f), [BLANK]);
    RenderedAppend(Own(d, f) + [BLANK], LinesAll(d, f.children));
  }

  lemma {:induction false} TextOfAllLines(d: Printer, fs: seq<Fragment>)
    ensures Rendered(LinesAll(d, fs)) == TextAll(d, fs)
    decreases fs, 0
  {
    if fs != [] {
      TextOfLines(d, fs[0]);
      TextOfAllLines(d, fs[1..]);
      assert Rendered([BLANK]) == [""];
      RenderedAppend(Lines(d, fs[0]), [BLANK]);
      RenderedAppend(Lines(d, fs[0]) + [BLANK], LinesAll(d, fs[1..]));
    }
  }

  // ----- titles and references -----

  function TitleOf(l: Line): seq<nat> {
    if l.title.Some? then [l.title.value] else []
  }

  function Titles(lines: seq<Line>): seq<nat> {
    if lines == [] then [] else TitleOf(lines[0]) + Titles(lines[1..])
  }

  function Refs(lines: seq<Line>): seq<nat> {
    if lines == [] then [] else lines[0].refs + Refs(lines[1..])
  }

  lemma {:induction false} TitlesAppend(a: seq<Line>, b: seq<Line>)
    ensures Titles(a + b) == Titles(a) + Titles(b)
  {
    if a == [] {
      assert a + b == b;
    } else {
      assert (a + b)[1..] == a[1..] + b;
      TitlesAppend(a[1..], b);
      Associative(TitleOf(a[0]), Titles(a[1..]), Titles(b));
    }
  }

  lemma {:induction false} RefsAppend(a: seq<Line>, b: seq<Line>)
    ensures Refs(a + b) == Refs(a) + Refs(b)
  {
    if a == [] {
      assert a + b == b;
    } else {
      assert (a + b)[1..] == a[1..] + b;
      RefsAppend(a[1..], b);
      Associative(a[0].refs, Refs(a[1..]), Refs(b));
    }
  }

  lemma MarksAppend(a: seq<Line>, b: seq<Line>)
    ensures Titles(a + b) == Titles(a) + Titles(b) && Refs(a + b) == Refs(a) + Refs(b)
  {
    TitlesAppend(a, b);
    RefsAppend(a, b);
  }

  lemma {:induction false} TextsPlain(ts: seq<string>)
    ensures Titles(Texts(ts)) == [] && Refs(Texts(ts)) == []
  {
    if ts != [] { TextsPlain(ts[1..]); }
  }

  lemma {:induction false} OpLinesPlain(d: Printer, ops: seq<Node>)
    ensures Titles(OpLines(d, ops)) == [] && Refs(OpLines(d, ops)) == []
  {
    if ops != [] {
      TextsPlain(d.op(ops[0]));
      OpLinesPlain(d, ops[1..]);
      MarksAppend(Texts(d.op(ops[0])), OpLines(d, ops[1..]));
    }
  }

  lemma TopMarks(d: Printer, f: Fragment)
    ensures Titles(Top(d, f)) == [f.id] && Refs(Top(d, f)) == []
  {
    var t := [Line(Some(f.id), "", [])];
    var s := if f.sink.Some? then Texts(d.sink(f.sink.value)) else [];
    if f.sink.Some? { TextsPlain(d.sink(f.sink.value)); }
    OpLinesPlain(d, f.ops);
    MarksAppend(t, s);
    MarksAppend(t + s, OpLines(d, f.ops));
  }

  lemma {:induction false} FooterMarks(lines: seq<Line>, ids: seq<nat>)
    requires lines != []
    ensures Titles(Footer(lines, ids)) == Titles(lines) && Refs(Footer(lines, ids)) == Refs(lines) + ids
  {
    var n := |lines| - 1;
    var front, last := lines[..n], lines[n];
    assert lines == front + [last];
    assert Footer(lines, ids) == front + [last.(refs := last.refs + ids)];
    MarksAppend(front, [last]);
    MarksAppend(front, [last.(refs := last.refs + ids)]);
  }

  lemma OwnMarks(d: Printer, f: Fragment)
    ensures Titles(Own(d, f)) == [f.id]
    ensures Refs(Own(d, f)) == if f.source.Some? then ChildIds(f.children) else []
  {
    TopMarks(d, f);
    if f.source.Some? {
      TextsPlain(d.source(f.source.value));
      var body := Top(d, f) + Texts(d.source(f.source.value));
      MarksAppend(Top(d, f), Texts(d.source(f.source.value)));
      FooterMarks(body, ChildIds(f.children));
    }
  }

  /** Every fragment of any tree is given a title once, in the order of the tree. */
  lemma {:induction false} TitlesOfTree(d: Printer, f: Fragment)
    ensures Titles(Lines(d, f)) == Ids(f)
    decreases f, 1
  {
    OwnMarks(d, f);
    TitlesOfTrees(d, f.children);
    MarksGlue(Own(d, f), LinesAll(d, f.children));
  }

  lemma {:induction false} TitlesOfTrees(d: Printer, fs: seq<Fragment>)
    ensures Titles(LinesAll(d, fs)) == IdsAll(fs)
    decreases fs, 0
  {
    if fs != [] {
      TitlesOfTree(d, fs[0]);
      TitlesOfTrees(d, fs[1..]);
      MarksCons(d, fs);
    }
  }

  /** The fragments that no footer names: the children of a fragment without a source. */
  function Unnamed(f: Fragment): seq<nat>
    decreases f, 1
  {
    (if f.source.Some? then [] else ChildIds(f.children)) + UnnamedAll(f.children)
  }

  function UnnamedAll(fs: seq<Fragment>): seq<nat>
    decreases fs, 0
  {
    if fs == [] then [] else Unnamed(fs[0]) + UnnamedAll(fs[1..])
  }

  function Count(s: seq<nat>, k: nat): nat {
    multiset(s)[k]
  }

  lemma CountAppend(a: seq<nat>, b: seq<nat>, k: nat)
    ensures Count(a + b, k) == Count(a, k) + Count(b, k)
  {
  }

  /** In any tree the first fragment, the fragments named by footers and the unnamed ones are
      all its fragments, each once. */
  lemma {:induction false} RefsOfTree(d: Printer, f: Fragment, k: nat)
    ensures Count([f.id], k) + Count(Refs(Lines(d, f)), k) + Count(Unnamed(f), k) == Count(Ids(f), k)
    decreases f, 1
  {
    var named := if f.source.Some? then ChildIds(f.children) else [];
    var rest := if f.source.Some? then [] else ChildIds(f.children);
    OwnMarks(d, f);
    MarksGlue(Own(d, f), LinesAll(d, f.children));
    RefsOfTrees(d, f.children, k);
    CountAppend(named, Refs(LinesAll(d, f.children)), k);
    CountAppend(rest, UnnamedAll(f.children), k);
    CountAppend([f.id], IdsAll(f.children), k);
  }

  lemma {:induction false} RefsOfTrees(d: Printer, fs: seq<Fragment>, k: nat)
    ensures Count(ChildIds(fs), k) + Count(Refs(LinesAll(d, fs)), k) + Count(UnnamedAll(fs), k) == Count(IdsAll(fs), k)
    decreases fs, 0
  {
    if fs != [] {
      RefsOfTree(d, fs[0], k);
      RefsOfTrees(d, fs[1..], k);
      MarksCons(d, fs);
      CountAppend([fs[0].id], ChildIds(fs[1..]), k);
      CountAppend(Refs(Lines(d, fs[0])), Refs(LinesAll(d, fs[1..])), k);
      CountAppend(Unnamed(fs[0]), UnnamedAll(fs[1..]), k);
      CountAppend(Ids(fs[0]), IdsAll(fs[1..]), k);
    }
  }

  lemma MarksCons(d: Printer, fs: seq<Fragment>)
    requires fs != []
    ensures Titles(LinesAll(d, fs)) == Titles(Lines(d, fs[0])) + Titles(LinesAll(d, fs[1..]))
    ensures Refs(LinesAll(d, fs)) == Refs(Lines(d, fs[0])) + Refs(LinesAll(d, fs[1..]))
  {
    MarksGlue(Lines(d, fs[0]), LinesAll(d, fs[1..]));
  }

  lemma MarksGlue(a: seq<Line>, b: seq<Line>)
    ensures Titles(a + [BLANK] + b) == Titles(a) + Titles(b) && Refs(a + [BLANK] + b) == Refs(a) + Refs(b)
  {
    var l := BLANK;
    OneMark(l);
    MarksAppend(a, [l]);
    MarksAppend(a + [l], b);
    assert Titles(a) + [] == Titles(a) && Refs(a) + [] == Refs(a);
  }

  lemma OneMark(l: Line)
    ensures Titles([l]) == TitleOf(l) && Refs([l]) == l.refs
  {
    assert [l][1..] == [];
    assert TitleOf(l) + [] == TitleOf(l) && l.refs + [] == l.refs;
  }

  /** No EXPLAIN PIPELINE ends a fragment that is not a root. */
  predicate PipelineOnTop(p: Plan, root: bool)
    decreases Weight(p), 0
  {
    && (Explains(p) && Bottom(p).node.explain == Pipeline ==> root)
    && AllPipelineOnTop(Below(p), Explains(p))
  }

  predicate AllPipelineOnTop(ps: seq<Plan>, root: bool)
    decreases WeightAll(ps), 1
  {
    ps == [] || (PipelineOnTop(ps[0], root) && AllPipelineOnTop(ps[1..], root))
  }

  lemma {:induction false} CutIsNamedIff(p: Plan, id: nat, sink: SinkType)
    requires Accepts(p)
    ensures Unnamed(Cut(p, id, sink)) == [] <==> PipelineOnTop(p, sink == ToResult)
    decreases Weight(p), 0
  {
    BottomAccepted(p);
    AllNamedIff(Below(p), id + 1, ChildSink(p));
    ChildCount(Below(p), id + 1, ChildSink(p));
    if Explains(p) { ExplainedChildren(p, id, sink); }
  }

  lemma {:induction false} AllNamedIff(ps: seq<Plan>, next: nat, sink: SinkType)
    requires AllAccepted(ps)
    ensures UnnamedAll(CutAll(ps, next, sink)) == [] <==> AllPipelineOnTop(ps, sink == ToResult)
    decreases WeightAll(ps), 1
  {
    if ps != [] {
      CutIsNamedIff(ps[0], next, sink);
      AllNamedIff(ps[1..], next + Size(ps[0]), sink);
      CutCons(ps, next, sink);
      UnnamedCons(Cut(ps[0], next, sink), CutAll(ps[1..], next + Size(ps[0]), sink));
    }
  }

  lemma UnnamedCons(f: Fragment, fs: seq<Fragment>)
    ensures UnnamedAll([f] + fs) == Unnamed(f) + UnnamedAll(fs)
  {
    assert ([f] + fs)[1..] == fs;
  }

  lemma AddUpIff(id: nat, refs: seq<nat>, u: seq<nat>, ids: seq<nat>)
    requires forall k: nat :: Count([id], k) + Count(refs, k) + Count(u, k) == Count(ids, k)
    ensures multiset(refs) + multiset{id} == multiset(ids) <==> u == []
  {
    var all := multiset(refs) + multiset{id};
    if u == [] {
      forall k: nat ensures all[k] == multiset(ids)[k] { assert Count([id], k) == multiset{id}[k]; }
    } else {
      var k := u[0];
      assert Count(u, k) > 0 && Count([id], k) == multiset{id}[k];
      assert all[k] < multiset(ids)[k];
    }
  }

  /** The fragments are the first one and the named ones exactly when there are no others. */
  lemma NoneUnnamedIff(d: Printer, f: Fragment)
    ensures multiset(Refs(Lines(d, f))) + multiset{f.id} == multiset(Ids(f)) <==> Unnamed(f) == []
  {
    var refs, ids, u := Refs(Lines(d, f)), Ids(f), Unnamed(f);
    forall k: nat ensures Count([f.id], k) + Count(refs, k) + Count(u, k) == Count(ids, k) { RefsOfTree(d, f, k); }
    AddUpIff(f.id, refs, u, ids);
  }

  /** EXPLAIN on freshly built fragments prints every title once, in increasing order. */
  lemma TitlesOfBuilt(d: Printer, p: Plan, next: nat)
    ensures BuildRoot(p, next).Built? <==> Accepts(p)
    ensures BuildRoot(p, next).Built? ==>
              var f := BuildRoot(p, next).frag;
              Titles(Lines(d, f)) == Ids(f) && Within(Ids(f), next, BuildRoot(p, next).next)
  {
    RootIsCut(p, next);
    if Accepts(p) {
      TitlesOfTree(d, Cut(p, next, ToResult));
      IdsIncrease(p, next, ToResult);
    }
  }

  /** Every fragment but the root is named once by a footer, exactly when no EXPLAIN PIPELINE
      ends a fragment that sends to a queue. */
  lemma RefsOfBuiltIff(d: Printer, p: Plan, next: nat)
    requires Accepts(p)
    ensures BuildRoot(p, next).Built?
    ensures var f := BuildRoot(p, next).frag;
            multiset(Refs(Lines(d, f))) + multiset{f.id} == multiset(Ids(f)) <==> PipelineOnTop(p, true)
  {
    RootIsCut(p, next);
    CutIsNamedIff(p, next, ToResult);
    NoneUnnamedIff(d, Cut(p, next, ToResult));
  }
}
