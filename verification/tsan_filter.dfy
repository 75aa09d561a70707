/** The filter of sanitizer reports: filter_warning of
    scripts/collect_thread_sanitizer_log.py. */
module TsanFilter {
  import opened Basics

  const DELIMITER := "=================="

  predicate OccursAt(line: string, word: string, i: nat) {
    i + |word| <= |line| && line[i..i + |word|] == word
  }

  predicate Contains(line: string, word: string) {
    exists i: nat :: i <= |line| && OccursAt(line, word, i)
  }

  /** Contains is Python's `in` on strings. */
  lemma ContainsIff(line: string, word: string)
    ensures Contains(line, word) <==> exists a: string, b: string :: line == a + word + b
  {
    if i: nat :| i <= |line| && OccursAt(line, word, i) {
      assert line == line[..i] + word + line[i + |word|..];
    }
    if a: string, b: string :| line == a + word + b { assert OccursAt(line, word, |a|); }
  }

  /** The delimiter is a row of eighteen equals signs. */
  lemma DelimiterIs()
    ensures |DELIMITER| == 18 && forall i :: 0 <= i < 18 ==> DELIMITER[i] == '='
  {
  }

  predicate Delimits(line: string, d: string) {
    Contains(line, d)
  }

  /** A line delimits when the delimiter stands somewhere in it. */
  lemma DelimitsIff(line: string, d: string)
    ensures Delimits(line, d) <==> exists a: string, b: string :: line == a + d + b
  {
    ContainsIff(line, d);
  }

  predicate Matches(line: string, keywords: seq<string>) {
    exists k :: 0 <= k < |keywords| && Contains(line, keywords[k])
  }

  // ----- what is promised -----

  /** A report: the lines between a delimiter and the next. */
  datatype Report = Report(open: string, inner: seq<string>, close: string)

  /** The number of lines before the first delimiter. */
  function Ahead(lines: seq<string>, d: string): (n: nat)
    ensures n <= |lines|
  {
    if lines == [] || Delimits(lines[0], d) then 0 else 1 + Ahead(lines[1..], d)
  }

  lemma {:induction false} AheadIsFirst(lines: seq<string>, d: string)
    ensures var n := Ahead(lines, d);
            (forall i :: 0 <= i < n ==> !Delimits(lines[i], d)) && (n < |lines| ==> Delimits(lines[n], d))
  {
    if lines != [] && !Delimits(lines[0], d) { AheadIsFirst(lines[1..], d); }
  }

  /** The closed reports of a log: delimiters open and close in turn. */
  ghost function Reports(lines: seq<string>, d: string): seq<Report>
    decreases |lines|, 1
  {
    var a := Ahead(lines, d);
    if a == |lines| then [] else ReportsFrom(lines[a], [], lines[a + 1..], d)
  }

  /** The reports from inside one with `inner` read so far. */
  ghost function ReportsFrom(open: string, inner: seq<string>, rest: seq<string>, d: string): seq<Report>
    decreases |rest|, 0
  {
    var b := Ahead(rest, d);
    if b == |rest| then [] else [Report(open, inner + rest[..b], rest[b])] + Reports(rest[b + 1..], d)
  }

  ghost predicate Clean(lines: seq<string>, keywords: seq<string>) {
    forall i :: 0 <= i < |lines| ==> !Matches(lines[i], keywords)
  }

  /** The reports whose inner lines have no keyword. */
  ghost function Keep(reports: seq<Report>, keywords: seq<string>): seq<Report> {
    if reports == [] then []
    else KeepOne(reports[0], keywords) + Keep(reports[1..], keywords)
  }

  ghost function KeepOne(r: Report, keywords: seq<string>): seq<Report> {
    if Clean(r.inner, keywords) then [r] else []
  }

  function Text(r: Report): seq<string> {
    [r.open] + r.inner + [r.close]
  }

  ghost function Lines(reports: seq<Report>): seq<string> {
    if reports == [] then [] else Text(reports[0]) + Lines(reports[1..])
  }

  ghost function Kept(lines: seq<string>, keywords: seq<string>, d: string): seq<string> {
    Lines(Keep(Reports(lines, d), keywords))
  }

  // ----- the loop -----

  lemma AheadCons(line: string, rest: seq<string>, d: string)
    ensures Ahead([line] + rest, d) == if Delimits(line, d) then 0 else 1 + Ahead(rest, d)
  {
    assert ([line] + rest)[1..] == rest;
  }

  lemma ConsDrop(line: string, rest: seq<string>, k: nat)
    requires k < |rest|
    ensures ([line] + rest)[k + 1] == rest[k] && ([line] + rest)[k + 2..] == rest[k + 1..]
  {
  }

  lemma OutsideStep(line: string, rest: seq<string>, d: string)
    ensures Reports([line] + rest, d) == if Delimits(line, d) then ReportsFrom(line, [], rest, d) else Reports(rest, d)
  {
    AheadCons(line, rest, d);
    var a := Ahead(rest, d);
    if Delimits(line, d) {
      assert ([line] + rest)[1..] == rest;
    } else if a < |rest| {
      ConsDrop(line, rest, a);
    }
  }

  lemma InsideStep(open: string, inner: seq<string>, line: string, rest: seq<string>, d: string)
    ensures ReportsFrom(open, inner, [line] + rest, d) ==
            if Delimits(line, d) then [Report(open, inner, line)] + Reports(rest, d)
                else ReportsFrom(open, inner + [line], rest, d)
  {
    AheadCons(line, rest, d);
    var lines, b := [line] + rest, Ahead(rest, d);
    if Delimits(line, d) {
      assert lines[1..] == rest && inner + lines[..0] == inner;
    } else if b < |rest| {
      assert inner + lines[..b + 1] == inner + [line] + rest[..b];
      assert lines[b + 1] == rest[b] && lines[b + 2..] == rest[b + 1..];
    }
  }

  lemma {:induction false} KeepAppend(reports: seq<Report>, r: Report, keywords: seq<string>)
    ensures Keep(reports + [r], keywords) == Keep(reports, keywords) + KeepOne(r, keywords)
  {
    if reports == [] {
      assert Keep([r], keywords) == KeepOne(r, keywords) + Keep([r][1..], keywords);
      assert reports + [r] == [r];
    } else {
      assert (reports + [r])[1..] == reports[1..] + [r];
      KeepAppend(reports[1..], r, keywords);
    }
  }

  lemma {:induction false} LinesAppend(reports: seq<Report>, r: Report)
    ensures Lines(reports + [r]) == Lines(reports) + Text(r)
  {
    if reports == [] {
      assert Lines([r]) == Text(r) + Lines([r][1..]);
      assert reports + [r] == [r];
    } else {
      assert (reports + [r])[1..] == reports[1..] + [r];
      LinesAppend(reports[1..], r);
    }
  }

  lemma KeptAppend(done: seq<Report>, r: Report, keywords: seq<string>)
    ensures Lines(Keep(done + [r], keywords)) ==
            Lines(Keep(done, keywords)) + if Clean(r.inner, keywords) then Text(r) else []
  {
    KeepAppend(done, r, keywords);
    if Clean(r.inner, keywords) {
      LinesAppend(Keep(done, keywords), r);
    } else {
      assert Keep(done, keywords) + [] == Keep(done, keywords);
    }
  }

  lemma CleanAppend(lines: seq<string>, line: string, keywords: seq<string>)
    ensures Clean(lines + [line], keywords) <==> Clean(lines, keywords) && !Matches(line, keywords)
  {
    var all := lines + [line];
    assert all[|lines|] == line && forall i :: 0 <= i < |lines| ==> all[i] == lines[i];
  }

  /** Where the loop stands: outside a report, or inside one. */
  datatype Place = Outside | Inside(open: string, inner: seq<string>)

  ghost function Coming(p: Place, rest: seq<string>, d: string): seq<Report> {
    match p
    case Outside => Reports(rest, d)
    case Inside(open, inner) => ReportsFrom(open, inner, rest, d)
  }

  ghost function Moved(p: Place, line: string, d: string): Place {
    match p
    case Outside => if Delimits(line, d) then Inside(line, []) else Outside
    case Inside(open, inner) => if Delimits(line, d) then Outside else Inside(open, inner + [line])
  }

  ghost function Closed(p: Place, line: string, d: string): seq<Report> {
    if p.Inside? && Delimits(line, d) then [Report(p.open, p.inner, line)] else []
  }

  lemma ComingStep(p: Place, line: string, rest: seq<string>, d: string)
    ensures Coming(p, [line] + rest, d) == Closed(p, line, d) + Coming(Moved(p, line, d), rest, d)
  {
    match p
    case Outside => OutsideStep(line, rest, d);
    case Inside(open, inner) => InsideStep(open, inner, line, rest, d);
  }

  lemma Progress(lines: seq<string>, n: nat, done: seq<Report>, p: Place, d: string)
    requires n < |lines| && Reports(lines, d) == done + Coming(p, lines[n..], d)
    ensures Reports(lines, d) == done + Closed(p, lines[n], d) + Coming(Moved(p, lines[n], d), lines[n + 1..], d)
  {
    assert lines[n..] == [lines[n]] + lines[n + 1..];
    ComingStep(p, lines[n], lines[n + 1..], d);
  }

  lemma ComingEnds(p: Place, d: string)
    ensures Coming(p, [], d) == []
  {
  }

  /** The loop variables against the place. */
  ghost predicate Agrees(p: Place, inWarning: bool, skip: bool, warning: seq<string>, keywords: seq<string>) {
    match p
    case Outside => !inWarning && !skip && warning == []
    case Inside(open, inner) =>
      && inWarning && (skip <==> !Clean(inner, keywords))
      && warning == if skip then [] else [open] + inner
  }

  method FilterWarning(lines: seq<string>, keywords: seq<string>) returns (ret: seq<string>)
    ensures ret == Kept(lines, keywords, DELIMITER)
  {
    ret := [];
    var warning: seq<string>, inWarning, skip := [], false, false;
    ghost var done: seq<Report>, place := [], Outside;
    assert lines[0..] == lines;
    for n := 0 to |lines|
      invariant Agrees(place, inWarning, skip, warning, keywords)
      invariant ret == Lines(Keep(done, keywords))
      invariant Reports(lines, DELIMITER) == done + Coming(place, lines[n..], DELIMITER)
    {
      Progress(lines, n, done, place, DELIMITER);
      ret, warning, inWarning, skip := OneLine(lines[n], keywords, ret, warning, inWarning, skip, DELIMITER, done,
          place);
      done, place := done + Closed(place, lines[n], DELIMITER), Moved(place, lines[n], DELIMITER);
    }
    ComingEnds(place, DELIMITER);
    assert done + [] == done;
  }

  /** One round of the loop. */
  method OneLine(line: string, keywords: seq<string>, ret0: seq<string>, warning0: seq<string>, inWarning0: bool,
                 skip0: bool, d: string, ghost done: seq<Report>, ghost place: Place)
    returns (ret: seq<string>, warning: seq<string>, inWarning: bool, skip: bool)
    requires Agrees(place, inWarning0, skip0, warning0, keywords) && ret0 == Lines(Keep(done, keywords))
    ensures Agrees(Moved(place, line, d), inWarning, skip, warning, keywords)
    ensures ret == Lines(Keep(done + Closed(place, line, d), keywords))
  {
    ret, warning, inWarning, skip := ret0, warning0, inWarning0, skip0;
    assert done + [] == done;
    if Contains(line, d) {
      if place.Inside? { KeptAppend(done, Report(place.open, place.inner, line), keywords); }
      inWarning := !inWarning;
      if !skip { warning := warning + [line]; }
      if !inWarning {
        if !skip { ret := ret + warning; }
        warning, skip := [], false;
      }
    } else if inWarning {
      CleanAppend(place.inner, line, keywords);
      if !skip {
        skip := HasKeyword(line, keywords);
        warning := if skip then [] else warning + [line];
      }
    }
  }

  method HasKeyword(line: string, keywords: seq<string>) returns (found: bool)
    ensures found <==> Matches(line, keywords)
  {
    for k := 0 to |keywords|
      invariant forall i :: 0 <= i < k ==> !Contains(line, keywords[i])
    {
      if Contains(line, keywords[k]) { return true; }
    }
    found := false;
  }

  // ----- filtering twice -----

  ghost predicate IsReport(r: Report, d: string) {
    Delimits(r.open, d) && Delimits(r.close, d) && forall i :: 0 <= i < |r.inner| ==> !Delimits(r.inner[i], d)
  }

  ghost predicate AreReports(rs: seq<Report>, d: string) {
    forall i :: 0 <= i < |rs| ==> IsReport(rs[i], d)
  }

  lemma FirstReport(open: string, rest: seq<string>, d: string)
    requires Delimits(open, d) && Ahead(rest, d) < |rest|
    ensures var b := Ahead(rest, d); IsReport(Report(open, [] + rest[..b], rest[b]), d)
  {
    AheadIsFirst(rest, d);
  }

  lemma {:induction false} ReportsAre(lines: seq<string>, d: string)
    ensures AreReports(Reports(lines, d), d)
    decreases |lines|
  {
    var a := Ahead(lines, d);
    if a < |lines| {
      var rest := lines[a + 1..];
      var b := Ahead(rest, d);
      if b < |rest| {
        ReportsAre(rest[b + 1..], d);
        AheadIsFirst(lines, d);
        FirstReport(lines[a], rest, d);
      }
    }
  }

  lemma {:induction false} InnerLines(open: string, read: seq<string>, inner: seq<string>, close: string,
        rest: seq<string>, d: string)
    requires Delimits(close, d) && forall i :: 0 <= i < |inner| ==> !Delimits(inner[i], d)
    ensures ReportsFrom(open, read, inner + [close] + rest, d) == [Report(open, read + inner, close)] + Reports(rest, d)
    decreases |inner|
  {
    if inner == [] {
      assert inner + [close] + rest == [close] + rest && read + inner == read;
      InsideStep(open, read, close, rest, d);
    } else {
      assert inner + [close] + rest == [inner[0]] + (inner[1..] + [close] + rest);
      InsideStep(open, read, inner[0], inner[1..] + [close] + rest, d);
      InnerLines(open, read + [inner[0]], inner[1..], close, rest, d);
      assert read + [inner[0]] + inner[1..] == read + inner;
    }
  }

  /** Reading back the lines of reports gives the reports. */
  lemma {:induction false} ReportsOfLines(rs: seq<Report>, d: string)
    requires AreReports(rs, d)
    ensures Reports(Lines(rs), d) == rs
  {
    if rs != [] {
      var r, rest := rs[0], Lines(rs[1..]);
      ReportsOfLines(rs[1..], d);
      assert Lines(rs) == [r.open] + (r.inner + [r.close] + rest);
      OutsideStep(r.open, r.inner + [r.close] + rest, d);
      InnerLines(r.open, [], r.inner, r.close, rest, d);
      assert [] + r.inner == r.inner;
    }
  }

  /** Lines without a delimiter before a report. */
  datatype Piece = Piece(gap: seq<string>, report: Report)

  ghost predicate Plain(lines: seq<string>, d: string) {
    forall i :: 0 <= i < |lines| ==> !Delimits(lines[i], d)
  }

  /** The end of a log: lines without a delimiter, and maybe a report that is not closed. */
  ghost predicate Unclosed(lines: seq<string>, d: string) {
    Plain(lines, d) || exists k :: 0 <= k < |lines| && Plain(lines[..k], d) && Plain(lines[k + 1..], d)
  }

  function Log(pieces: seq<Piece>, end: seq<string>): seq<string> {
    if pieces == [] then end else pieces[0].gap + (Text(pieces[0].report) + Log(pieces[1..], end))
  }

  function ReportsIn(pieces: seq<Piece>): (r: seq<Report>)
    ensures |r| == |pieces| && forall i :: 0 <= i < |r| ==> r[i] == pieces[i].report
  {
    seq(|pieces|, i requires 0 <= i < |pieces| => pieces[i].report)
  }

  ghost predicate ArePieces(pieces: seq<Piece>, d: string) {
    forall i :: 0 <= i < |pieces| ==> Plain(pieces[i].gap, d) && IsReport(pieces[i].report, d)
  }

  lemma {:induction false} PlainAhead(gap: seq<string>, rest: seq<string>, d: string)
    requires Plain(gap, d)
    ensures Reports(gap + rest, d) == Reports(rest, d)
    decreases |gap|
  {
    if gap == [] {
      assert gap + rest == rest;
    } else {
      assert gap + rest == [gap[0]] + (gap[1..] + rest);
      OutsideStep(gap[0], gap[1..] + rest, d);
      PlainAhead(gap[1..], rest, d);
    }
  }

  lemma {:induction false} PlainInside(open: string, inner: seq<string>, rest: seq<string>, d: string)
    requires Plain(rest, d)
    ensures ReportsFrom(open, inner, rest, d) == []
  {
    AheadIsFirst(rest, d);
  }

  lemma UnclosedHasNone(end: seq<string>, d: string)
    requires Unclosed(end, d)
    ensures Reports(end, d) == []
  {
    if Plain(end, d) {
      assert end + [] == end;
      PlainAhead(end, [], d);
    } else {
      var k :| 0 <= k < |end| && Plain(end[..k], d) && Plain(end[k + 1..], d);
      assert end == end[..k] + ([end[k]] + end[k + 1..]);
      PlainAhead(end[..k], [end[k]] + end[k + 1..], d);
      OutsideStep(end[k], end[k + 1..], d);
      assert Delimits(end[k], d) || Plain(end, d);
      PlainInside(end[k], [], end[k + 1..], d);
    }
  }

  /** Whatever stands between them, the reports of a log are its closed reports, in order. */
  lemma {:induction false} ReportsOfLog(pieces: seq<Piece>, end: seq<string>, d: string)
    requires ArePieces(pieces, d) && Unclosed(end, d)
    ensures Reports(Log(pieces, end), d) == ReportsIn(pieces)
    decreases |pieces|
  {
    if pieces == [] {
      UnclosedHasNone(end, d);
    } else {
      ReportAhead(pieces[0], Log(pieces[1..], end), d);
      ReportsOfLog(pieces[1..], end, d);
      assert ReportsIn(pieces) == [pieces[0].report] + ReportsIn(pieces[1..]);
    }
  }

  lemma ReportAhead(p: Piece, rest: seq<string>, d: string)
    requires Plain(p.gap, d) && IsReport(p.report, d)
    ensures Reports(p.gap + (Text(p.report) + rest), d) == [p.report] + Reports(rest, d)
  {
    var r := p.report;
    PlainAhead(p.gap, Text(r) + rest, d);
    assert Text(r) + rest == [r.open] + (r.inner + [r.close] + rest);
    OutsideStep(r.open, r.inner + [r.close] + rest, d);
    InnerLines(r.open, [], r.inner, r.close, rest, d);
    assert [] + r.inner == r.inner;
  }

  lemma CutInThree(lines: seq<string>, a: nat, b: nat)
    requires a + 1 + b < |lines|
    ensures var inside := lines[a + 1..];
            lines == lines[..a] + (Text(Report(lines[a], inside[..b], inside[b])) + inside[b + 1..])
  {
    var inside := lines[a + 1..];
    assert inside == inside[..b] + [inside[b]] + inside[b + 1..];
    assert lines == lines[..a] + ([lines[a]] + inside);
  }

  /** The first piece of a log that has a closed report. */
  lemma FirstPiece(lines: seq<string>, d: string) returns (p: Option<Piece>, rest: seq<string>)
    ensures p.None? ==> Unclosed(lines, d)
    ensures p.Some? ==> Plain(p.value.gap, d) && IsReport(p.value.report, d)
    ensures p.Some? ==> |rest| < |lines| && lines == p.value.gap + (Text(p.value.report) + rest)
  {
    p, rest := None, [];
    var a := Ahead(lines, d);
    AheadIsFirst(lines, d);
    if a < |lines| {
      var inside := lines[a + 1..];
      var b := Ahead(inside, d);
      AheadIsFirst(inside, d);
      if b < |inside| {
        p, rest := Some(Piece(lines[..a], Report(lines[a], inside[..b], inside[b]))), inside[b + 1..];
        CutInThree(lines, a, b);
      } else {
        assert Plain(lines[..a], d) && Plain(lines[a + 1..], d);
      }
    }
  }

  /** Every log consists of such pieces. */
  lemma {:induction false} EveryLog(lines: seq<string>, d: string) returns (pieces: seq<Piece>, end: seq<string>)
    ensures ArePieces(pieces, d) && Unclosed(end, d) && lines == Log(pieces, end)
    decreases |lines|
  {
    var p, rest := FirstPiece(lines, d);
    if p.None? {
      pieces, end := [], lines;
    } else {
      var more;
      more, end := EveryLog(rest, d);
      pieces := [p.value] + more;
      assert pieces[1..] == more;
    }
  }

  /** Of the reports exactly those are kept, as often as they come, of which no inner line has
      a keyword in it. */
  lemma {:induction false} KeptReports(rs: seq<Report>, keywords: seq<string>, r: Report)
    ensures multiset(Keep(rs, keywords))[r]
            == if exists i, k :: 0 <= i < |r.inner| && 0 <= k < |keywords| && Contains(r.inner[i], keywords[k]) then 0
               else multiset(rs)[r]
  {
    KeptCount(rs, keywords, r);
    if i, k :| 0 <= i < |r.inner| && 0 <= k < |keywords| && Contains(r.inner[i], keywords[k]) {
      assert Matches(r.inner[i], keywords);
    } else {
      assert Clean(r.inner, keywords);
    }
  }

  lemma {:induction false} KeptCount(rs: seq<Report>, keywords: seq<string>, r: Report)
    ensures multiset(Keep(rs, keywords))[r] == if Clean(r.inner, keywords) then multiset(rs)[r] else 0
  {
    if rs != [] {
      KeptCount(rs[1..], keywords, r);
      assert rs == [rs[0]] + rs[1..];
    }
  }

  /** What is kept stays in order. */
  lemma {:induction false} KeepInOrder(a: seq<Report>, b: seq<Report>, keywords: seq<string>)
    ensures Keep(a + b, keywords) == Keep(a, keywords) + Keep(b, keywords)
    decreases |a|
  {
    if a == [] {
      assert a + b == b;
    } else {
      assert (a + b)[1..] == a[1..] + b;
      KeepInOrder(a[1..], b, keywords);
    }
  }

  lemma {:induction false} KeepAre(rs: seq<Report>, keywords: seq<string>, d: string)
    requires AreReports(rs, d)
    ensures AreReports(Keep(rs, keywords), d)
  {
    if rs != [] { KeepAre(rs[1..], keywords, d); }
  }

  lemma MatchesUnion(line: string, first: seq<string>, second: seq<string>)
    ensures Matches(line, first + second) <==> Matches(line, first) || Matches(line, second)
  {
    var all := first + second;
    if k :| 0 <= k < |second| && Contains(line, second[k]) { assert Contains(line, all[|first| + k]); }
    if k :| 0 <= k < |first| && Contains(line, first[k]) { assert Contains(line, all[k]); }
  }

  lemma CleanUnion(lines: seq<string>, first: seq<string>, second: seq<string>)
    ensures Clean(lines, first + second) <==> Clean(lines, first) && Clean(lines, second)
  {
    forall i | 0 <= i < |lines| ensures Matches(lines[i], first + second)
        <==> Matches(lines[i], first) || Matches(lines[i], second) {
      MatchesUnion(lines[i], first, second);
    }
  }

  lemma {:induction false} KeepTwice(rs: seq<Report>, first: seq<string>, second: seq<string>)
    ensures Keep(Keep(rs, first), second) == Keep(rs, first + second)
  {
    if rs != [] {
      KeepTwice(rs[1..], first, second);
      CleanUnion(rs[0].inner, first, second);
      if Clean(rs[0].inner, first) {
        assert Keep(rs, first)[0] == rs[0] && Keep(rs, first)[1..] == Keep(rs[1..], first);
      } else {
        assert Keep(rs, first) == Keep(rs[1..], first);
      }
    }
  }

  /** Filtering by one list of keywords and then by another is filtering by both. */
  lemma FilterTwice(lines: seq<string>, first: seq<string>, second: seq<string>, d: string)
    ensures Kept(Kept(lines, first, d), second, d) == Kept(lines, first + second, d)
  {
    ReportsAre(lines, d);
    KeepAre(Reports(lines, d), first, d);
    ReportsOfLines(Keep(Reports(lines, d), first), d);
    KeepTwice(Reports(lines, d), first, second);
  }

  lemma {:induction false} KeepSame(rs: seq<Report>, keywords: seq<string>)
    ensures Keep(rs, keywords + keywords) == Keep(rs, keywords)
  {
    if rs != [] {
      KeepSame(rs[1..], keywords);
      CleanUnion(rs[0].inner, keywords, keywords);
    }
  }

  /** Filtering again changes nothing. */
  lemma FilterIdempotent(lines: seq<string>, keywords: seq<string>, d: string)
    ensures Kept(Kept(lines, keywords, d), keywords, d) == Kept(lines, keywords, d)
  {
    FilterTwice(lines, keywords, keywords, d);
    KeepSame(Reports(lines, d), keywords);
  }
}
