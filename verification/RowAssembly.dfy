// Logical rows from the body lines of a statement (worker/statement_extraction.py, assemble_rows):
// two index-driven loops that wrap labels over lines and attach values.
module RowAssembly {
  import opened Prelude

  const MAX_WRAP_LINES := 4
  const WRAP_GAP_RATIO := 1.0

  /** A body line: the words of its label (if any), whether it carries values, and its vertical extent. */
  datatype BodyLine = BodyLine(words: Option<string>, hasValues: bool, labelX0: real, y0: real, y1: real) {
    predicate HasLabel() { words.Some? }
    function LabelText(): string { if words.Some? then words.value else "" }
    predicate Kept() { words.Some? || hasValues }
  }

  /** The label rules, left abstract: lower-case start, connector-word end, and a closing colon. */
  datatype Rules = Rules(lowerStart: string -> bool, connectorEnd: string -> bool, colonEnd: string -> bool)

  datatype RowKind = Values | Section | Unlabelled

  /** start: the index of the row's first body line. */
  datatype Row = Row(kind: RowKind, start: nat, group: seq<BodyLine>, section: Option<string>)

  predicate Close(a: BodyLine, b: BodyLine) {
    b.y0 - a.y1 <= WRAP_GAP_RATIO * Max(a.y1 - a.y0, b.y1 - b.y0)
  }

  predicate Continues(rules: Rules, text: string, x0: real, b: BodyLine) {
    && b.HasLabel() && !rules.colonEnd(text)
    && b.labelX0 >= x0 - 3.0
    && (rules.lowerStart(b.LabelText()) || rules.connectorEnd(text))
  }

  function Join(group: seq<BodyLine>): string {
    if group == [] then ""
    else if |group| == 1 then group[0].LabelText()
    else group[0].LabelText() + " " + Join(group[1..])
  }

  // ---------------------------------------------------------------- what the rows promise

  /** The lines that carry something, in order. */
  function KeptLines(body: seq<BodyLine>): seq<BodyLine> {
    if body == [] then []
    else (if body[0].Kept() then [body[0]] else []) + KeptLines(body[1..])
  }

  function Grouped(rows: seq<Row>): seq<BodyLine> {
    if rows == [] then [] else Grouped(rows[..|rows| - 1]) + rows[|rows| - 1].group
  }

  /** The text of the latest section row among the first k rows. */
  function LatestSection(rows: seq<Row>, k: nat): Option<string>
    requires k <= |rows|
  {
    if k == 0 then None
    else if rows[k - 1].kind == Section then Some(Join(rows[k - 1].group))
    else LatestSection(rows, k - 1)
  }

  ghost predicate HasValueLine(group: seq<BodyLine>) {
    exists g :: g in group && g.hasValues
  }

  /** A row is a contiguous stretch of the body, of bounded length, whose kind is what it contains. */
  ghost predicate WellFormedRow(body: seq<BodyLine>, r: Row) {
    && 1 <= |r.group| <= MAX_WRAP_LINES
    && r.start + |r.group| <= |body| && r.group == body[r.start..r.start + |r.group|]
    && (forall g :: g in r.group ==> g.Kept())
    && (r.kind == Values <==> r.group[0].HasLabel() && HasValueLine(r.group))
    && (r.kind == Section <==> r.group[0].HasLabel() && !HasValueLine(r.group))
    && (r.kind == Unlabelled ==> |r.group| == 1)
    && (forall k :: 0 < k < |r.group| ==> Close(r.group[k - 1], r.group[k]))
  }

  /** A section row carries its own text; every other row the text of the latest earlier section row. */
  ghost predicate SectionIsLatest(rows: seq<Row>, k: nat)
    requires k < |rows|
  {
    rows[k].section == if rows[k].kind == Section then Some(Join(rows[k].group)) else LatestSection(rows, k)
  }

  lemma {:induction false} KeptLinesAppend(a: seq<BodyLine>, b: seq<BodyLine>)
    ensures KeptLines(a + b) == KeptLines(a) + KeptLines(b)
  {
    if a == [] {
      assert a + b == b;
    } else {
      assert (a + b)[1..] == a[1..] + b && (a + b)[0] == a[0];
      KeptLinesAppend(a[1..], b);
      assert KeptLines(a + b) == (if a[0].Kept() then [a[0]] else []) + KeptLines(a[1..] + b);
    }
  }

  lemma {:induction false} AllKept(a: seq<BodyLine>)
    requires forall g :: g in a ==> g.Kept()
    ensures KeptLines(a) == a
  {
    if a != [] {
      AllKept(a[1..]);
    }
  }

  lemma {:induction false} LatestSectionOfPrefix(rows: seq<Row>, r: Row, k: nat)
    requires k <= |rows|
    ensures LatestSection(rows + [r], k) == LatestSection(rows, k)
  {
    if k > 0 {
      LatestSectionOfPrefix(rows, r, k - 1);
    }
  }

  /** The rows built from the first i body lines. */
  ghost predicate RowsSoFar(body: seq<BodyLine>, i: nat, rows: seq<Row>, section: Option<string>) {
    && i <= |body|
    && Grouped(rows) == KeptLines(body[..i])
    && (forall r :: r in rows ==> WellFormedRow(body, r) && r.start + |r.group| <= i)
    && (forall k :: 0 <= k < |rows| ==> SectionIsLatest(rows, k))
    && section == LatestSection(rows, |rows|)
  }

  lemma {:induction false} AddRow(body: seq<BodyLine>, i: nat, rows: seq<Row>, section: Option<string>, r: Row)
    requires RowsSoFar(body, i, rows, section)
    requires WellFormedRow(body, r) && r.start == i
    requires r.section == if r.kind == Section then Some(Join(r.group)) else section
    ensures RowsSoFar(body, i + |r.group|, rows + [r], r.section)
  {
    AddRowKeepsPartition(body, i, rows, r);
    AddRowKeepsSections(rows, section, r);
    hide WellFormedRow, SectionIsLatest, LatestSection, Grouped, KeptLines;
  }

  lemma {:induction false} AddRowKeepsPartition(body: seq<BodyLine>, i: nat, rows: seq<Row>, r: Row)
    requires i <= |body| && Grouped(rows) == KeptLines(body[..i])
    requires i + |r.group| <= |body| && r.group == body[i..i + |r.group|] && forall g :: g in r.group ==> g.Kept()
    ensures Grouped(rows + [r]) == KeptLines(body[..i + |r.group|])
  {
    assert body[..i + |r.group|] == body[..i] + r.group;
    KeptLinesAppend(body[..i], r.group);
    AllKept(r.group);
    assert (rows + [r])[..|rows|] == rows;
  }

  lemma {:induction false} AddRowKeepsSections(rows: seq<Row>, section: Option<string>, r: Row)
    requires forall k :: 0 <= k < |rows| ==> SectionIsLatest(rows, k)
    requires section == LatestSection(rows, |rows|)
    requires r.section == if r.kind == Section then Some(Join(r.group)) else section
    ensures forall k :: 0 <= k < |rows + [r]| ==> SectionIsLatest(rows + [r], k)
    ensures r.section == LatestSection(rows + [r], |rows + [r]|)
  {
    hide Join;
    forall k | 0 <= k < |rows + [r]| ensures SectionIsLatest(rows + [r], k) {
      LatestSectionOfPrefix(rows, r, k);
      assert k < |rows| ==> SectionIsLatest(rows, k);
    }
    LatestSectionOfPrefix(rows, r, |rows|);
  }

  lemma {:induction false} NoRowsYet(body: seq<BodyLine>)
    ensures RowsSoFar(body, 0, [], None)
  {
    assert body[..0] == [];
  }

  lemma {:induction false} AllRowsDone(body: seq<BodyLine>, rows: seq<Row>, section: Option<string>)
    requires RowsSoFar(body, |body|, rows, section)
    ensures Grouped(rows) == KeptLines(body)
    ensures forall r :: r in rows ==> WellFormedRow(body, r)
    ensures forall k :: 0 <= k < |rows| ==> SectionIsLatest(rows, k)
  {
    hide WellFormedRow, SectionIsLatest, LatestSection, Grouped;
    assert body[..|body|] == body;
  }

  lemma {:induction false} SkipLine(body: seq<BodyLine>, i: nat, rows: seq<Row>, section: Option<string>)
    requires RowsSoFar(body, i, rows, section) && i < |body| && !body[i].Kept()
    ensures RowsSoFar(body, i + 1, rows, section)
  {
    assert body[..i + 1] == body[..i] + [body[i]];
    KeptLinesAppend(body[..i], [body[i]]);
  }

  /** A group being collected from line i: contiguous, close, and only of kept lines. */
  ghost predicate Collecting(body: seq<BodyLine>, i: nat, j: nat, group: seq<BodyLine>) {
    && i < j <= |body| && group == body[i..j] && |group| <= MAX_WRAP_LINES
    && (forall g :: g in group ==> g.Kept())
    && (forall k :: 0 < k < |group| ==> Close(group[k - 1], group[k]))
  }

  lemma {:induction false} Collect(body: seq<BodyLine>, i: nat, j: nat, group: seq<BodyLine>)
    requires Collecting(body, i, j, group) && j < |body| && |group| < MAX_WRAP_LINES
    requires body[j].Kept() && Close(group[|group| - 1], body[j])
    ensures Collecting(body, i, j + 1, group + [body[j]])
  {
    assert body[i..j + 1] == body[i..j] + [body[j]];
  }

  /** The gap between two lines is at most the height of the taller one. */
  predicate Adjacent(last: BodyLine, next: BodyLine) {
    next.y0 - last.y1 <= last.y1 - last.y0 || next.y0 - last.y1 <= next.y1 - next.y0
  }

  /** A line after a values row that goes on with its label. */
  predicate Trails(rules: Rules, last: BodyLine, next: BodyLine) {
    && next.HasLabel() && !next.hasValues && Adjacent(last, next)
    && rules.lowerStart(next.LabelText()) && !rules.colonEnd(last.LabelText())
  }

  /** The group of a labelled line with values is every line that goes on with its label, up to the wrap limit. */
  ghost predicate ValuesWhole(rules: Rules, body: seq<BodyLine>, i: nat, group: seq<BodyLine>) {
    && Collecting(body, i, i + |group|, group)
    && (forall k :: 0 < k < |group| ==> Trails(rules, group[k - 1], group[k]))
    && (i + |group| < |body| && |group| < MAX_WRAP_LINES ==> !Trails(rules, group[|group| - 1], body[i + |group|]))
  }

  /** The values row that starts at line i: a labelled line with values, and its trailing label lines. */
  method ValuesGroup(rules: Rules, body: seq<BodyLine>, i: nat) returns (group: seq<BodyLine>)
    requires i < |body| && body[i].hasValues && body[i].HasLabel()
    ensures ValuesWhole(rules, body, i, group) && Collecting(body, i, i + |group|, group)
  {
    group := [body[i]];
    var j := i + 1;
    while j < |body| && |group| < MAX_WRAP_LINES && !body[j].hasValues && body[j].HasLabel()
          && Close(group[|group| - 1], body[j]) && rules.lowerStart(body[j].LabelText())
          && !rules.colonEnd(group[|group| - 1].LabelText())
      invariant Collecting(body, i, j, group)
      invariant forall k :: 0 < k < |group| ==> Trails(rules, group[k - 1], group[k])
    {
      Collect(body, i, j, group);
      group := group + [body[j]];
      j := j + 1;
    }
  }

  /** The label text a group has read so far: its labels, without the values printed between them. */
  function LabelSoFar(group: seq<BodyLine>): string
    requires group != []
  {
    if |group| == 1 then group[0].LabelText()
    else
      var (before, last) := (group[..|group| - 1], group[|group| - 1]);
      if last.HasLabel() then LabelSoFar(before) + " " + last.LabelText() else LabelSoFar(before)
  }

  /** Whether the group of a label takes line j too: a line that continues the label, or values printed before such a
      line; a continuation with values is the last one. */
  predicate Takes(rules: Rules, body: seq<BodyLine>, group: seq<BodyLine>, j: nat)
    requires group != []
  {
    var (last, text, x0) := (group[|group| - 1], LabelSoFar(group), group[0].labelX0);
    && j < |body| && Adjacent(last, body[j]) && !(last.HasLabel() && last.hasValues)
    && if !body[j].HasLabel() && body[j].hasValues
       then j + 1 < |body| && Adjacent(body[j], body[j + 1]) && GoesOnWith(rules, text, x0, body[j + 1])
       else GoesOnWith(rules, text, x0, body[j])
  }

  /** A label that goes on with this text: not after a colon, not out-dented by more than three points, and either in
      lower case or after a connector. */
  predicate GoesOnWith(rules: Rules, text: string, x0: real, b: BodyLine) {
    b.words.Some? && !rules.colonEnd(text) && x0 - b.labelX0 <= 3.0
    && (!rules.lowerStart(b.words.value) ==> rules.connectorEnd(text))
  }

  lemma {:induction false} ContinuesIs(rules: Rules, text: string, x0: real, b: BodyLine)
    ensures Continues(rules, text, x0, b) <==> GoesOnWith(rules, text, x0, b)
  {
  }

  lemma {:induction false} CloseIs(a: BodyLine, b: BodyLine)
    ensures Close(a, b) <==> Adjacent(a, b)
  {
  }

  predicate TakenAt(rules: Rules, body: seq<BodyLine>, i: nat, group: seq<BodyLine>, k: nat)
    requires 0 < k <= |group|
  {
    Takes(rules, body, group[..k], i + k)
  }

  /** The group of a label without values on its first line is every line it takes, one after the other, up to the wrap
      limit. */
  ghost predicate LabelWhole(rules: Rules, body: seq<BodyLine>, i: nat, group: seq<BodyLine>) {
    && Collecting(body, i, i + |group|, group)
    && (forall k :: 0 < k < |group| ==> TakenAt(rules, body, i, group, k))
    && (|group| < MAX_WRAP_LINES ==> !Takes(rules, body, group, i + |group|))
  }

  lemma {:induction false} OneMoreTaken(rules: Rules, body: seq<BodyLine>, i: nat, group: seq<BodyLine>,
                                        more: seq<BodyLine>)
    requires Collecting(body, i, i + |group|, group) && i + |group| < |body| && |group| < MAX_WRAP_LINES
    requires forall k :: 0 < k < |group| ==> TakenAt(rules, body, i, group, k)
    requires Takes(rules, body, group, i + |group|) && more == group + [body[i + |group|]]
    ensures Collecting(body, i, i + |more|, more)
    ensures forall k :: 0 < k < |more| ==> TakenAt(rules, body, i, more, k)
  {
    Collect(body, i, i + |group|, group);
    assert more[..|group|] == group;
    hide Takes;
    forall k | 0 < k < |more| ensures TakenAt(rules, body, i, more, k) {
      assert k < |group| ==> more[..k] == group[..k] && TakenAt(rules, body, i, group, k);
    }
  }

  lemma {:induction false} LabelOneMore(group: seq<BodyLine>, next: BodyLine)
    requires group != []
    ensures LabelSoFar(group + [next]) ==
            if next.HasLabel() then LabelSoFar(group) + " " + next.LabelText() else LabelSoFar(group)
  {
    assert (group + [next])[..|group|] == group;
  }

  /** The group of a label that carries no values on its first line: continuation labels, values printed
      between them, and at most one labelled line with values, which ends it. */
  method LabelGroup(rules: Rules, body: seq<BodyLine>, i: nat) returns (group: seq<BodyLine>)
    requires i < |body| && !body[i].hasValues && body[i].HasLabel()
    ensures LabelWhole(rules, body, i, group) && Collecting(body, i, i + |group|, group)
    ensures forall k :: 0 <= k < |group| && group[k].HasLabel() && group[k].hasValues ==> k == |group| - 1
    ensures forall k :: 0 <= k < |group| && !group[k].HasLabel() ==> i + k + 1 < |body| && body[i + k + 1].HasLabel()
  {
    hide LabelSoFar, Close, Continues, Collecting, Adjacent, GoesOnWith;
    group := [body[i]];
    var j := i + 1;
    var text, x0 := body[i].LabelText(), body[i].labelX0;
    assert LabelSoFar(group) == text by { LabelOfOne(group); }
    assert Collecting(body, i, j, group) by { CollectOne(body, i); }
    while j < |body| && |group| < MAX_WRAP_LINES && Close(group[|group| - 1], body[j])
      invariant 1 <= |group| <= MAX_WRAP_LINES && j == i + |group| <= |body| && group[0] == body[i]
      invariant Collecting(body, i, j, group) && text == LabelSoFar(group) && x0 == group[0].labelX0
      invariant forall k :: 0 < k < |group| ==> TakenAt(rules, body, i, group, k)
      invariant forall k :: 0 <= k < |group| ==> !(group[k].HasLabel() && group[k].hasValues)
      invariant forall k :: 0 <= k < |group| && !group[k].HasLabel() ==>
                  i + k + 1 < |body| && body[i + k + 1].HasLabel()
    {
      var next := body[j];
      LabelOneMore(group, next);
      CloseIs(group[|group| - 1], next);
      ContinuesIs(rules, text, x0, next);
      if j + 1 < |body| {
        CloseIs(next, body[j + 1]);
        ContinuesIs(rules, text, x0, body[j + 1]);
      }
      if !next.HasLabel() && next.hasValues {
        if j + 1 < |body| && Close(next, body[j + 1]) && Continues(rules, text, x0, body[j + 1]) {
          OneMoreTaken(rules, body, i, group, group + [next]);
          LabelledNext(rules, text, x0, body[j + 1]);
          group := group + [next];
          j := j + 1;
          continue;
        }
        break;
      }
      if Continues(rules, text, x0, next) {
        OneMoreTaken(rules, body, i, group, group + [next]);
        LabelledNext(rules, text, x0, next);
        group := group + [next];
        text := text + " " + next.LabelText();
        j := j + 1;
        if next.hasValues {
          break;
        }
        continue;
      }
      break;
    }
    if j < |body| {
      CloseIs(group[|group| - 1], body[j]);
    }
  }

  lemma {:induction false} LabelledNext(rules: Rules, text: string, x0: real, b: BodyLine)
    requires Continues(rules, text, x0, b)
    ensures b.HasLabel()
  {
  }

  /** A section's text is its labels with a space between. */
  lemma {:induction false} JoinIsLabel(group: seq<BodyLine>)
    requires group != [] && forall g :: g in group ==> g.HasLabel()
    ensures Join(group) == LabelSoFar(group)
  {
    if |group| > 1 {
      var (before, last) := (group[..|group| - 1], group[|group| - 1]);
      JoinAppend(before, last);
      assert group == before + [last];
      JoinIsLabel(before);
    }
  }

  lemma {:induction false} JoinAppend(group: seq<BodyLine>, last: BodyLine)
    requires group != []
    ensures Join(group + [last]) == Join(group) + " " + last.LabelText()
  {
    var more := group + [last];
    if |group| == 1 {
      assert more[1..] == [last];
    } else {
      assert more[1..] == group[1..] + [last];
      JoinAppend(group[1..], last);
    }
  }

  lemma {:induction false} LabelOfOne(group: seq<BodyLine>)
    requires |group| == 1
    ensures LabelSoFar(group) == group[0].LabelText()
  {
  }

  lemma {:induction false} CollectOne(body: seq<BodyLine>, i: nat)
    requires i < |body| && body[i].Kept()
    ensures Collecting(body, i, i + 1, [body[i]])
  {
    assert body[i..i + 1] == [body[i]];
  }

  /** The row's group is all that goes with its first line, and a section's text its labels. */
  ghost predicate WholeRow(rules: Rules, body: seq<BodyLine>, r: Row) {
    && (r.group != [] && r.group[0].HasLabel() ==>
          if r.group[0].hasValues then ValuesWhole(rules, body, r.start, r.group)
          else LabelWhole(rules, body, r.start, r.group))
    && (r.kind == Section ==> r.group != [] && r.section == Some(LabelSoFar(r.group)))
  }

  lemma {:induction false} CollectedRow(body: seq<BodyLine>, r: Row)
    requires Collecting(body, r.start, r.start + |r.group|, r.group) && r.group[0].HasLabel() && r.kind != Unlabelled
    requires r.kind == Values <==> HasValueLine(r.group)
    ensures WellFormedRow(body, r) && r.group != [] && r.group[0] == body[r.start]
  {
  }

  lemma {:induction false} AllLabelled(body: seq<BodyLine>, r: Row)
    requires WellFormedRow(body, r) && r.kind == Section
    ensures r.group != [] && forall g :: g in r.group ==> g.HasLabel()
  {
    forall g | g in r.group ensures g.HasLabel() {
      assert g.Kept() && !g.hasValues;
    }
  }

  lemma {:induction false} LineIsARow(body: seq<BodyLine>, i: nat, section: Option<string>)
    requires i < |body| && body[i].Kept() && !body[i].HasLabel()
    ensures WellFormedRow(body, Row(Unlabelled, i, [body[i]], section))
  {
    assert body[i..i + 1] == [body[i]];
  }

  /** The row that starts at a line with a label or values. */
  method NextRow(rules: Rules, body: seq<BodyLine>, i: nat, section: Option<string>) returns (row: Row)
    requires i < |body| && body[i].Kept()
    ensures WellFormedRow(body, row) && row.start == i && WholeRow(rules, body, row)
    ensures row.section == if row.kind == Section then Some(Join(row.group)) else section
  {
    hide Join, ValuesWhole, LabelWhole, WellFormedRow;
    var line := body[i];
    if line.hasValues && line.HasLabel() {
      var group := ValuesGroup(rules, body, i);
      row := Row(Values, i, group, section);
      assert HasValueLine(group) by {
        assert group[0] in group && group[0].hasValues;
      }
      CollectedRow(body, row);
    } else if line.HasLabel() {
      var group := LabelGroup(rules, body, i);
      var values := exists g :: g in group && g.hasValues;
      row := Row(if values then Values else Section, i, group, if values then section else Some(Join(group)));
      assert HasValueLine(group) == values;
      CollectedRow(body, row);
      if !values {
        AllLabelled(body, row);
        JoinIsLabel(group);
      }
    } else {
      row := Row(Unlabelled, i, [line], section);
      LineIsARow(body, i, section);
    }
  }

  /** assemble_rows: an order-preserving partition of the lines that carry a label or values, each group whole. */
  method AssembleRows(rules: Rules, body: seq<BodyLine>) returns (rows: seq<Row>)
    ensures Grouped(rows) == KeptLines(body)
    ensures forall r :: r in rows ==> WellFormedRow(body, r)
    ensures forall k :: 0 <= k < |rows| ==> SectionIsLatest(rows, k)
    ensures forall r :: r in rows ==> WholeRow(rules, body, r)
  {
    hide RowsSoFar, Join, SectionIsLatest, Grouped, KeptLines, WholeRow;
    rows := [];
    var i, section := 0, None;
    NoRowsYet(body);
    while i < |body|
      invariant i <= |body| && RowsSoFar(body, i, rows, section)
      invariant forall r :: r in rows ==> WholeRow(rules, body, r)
    {
      if body[i].Kept() {
        var row := NextRow(rules, body, i, section);
        AddRow(body, i, rows, section, row);
        rows, i, section := rows + [row], i + |row.group|, row.section;
      } else {
        SkipLine(body, i, rows, section);
        i := i + 1;
      }
    }
    AllRowsDone(body, rows, section);
  }
}
