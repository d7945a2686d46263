/**
 * The Insights tab's CSV export (frontend_new/src/components/InsightsView.jsx:10-27): the
 * ranked rows are copied as they are, and the text is a fixed header line followed by one
 * comma-joined line of six cells per row, the lines separated by newlines.
 */
module InsightsExport {
  import opened JsValues

  /** `rows`: nothing when there is no ranking, otherwise a copy in the same order. */
  function RowsOf(ranked: Option<seq<Row>>): (rows: seq<Row>)
    ensures ranked.None? ==> rows == []
    ensures ranked.Some? ==> rows == ranked.value
  {
    if ranked.None? || |ranked.value| == 0 then [] else ranked.value[..]
  }

  const Header: seq<string> :=
    ["train_id", "assigned", "fitness_score", "branding_priority", "mileage_km", "cleaning_due"]

  /** `v == null ? '' : v`, as `join` then renders it. */
  function OrBlank(v: Value): string {
    if IsNullish(v) then "" else ToText(v)
  }

  /** The six cells of one row, as `join(',')` renders them. */
  function Cells(r: Row): (cells: seq<string>)
    ensures |cells| == |Header|
    ensures cells[0] == JoinText(Get(r, "train_id"))
    ensures cells[1] == (if Truthy(Get(r, "assigned")) then ToText(Get(r, "assigned")) else "")
    ensures forall i :: 2 <= i <= 4 ==>
              (cells[i] == "" <==> IsNullish(Get(r, Header[i])) || ToText(Get(r, Header[i])) == "")
    ensures cells[5] == "Due" <==> Truthy(Get(r, "cleaning_due"))
    ensures cells[5] == "" <==> !Truthy(Get(r, "cleaning_due"))
  {
    var status := Get(r, "assigned");
    [ JoinText(Get(r, "train_id")),
      if Truthy(status) then JoinText(status) else "",
      OrBlank(Get(r, "fitness_score")),
      OrBlank(Get(r, "branding_priority")),
      OrBlank(Get(r, "mileage_km")),
      if Truthy(Get(r, "cleaning_due")) then "Due" else "" ]
  }

  function Line(r: Row): string {
    Join(Cells(r), ",")
  }

  function Lines(rows: seq<Row>): (lines: seq<string>)
    ensures |lines| == |rows|
  {
    seq(|rows|, i requires 0 <= i < |rows| => Line(rows[i]))
  }

  /** The text `exportCsv` downloads; nothing at all when there are no rows. */
  function ExportCsv(rows: seq<Row>): Option<string> {
    if |rows| == 0 then None
    else Some(Join(Header, ",") + "\n" + Join(Lines(rows), "\n"))
  }

  /** With no ranking, or an empty one, there is nothing to export. */
  lemma NothingToExport(ranked: Option<seq<Row>>)
    requires ranked.None? || |ranked.value| == 0
    ensures ExportCsv(RowsOf(ranked)) == None
  {
  }

  /**
   * The header line is the six column names joined by commas, in the order train_id,
   * assigned, fitness_score, branding_priority, mileage_km, cleaning_due: splitting it on
   * commas gives exactly those names, and it holds no newline.
   */
  lemma HeaderLine()
    ensures Split(Join(Header, ","), ',') == ["train_id", "assigned", "fitness_score", "branding_priority", "mileage_km", "cleaning_due"]
    ensures '\n' !in Join(Header, ",")
  {
    forall i | 0 <= i < |Header| ensures ',' !in Header[i] && '\n' !in Header[i] {
      HeaderNamePlain(i);
    }
    SplitJoin(Header, ',');
    NoCharInJoin(Header, ",", '\n');
  }

  lemma HeaderNamePlain(i: nat)
    requires i < |Header|
    ensures forall ch :: ch in Header[i] ==> 'a' <= ch <= 'z' || ch == '_'
  {
  }

  /** `s.split(c)`. */
  function Split(s: string, c: char): (parts: seq<string>)
    ensures |parts| >= 1
  {
    if |s| == 0 then [""]
    else if s[0] == c then [""] + Split(s[1..], c)
    else
      var rest := Split(s[1..], c);
      [[s[0]] + rest[0]] + rest[1..]
  }

  /** Splitting text with no separator gives it back whole. */
  lemma {:induction false} SplitPlain(a: string, c: char)
    requires c !in a
    ensures Split(a, c) == [a]
    decreases |a|
  {
    if |a| > 0 {
      SplitPlain(a[1..], c);
      assert [a[0]] + a[1..] == a;
    }
  }

  /** A separator-free prefix before the first separator is the first part. */
  lemma {:induction false} SplitAfter(a: string, c: char, rest: string)
    requires c !in a
    ensures Split(a + [c] + rest, c) == [a] + Split(rest, c)
    decreases |a|
  {
    var s := a + [c] + rest;
    if |a| == 0 {
      assert s[1..] == rest;
    } else {
      assert s[1..] == a[1..] + [c] + rest;
      SplitAfter(a[1..], c, rest);
      assert [a[0]] + a[1..] == a;
    }
  }

  /** Joining on a character no part contains, then splitting on it, gives the parts back. */
  lemma {:induction false} SplitJoin(parts: seq<string>, c: char)
    requires |parts| > 0
    requires forall i :: 0 <= i < |parts| ==> c !in parts[i]
    ensures Split(Join(parts, [c]), c) == parts
    decreases |parts|
  {
    if |parts| == 1 {
      SplitPlain(parts[0], c);
    } else {
      SplitJoin(parts[1..], c);
      SplitAfter(parts[0], c, Join(parts[1..], [c]));
      assert [parts[0]] + parts[1..] == parts;
    }
  }

  lemma JoinCons(head: string, tail: seq<string>, sep: string)
    requires |tail| > 0
    ensures Join([head] + tail, sep) == head + sep + Join(tail, sep)
  {
    assert ([head] + tail)[1..] == tail;
  }

  /**
   * When no cell holds a newline, the exported text splits on newlines into the header
   * line followed by one line per row, in the rows' order.
   */
  lemma ExportLines(rows: seq<Row>)
    requires |rows| > 0
    requires forall i, j :: 0 <= i < |rows| && 0 <= j < |Header| ==> '\n' !in Cells(rows[i])[j]
    ensures Split(ExportCsv(rows).value, '\n') == [Join(Header, ",")] + Lines(rows)
  {
    var lines := Lines(rows);
    forall i | 0 <= i < |rows| ensures '\n' !in lines[i] {
      NoCharInJoin(Cells(rows[i]), ",", '\n');
    }
    var head := Join(Header, ",");
    HeaderLine();
    var all := [head] + lines;
    JoinCons(head, lines, "\n");
    forall i | 0 <= i < |all| ensures '\n' !in all[i] {
      if i > 0 {
        assert all[i] == lines[i - 1];
      }
    }
    SplitJoin(all, '\n');
  }

  /** When no cell of a row holds a comma, its line splits back into its six cells. */
  lemma LineCells(r: Row)
    requires forall j :: 0 <= j < |Header| ==> ',' !in Cells(r)[j]
    ensures Split(Line(r), ',') == Cells(r)
  {
    SplitJoin(Cells(r), ',');
  }

  /** A character in neither the parts nor the separator is not in their join. */
  lemma {:induction false} NoCharInJoin(parts: seq<string>, sep: string, c: char)
    requires forall i :: 0 <= i < |parts| ==> c !in parts[i]
    requires c !in sep
    ensures c !in Join(parts, sep)
    decreases |parts|
  {
    if |parts| > 1 {
      NoCharInJoin(parts[1..], sep, c);
    }
  }
}
