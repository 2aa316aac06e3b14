/**
  The part of `load_evaluation_data` that turns the rows of the dataset file into evaluation
  items: the delimiter rule applied to the file's first line, the arrangement fields of a row,
  the ground-truth tags built from the `Underkategori1..3` columns, and the rule that keeps a row
  only when it has a title and at least one tag. Reading the file and splitting it into rows
  (`csv.DictReader`) is not modelled: the rows are the input.
*/
module EvaluationData {
  import opened Wrappers
  import opened Text
  import opened StableSort
  import opened Scoring
  import opened Tally
  import opened Metrics
  import opened Evaluation

  /** The delimiter: a semicolon when the first line holds one, a comma otherwise. */
  function Delimiter(firstLine: string): (d: char)
    ensures d == ';' || d == ','
    ensures d == ';' <==> ';' in firstLine
  {
    if ';' in firstLine then ';' else ','
  }

  /**
    A row of `csv.DictReader`: column name to cell. A cell that the line did not reach holds
    `None` (the reader's default `restval`); a column the header does not name is absent.
  */
  type Row = map<string, Option<string>>

  /** The cell of a column, with a column the header lacks reading as the empty string. */
  function Cell(row: Row, col: string): Option<string> {
    if col in row then row[col] else Some("")
  }

  /** The stripped cell; `None` where stripping raises, on a `None` cell. */
  function StrippedCell(row: Row, col: string): Option<string> {
    match Cell(row, col)
    case None => None
    case Some(v) => Some(Strip(v))
  }

  /** The six columns read into `arrangement_data`, in the order the dict literal reads them. */
  const ArrangementColumns: seq<string> :=
    ["ArrangementNummer", "ArrangementTitel", "arrang\U{F8}r", "nc_Teaser", "CleanText", "ArrangementUndertype"]

  /** Every arrangement column holds a string, so no `.strip()` raises. */
  predicate CellsPresent(row: Row) {
    forall i :: 0 <= i < |ArrangementColumns| ==> Cell(row, ArrangementColumns[i]).Some?
  }

  /** `arrangement_data`, or `None` when a `.strip()` raises and the row is skipped. */
  function ArrangementOf(row: Row): (r: Option<Arrangement>)
    ensures r.Some? <==> CellsPresent(row)
  {
    var nummer, titel, arrangoer := StrippedCell(row, "ArrangementNummer"), StrippedCell(row, "ArrangementTitel"),
                                    StrippedCell(row, "arrang\U{F8}r");
    var teaser, beskrivelse, undertype := StrippedCell(row, "nc_Teaser"), StrippedCell(row, "CleanText"),
                                          StrippedCell(row, "ArrangementUndertype");
    assert CellsPresent(row) <==> nummer.Some? && titel.Some? && arrangoer.Some? && teaser.Some?
                                  && beskrivelse.Some? && undertype.Some? by {
      assert ArrangementColumns[0] == "ArrangementNummer" && ArrangementColumns[1] == "ArrangementTitel";
      assert ArrangementColumns[2] == "arrang\U{F8}r" && ArrangementColumns[3] == "nc_Teaser";
      assert ArrangementColumns[4] == "CleanText" && ArrangementColumns[5] == "ArrangementUndertype";
    }
    if nummer.Some? && titel.Some? && arrangoer.Some? && teaser.Some? && beskrivelse.Some? && undertype.Some? then
      Some(Arrangement(nummer.value, titel.value, arrangoer.value, teaser.value, beskrivelse.value, undertype.value))
    else None
  }

  /** Every field of a converted arrangement is stripped. */
  lemma ArrangementStripped(row: Row)
    requires ArrangementOf(row).Some?
    ensures var a := ArrangementOf(row).value;
      EdgeFree(a.arrangementNummer) && EdgeFree(a.arrangementTitel) && EdgeFree(a.arrangoer)
      && EdgeFree(a.ncTeaser) && EdgeFree(a.ncBeskrivelse) && EdgeFree(a.arrangementUndertype)
      && a.arrangementTitel == Strip(Cell(row, "ArrangementTitel").value)
  {
  }

  // ------------------------------------------------------------ ground truth

  /** The names of the tag columns for `j` in 1..3. */
  const TagColumns: seq<string> := ["Underkategori1", "Underkategori2", "Underkategori3"]

  /** A tag column's cell, with a missing column and a `None` cell both reading as "". */
  function RawValue(row: Row, col: string): string {
    var c := Cell(row, col);
    if c.Some? then c.value else ""
  }

  /** The stripped values of `Underkategori1..3`, in column order. */
  function TagValues(row: Row): (vs: seq<string>)
    ensures |vs| == 3 && forall i :: 0 <= i < 3 ==> vs[i] == Strip(RawValue(row, TagColumns[i]))
  {
    [Strip(RawValue(row, TagColumns[0])), Strip(RawValue(row, TagColumns[1])), Strip(RawValue(row, TagColumns[2]))]
  }

  /** A tag value normalized: blanks, slashes and hyphens become underscores, then upper case. */
  function NormalizeTag(v: string): string {
    Upper(ReplaceAll(ReplaceAll(ReplaceAll(v, " ", "_"), "/", "_"), "-", "_"))
  }

  /** A normalized tag keeps the length, has no blank, slash or hyphen left and no lower-case ASCII letter. */
  lemma NormalizeTagFacts(v: string)
    ensures var t := NormalizeTag(v);
      |t| == |v| && ' ' !in t && '/' !in t && '-' !in t
      && forall i :: 0 <= i < |t| ==> !('a' <= t[i] <= 'z')
  {
    var a := ReplaceAll(v, " ", "_");
    ReplaceCharRemoves(v, ' ', "_");
    var b := ReplaceAll(a, "/", "_");
    ReplaceCharRemoves(a, '/', "_");
    ReplaceCharKeepsAbsent(a, '/', "_", ' ');
    var c := ReplaceAll(b, "-", "_");
    ReplaceCharRemoves(b, '-', "_");
    ReplaceCharKeepsAbsent(b, '-', "_", ' ');
    ReplaceCharKeepsAbsent(b, '-', "_", '/');
    UpperIsUpper(c);
    var t := Upper(c);
    forall i | 0 <= i < |t| ensures t[i] != ' ' && t[i] != '/' && t[i] != '-' {
      assert c[i] != ' ' && c[i] != '/' && c[i] != '-';
    }
  }

  /** The entries of the first `n` values: one for each non-blank value, carrying its column number. */
  function Entries(vs: seq<string>, n: nat): seq<GroundTruthTag>
    requires n <= |vs|
  {
    if n == 0 then []
    else Entries(vs, n - 1) + (if vs[n - 1] != "" then [GroundTruthTag(NormalizeTag(vs[n - 1]), n, vs[n - 1])] else [])
  }

  /** `ground_truth_tags` of a row. */
  function GroundTruthOf(row: Row): seq<GroundTruthTag> {
    Entries(TagValues(row), 3)
  }

  /** The column numbers of the entries, in order. */
  function PrioritiesOf(g: seq<GroundTruthTag>): (ps: seq<int>)
    ensures |ps| == |g| && forall i :: 0 <= i < |g| ==> ps[i] == g[i].priority
  {
    seq(|g|, i requires 0 <= i < |g| => g[i].priority)
  }

  /** At most `n` entries, with priorities in 1..n, strictly ascending. */
  lemma {:induction false} EntriesShape(vs: seq<string>, n: nat)
    requires n <= |vs|
    ensures var g := Entries(vs, n);
      |g| <= n && (forall i :: 0 <= i < |g| ==> 1 <= g[i].priority <= n)
      && forall i, k :: 0 <= i < k < |g| ==> g[i].priority < g[k].priority
  {
    if n > 0 {
      EntriesShape(vs, n - 1);
      var g0 := Entries(vs, n - 1);
      assert forall i :: 0 <= i < |g0| ==> Entries(vs, n)[i] == g0[i];
    }
  }

  /** An entry holds the non-blank value of its own column and that value normalized. */
  predicate EntryFrom(vs: seq<string>, g: GroundTruthTag) {
    1 <= g.priority <= |vs| && g.originalValue == vs[g.priority - 1] && g.originalValue != ""
    && g.tag == NormalizeTag(g.originalValue)
  }

  /** Every entry is built from its own column. */
  lemma {:induction false} EntriesFrom(vs: seq<string>, n: nat)
    requires n <= |vs|
    ensures forall i :: 0 <= i < |Entries(vs, n)| ==> EntryFrom(vs, Entries(vs, n)[i])
  {
    if n > 0 {
      EntriesFrom(vs, n - 1);
      var g0, g := Entries(vs, n - 1), Entries(vs, n);
      forall i | 0 <= i < |g| ensures EntryFrom(vs, g[i]) {
        if i < |g0| {
          assert g[i] == g0[i];
        } else {
          assert vs[n - 1] != "";
          assert g == g0 + [GroundTruthTag(NormalizeTag(vs[n - 1]), n, vs[n - 1])];
          assert g[i] == GroundTruthTag(NormalizeTag(vs[n - 1]), n, vs[n - 1]);
        }
      }
    }
  }

  /** A column among `1..n` has an entry exactly when its value is not blank. */
  lemma {:induction false} EntriesCover(vs: seq<string>, n: nat, j: nat)
    requires 1 <= j <= n <= |vs|
    ensures vs[j - 1] != "" <==> j in PrioritiesOf(Entries(vs, n))
  {
    var g0 := Entries(vs, n - 1);
    var e := if vs[n - 1] != "" then [GroundTruthTag(NormalizeTag(vs[n - 1]), n, vs[n - 1])] else [];
    EntriesShape(vs, n - 1);
    assert Entries(vs, n) == g0 + e;
    assert PrioritiesOf(g0 + e) == PrioritiesOf(g0) + PrioritiesOf(e);
    if j < n {
      EntriesCover(vs, n - 1, j);
      assert j !in PrioritiesOf(e);
    } else {
      assert j !in PrioritiesOf(g0);
    }
  }

  /**
    `ground_truth_tags` holds up to three entries, one for each non-blank `Underkategori`
    column, with strictly ascending priorities; each holds its stripped value and that value
    normalized.
  */
  lemma GroundTruthFacts(row: Row)
    ensures var g, vs := GroundTruthOf(row), TagValues(row);
      |g| <= 3
      && (forall i :: 0 <= i < |g| ==> EntryFrom(vs, g[i]) && EdgeFree(g[i].originalValue))
      && (forall i, k :: 0 <= i < k < |g| ==> g[i].priority < g[k].priority)
      && (forall j :: 1 <= j <= 3 ==> (vs[j - 1] != "" <==> j in PrioritiesOf(g)))
  {
    var vs := TagValues(row);
    EntriesFacts(vs);
    TagValuesEdgeFree(row);
  }

  /** `Entries` over three values, with every value stripped. */
  lemma EntriesFacts(vs: seq<string>)
    requires |vs| == 3
    ensures var g := Entries(vs, 3);
      |g| <= 3
      && (forall i :: 0 <= i < |g| ==> EntryFrom(vs, g[i]))
      && (forall i, k :: 0 <= i < k < |g| ==> g[i].priority < g[k].priority)
      && (forall j :: 1 <= j <= 3 ==> (vs[j - 1] != "" <==> j in PrioritiesOf(g)))
  {
    EntriesShape(vs, 3);
    EntriesFrom(vs, 3);
    EntriesCover(vs, 3, 1);
    EntriesCover(vs, 3, 2);
    EntriesCover(vs, 3, 3);
  }

  /** The three tag values are stripped. */
  lemma TagValuesEdgeFree(row: Row)
    ensures forall i :: 0 <= i < 3 ==> EdgeFree(TagValues(row)[i])
  {
  }

  /** The tags are already in priority order, so the sort of `evaluate_all` leaves them as they are. */
  lemma LoadedTagsSorted(row: Row)
    ensures SortByPriority(GroundTruthOf(row)) == GroundTruthOf(row)
  {
    var g := GroundTruthOf(row);
    GroundTruthFacts(row);
    assert SortedDesc(g, PriorityKey);
    SortOfSorted(g, PriorityKey);
  }

  /** `ground_truth_tags` is empty exactly when all three columns are blank. */
  lemma GroundTruthEmptyIff(row: Row)
    ensures GroundTruthOf(row) == [] <==> TagValues(row) == ["", "", ""]
  {
    EntriesEmptyIff(TagValues(row));
  }

  /** Three values yield no entry exactly when all of them are blank. */
  lemma EntriesEmptyIff(vs: seq<string>)
    requires |vs| == 3
    ensures Entries(vs, 3) == [] <==> vs == ["", "", ""]
  {
    var g := Entries(vs, 3);
    if g != [] {
      EntriesFrom(vs, 3);
      assert EntryFrom(vs, g[0]);
    } else {
      EntriesCover(vs, 3, 1);
      EntriesCover(vs, 3, 2);
      EntriesCover(vs, 3, 3);
      assert vs == ["", "", ""];
    }
  }

  /** The loop over the three tag columns that builds `ground_truth_tags`. */
  method ReadGroundTruth(row: Row) returns (tags: seq<GroundTruthTag>)
    ensures tags == GroundTruthOf(row)
  {
    ghost var vs := TagValues(row);
    tags := [];
    var j := 1;
    while j < 4
      invariant 1 <= j <= 4
      invariant tags == Entries(vs, j - 1)
    {
      var tagCol := TagColumns[j - 1];
      var rawVal := RawValue(row, tagCol);
      var tagValue := Strip(rawVal);
      assert tagValue == vs[j - 1];
      if tagValue != "" {
        var tagNormalized := NormalizeTag(tagValue);
        tags := tags + [GroundTruthTag(tagNormalized, j, tagValue)];
      }
      j := j + 1;
    }
  }

  // ------------------------------------------------------------------ rows

  /** The item a row yields, or `None` when it is skipped. */
  function ConvertRow(row: Row): Option<Item> {
    match ArrangementOf(row)
    case None => None
    case Some(arr) =>
      var tags := GroundTruthOf(row);
      if arr.arrangementTitel != "" && tags != [] then Some(Item(arr, tags)) else None
  }

  /**
    A row is kept exactly when every arrangement cell is present, its stripped title is not
    empty and at least one `Underkategori` value is not blank.
  */
  lemma ConvertRowIff(row: Row)
    ensures ConvertRow(row).Some? <==>
      CellsPresent(row) && StrippedCell(row, "ArrangementTitel") != Some("")
      && TagValues(row) != ["", "", ""]
  {
    GroundTruthEmptyIff(row);
    var g := GroundTruthOf(row);
    assert ConvertRow(row).Some? <==>
      ArrangementOf(row).Some? && ArrangementOf(row).value.arrangementTitel != "" && g != [];
    if CellsPresent(row) {
      ArrangementStripped(row);
    }
  }

  /** `evaluation_data` after the rows `rows`, in file order. */
  function KeptItems(rows: seq<Row>): seq<Item>
    decreases |rows|
  {
    if rows == [] then []
    else
      var init := KeptItems(rows[..|rows| - 1]);
      match ConvertRow(rows[|rows| - 1])
      case None => init
      case Some(item) => init + [item]
  }

  /** What a kept item is: a non-empty stripped title and one to three tags in priority order. */
  predicate Loaded(item: Item) {
    var g := item.groundTruthTags;
    item.arrangement.arrangementTitel != "" && EdgeFree(item.arrangement.arrangementTitel)
    && 1 <= |g| <= 3 && (forall i :: 0 <= i < |g| ==> g[i].originalValue != "" && |g[i].tag| == |g[i].originalValue|)
    && SortByPriority(g) == g
  }

  /** A converted row is `Loaded`. */
  lemma ConvertedLoaded(row: Row)
    requires ConvertRow(row).Some?
    ensures Loaded(ConvertRow(row).value)
  {
    ArrangementStripped(row);
    GroundTruthFacts(row);
    LoadedTagsSorted(row);
    var g := GroundTruthOf(row);
    forall i | 0 <= i < |g| ensures |g[i].tag| == |g[i].originalValue| {
      NormalizeTagFacts(g[i].originalValue);
    }
  }

  /** Every kept item is a converted row, no more items than rows, and each item is `Loaded`. */
  lemma {:induction false} KeptItemsFacts(rows: seq<Row>)
    ensures var k := KeptItems(rows);
      |k| <= |rows|
      && (forall i :: 0 <= i < |k| ==> Loaded(k[i]))
      && (forall i :: 0 <= i < |k| ==> exists j :: 0 <= j < |rows| && ConvertRow(rows[j]) == Some(k[i]))
    decreases |rows|
  {
    if rows != [] {
      var init, last := rows[..|rows| - 1], rows[|rows| - 1];
      KeptItemsFacts(init);
      var k0 := KeptItems(init);
      var k := KeptItems(rows);
      forall i | 0 <= i < |k|
        ensures Loaded(k[i]) && exists j :: 0 <= j < |rows| && ConvertRow(rows[j]) == Some(k[i])
      {
        if i < |k0| {
          assert k[i] == k0[i];
          var j :| 0 <= j < |init| && ConvertRow(init[j]) == Some(k0[i]);
          assert rows[j] == init[j];
        } else {
          ConvertedLoaded(last);
          assert ConvertRow(rows[|rows| - 1]) == Some(k[i]);
        }
      }
    }
  }

  /** One more row adds its item, if it has one. */
  lemma KeptItemsSnoc(rows: seq<Row>)
    requires rows != []
    ensures var init, last := rows[..|rows| - 1], rows[|rows| - 1];
      KeptItems(rows) == KeptItems(init) + (if ConvertRow(last).Some? then [ConvertRow(last).value] else [])
  {
  }

  /** Every row that converts contributes its item. */
  lemma {:induction false} KeptItemsComplete(rows: seq<Row>, j: nat)
    requires j < |rows| && ConvertRow(rows[j]).Some?
    ensures ConvertRow(rows[j]).value in KeptItems(rows)
    decreases |rows|
  {
    var init := rows[..|rows| - 1];
    KeptItemsSnoc(rows);
    if j < |rows| - 1 {
      assert rows[j] == init[j];
      KeptItemsComplete(init, j);
    }
  }

  /** The row loop of `load_evaluation_data`; a row whose conversion raises is skipped. */
  method LoadEvaluationData(rows: seq<Row>) returns (data: seq<Item>)
    ensures data == KeptItems(rows)
  {
    data := [];
    var i := 0;
    while i < |rows|
      invariant 0 <= i <= |rows|
      invariant data == KeptItems(rows[..i])
    {
      var row := rows[i];
      assert rows[..i + 1][..i] == rows[..i] && rows[..i + 1][i] == row;
      KeptItemsSnoc(rows[..i + 1]);
      var arrangementData := ArrangementOf(row);
      if arrangementData.Some? {
        var groundTruthTags := ReadGroundTruth(row);
        if arrangementData.value.arrangementTitel != "" && groundTruthTags != [] {
          data := data + [Item(arrangementData.value, groundTruthTags)];
        }
      }
      i := i + 1;
    }
    assert rows[..i] == rows;
  }

  // --------------------------------------------------- loaded data, evaluated

  /** A loaded item has a present ground-truth tag and at most three of them. */
  lemma LoadedHasTruth(item: Item)
    requires Loaded(item)
    ensures HasTruth(item) && |item.groundTruthTags| <= 3
  {
    var g := item.groundTruthTags;
    assert Slots(g) == Padded(TagsOf(g));
    assert Slots(g)[0] == Some(g[0].tag);
    assert g[0].tag != "";
    assert g[0].tag in TruthyTags(Slots(g));
  }

  /**
    On loaded data `evaluate_all` raises only for an empty dataset or a title outside the length
    limits, and the weighted accuracy lies between accuracy@1 and accuracy@3.
  */
  lemma EvaluateLoaded(rows: seq<Row>, answers: seq<Answer>)
    requires |answers| == |KeptItems(rows)|
    ensures var data := KeptItems(rows);
      (EvaluateSpec(data, answers).Err? <==> data == [] || !TitlesAccepted(data))
      && (EvaluateSpec(data, answers).Ok? ==>
            var m := EvaluateSpec(data, answers).value.metrics;
            m.accuracyAt1 <= m.weightedAccuracy <= m.accuracyAt3)
  {
    var data := KeptItems(rows);
    KeptItemsFacts(rows);
    forall i | 0 <= i < |data| ensures HasTruth(data[i]) && |data[i].groundTruthTags| <= 3 {
      LoadedHasTruth(data[i]);
    }
    EvaluateErrIff(data, answers);
    if EvaluateSpec(data, answers).Ok? {
      EvaluateWeighted(data, answers);
    }
  }

  /** A row with Underkategori1 = "A", Underkategori2 blank and Underkategori3 = "C". */
  function GapRow(): Row {
    map["Underkategori1" := Some("A"), "Underkategori2" := Some(" "), "Underkategori3" := Some("C")]
  }

  /**
    Underkategori1 and Underkategori3 filled, Underkategori2 blank: the ground truth is `[A, C]`
    with priorities 1 and 3, and predicting `C` gives match rank 2, its list position.
  */
  lemma RankIsListPosition()
    ensures GroundTruthOf(GapRow()) == [GroundTruthTag("A", 1, "A"), GroundTruthTag("C", 3, "C")]
    ensures MatchRank(Slots(GroundTruthOf(GapRow())), Some("C")) == Some(2)
  {
    GapRowValues();
    GapEntries();
    LoadedTagsSorted(GapRow());
    var slots := Slots(GroundTruthOf(GapRow()));
    assert slots == [Some("A"), Some("C"), None];
  }

  /** The row's stripped tag values. */
  lemma GapRowValues()
    ensures TagValues(GapRow()) == ["A", "", "C"]
  {
    var row := GapRow();
    assert RawValue(row, TagColumns[0]) == "A";
    assert RawValue(row, TagColumns[1]) == " ";
    assert RawValue(row, TagColumns[2]) == "C";
    StripKeepsEdgeFree("A");
    StripKeepsEdgeFree("C");
    assert Strip(" ") == "" by {
      assert LeadCount(" ") == 1;
    }
  }

  /** The entries of those values: the blank middle column yields none. */
  lemma GapEntries()
    ensures Entries(["A", "", "C"], 3) == [GroundTruthTag("A", 1, "A"), GroundTruthTag("C", 3, "C")]
  {
    var vs := ["A", "", "C"];
    PlainTag("A");
    PlainTag("C");
    assert Entries(vs, 1) == [GroundTruthTag("A", 1, "A")];
    assert Entries(vs, 2) == Entries(vs, 1);
  }

  /** A one-letter upper-case tag is its own normalization. */
  lemma PlainTag(v: string)
    requires |v| == 1 && 'A' <= v[0] <= 'Z'
    ensures NormalizeTag(v) == v
  {
    ReplaceFreeChar(v, " ", "_");
    ReplaceFreeChar(v, "/", "_");
    ReplaceFreeChar(v, "-", "_");
  }
}
