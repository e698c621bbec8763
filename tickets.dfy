/** The ticket grid of a raffle and the "create raffle" form: the label of
    each ticket, the grid's column count, its pages of 100 labels, and the
    form's digit count, save gate and preview. */
module Tickets {
  import opened Wrappers
  import opened KotlinText
  import opened Entities
  import Lists

  // ---------------------------------------------------------------------
  // Labels
  // ---------------------------------------------------------------------

  /** The label of ticket `value` in the detail screen: its decimal form,
      left-padded with zeros to `digits` characters when `digits > 0`. A
      negative value keeps its sign after the zeros (`"0-5"`). */
  function Label(value: int, digits: int): (r: string)
    ensures var s := IntToString(value);
      && |r| == (if digits > |s| then digits else |s|)
      && r[|r| - |s|..] == s
      && forall i :: 0 <= i < |r| - |s| ==> r[i] == '0'
  {
    if digits > 0 then PadStart(IntToString(value), digits, '0') else IntToString(value)
  }

  /** Drops leading zeros, keeping at least one character. */
  function DropZeros(s: string): (r: string)
    ensures |r| <= |s|
  {
    if |s| > 1 && s[0] == '0' then DropZeros(s[1..]) else s
  }

  /** Reads a label back: the ticket it names, if any. */
  function LabelValue(text: string): Option<int> {
    SignedValue(DropZeros(text))
  }

  lemma {:induction false} DropZerosPadded(k: nat, v: int)
    ensures DropZeros(Repeat('0', k) + IntToString(v)) == IntToString(v)
  {
    var s := IntToString(v);
    if k == 0 {
      assert Repeat('0', k) + s == s;
      if v >= 10 {
        NatToStringLeadingDigit(v);
      }
    } else {
      var t := Repeat('0', k) + s;
      assert t[1..] == Repeat('0', k - 1) + s;
      DropZerosPadded(k - 1, v);
    }
  }

  /** Every label names its ticket: reading it back gives the value, for
      every value and every digit count. */
  lemma LabelRoundTrip(value: int, digits: int)
    ensures LabelValue(Label(value, digits)) == Some(value)
  {
    var s := IntToString(value);
    var r := Label(value, digits);
    var k := |r| - |s|;
    assert r == Repeat('0', k) + s;
    DropZerosPadded(k, value);
    SignedValueOfIntToString(value);
  }

  /** Hence two different tickets never share a label. */
  lemma LabelInjective(a: int, b: int, digits: int)
    requires Label(a, digits) == Label(b, digits)
    ensures a == b
  {
    LabelRoundTrip(a, digits);
    LabelRoundTrip(b, digits);
  }

  /** A non-negative label is itself a number `toIntOrNull` reads back. */
  lemma NonNegativeLabelParses(value: Int32, digits: int)
    requires value >= 0
    ensures ToIntOrNull(Label(value, digits)) == Some(value)
  {
    var s := IntToString(value);
    var r := Label(value, digits);
    var k := |r| - |s|;
    assert s == NatToString(value);
    assert r == Repeat('0', k) + s;
    NatToStringValue(value);
    LeadingZerosValue(k, s);
    assert DigitsValue(r) == value;
    assert IsDigit(r[0]) by {
      if k > 0 { assert r[0] == '0'; } else { assert r[0] == s[0]; }
    }
    assert r[0] != '-' && r[0] != '+';
    assert SignedValue(r) == Some(value as int);
  }

  /** A padded negative label is not a number: the zeros come before the
      minus sign. */
  lemma PaddedNegativeLabelDoesNotParse(value: int, digits: int)
    requires value < 0 && digits > |IntToString(value)|
    ensures ToIntOrNull(Label(value, digits)) == None
  {
    var r := Label(value, digits);
    var k := |r| - |IntToString(value)|;
    assert r[0] == '0' && r[k] == '-';
    assert !IsDigit(r[1..][k - 1]);
  }

  /** `numberItems`: one label per ticket `rangeStart..rangeEnd`, in order;
      none when the range is empty. */
  function TicketLabels(raffle: Raffle): (labels: seq<string>)
    ensures |labels| == if raffle.rangeEnd >= raffle.rangeStart then raffle.rangeEnd - raffle.rangeStart + 1 else 0
    ensures forall i :: 0 <= i < |labels| ==> labels[i] == Label(raffle.rangeStart + i, raffle.digits)
  {
    var n := if raffle.rangeEnd >= raffle.rangeStart then raffle.rangeEnd - raffle.rangeStart + 1 else 0;
    seq(n, i requires 0 <= i < n => Label(raffle.rangeStart + i, raffle.digits))
  }

  /** The grid holds exactly the tickets of the range, ascending, each once. */
  lemma TicketLabelsAreTheRange(raffle: Raffle)
    ensures var labels := TicketLabels(raffle);
      && (forall i :: 0 <= i < |labels| ==> LabelValue(labels[i]) == Some(raffle.rangeStart + i))
      && (forall i, j :: 0 <= i < j < |labels| ==> labels[i] != labels[j])
  {
    var labels := TicketLabels(raffle);
    forall i | 0 <= i < |labels| ensures LabelValue(labels[i]) == Some(raffle.rangeStart + i) {
      LabelRoundTrip(raffle.rangeStart + i, raffle.digits);
    }
  }

  /** The labels of the raffle shown by the detail screen; none while it is
      being loaded or when there is no such raffle. */
  function NumberItems(raffle: Option<Raffle>): (labels: seq<string>)
    ensures raffle.None? ==> labels == []
    ensures raffle.Some? ==> labels == TicketLabels(raffle.value)
  {
    match raffle
    case None => []
    case Some(r) => TicketLabels(r)
  }

  // ---------------------------------------------------------------------
  // Grid layout
  // ---------------------------------------------------------------------

  /** Columns of the grid: 4 up to 20 labels, 6 up to 50, 8 beyond. */
  function ColumnsCount(labels: nat): (c: nat)
    ensures c == 4 <==> labels <= 20
    ensures c == 6 <==> 20 < labels <= 50
    ensures c == 8 <==> 50 < labels
  {
    if labels <= 20 then 4 else if labels <= 50 then 6 else 8
  }

  const MaxNumbersPerPage: nat := 100

  /** `numberPages`: the labels in pages of 100. */
  function NumberPages(labels: seq<string>): seq<seq<string>> {
    Lists.Chunked(labels, MaxNumbersPerPage)
  }

  /** The pages put together are the grid; each holds 1 to 100 labels, all
      but the last exactly 100; there are just enough of them. */
  lemma NumberPagesSpec(labels: seq<string>)
    ensures var pages := NumberPages(labels);
      && Lists.Flatten(pages) == labels
      && (forall i :: 0 <= i < |pages| ==> 1 <= |pages[i]| <= MaxNumbersPerPage)
      && (forall i :: 0 <= i < |pages| - 1 ==> |pages[i]| == MaxNumbersPerPage)
      && (labels == [] <==> pages == [])
      && (labels != [] ==> (|pages| - 1) * MaxNumbersPerPage < |labels| <= |pages| * MaxNumbersPerPage)
  {
    Lists.ChunkedFlatten(labels, MaxNumbersPerPage);
    Lists.ChunkedSizes(labels, MaxNumbersPerPage);
    Lists.ChunkedCount(labels, MaxNumbersPerPage);
  }

  /** `pageInfo` of page `index` (0-based): shown only when there are two
      pages or more. */
  function PageInfo(index: nat, pageCount: nat): (r: Option<string>)
    ensures r.Some? <==> pageCount > 1
    ensures r.Some? ==> r.value == "Página " + IntToString(index + 1) + "/" + IntToString(pageCount)
  {
    if pageCount > 1 then Some("Página " + IntToString(index + 1) + "/" + IntToString(pageCount)) else None
  }

  /** The page caption appears exactly when the grid has more than 100
      labels. */
  lemma PageInfoShownIffOverflow(labels: seq<string>, index: nat)
    ensures PageInfo(index, |NumberPages(labels)|).Some? <==> |labels| > MaxNumbersPerPage
  {
    Lists.ChunkedCount(labels, MaxNumbersPerPage);
  }

  // ---------------------------------------------------------------------
  // The "create raffle" form
  // ---------------------------------------------------------------------

  /** `parsedDigits`: the length of the longer range text. */
  function ParsedDigits(startText: string, endText: string): (d: nat)
    ensures d >= |startText| && d >= |endText|
    ensures d == |startText| || d == |endText|
  {
    if |startText| >= |endText| then |startText| else |endText|
  }

  /** `canSave`: a name that is not blank and a range whose two ends parse
      as `Int`s, the end not below the start. */
  predicate CanSave(name: string, startText: string, endText: string) {
    && !IsBlank(name)
    && ToIntOrNull(startText).Some? && ToIntOrNull(endText).Some?
    && ToIntOrNull(endText).value >= ToIntOrNull(startText).value
  }

  /** A raffle the form can save is padded to at least one digit, and to at
      least the length of each end of its range. */
  lemma SavableDigits(name: string, startText: string, endText: string)
    requires CanSave(name, startText, endText)
    ensures ParsedDigits(startText, endText) >= 1
    ensures ParsedDigits(startText, endText) >= |IntToString(ToIntOrNull(startText).value)|
    ensures ParsedDigits(startText, endText) >= |IntToString(ToIntOrNull(endText).value)|
  {
    ParsedTextIsNoShorter(startText);
    ParsedTextIsNoShorter(endText);
  }

  /** The form's preview: every ticket of a well-formed range, padded to
      `parsedDigits`; nothing otherwise. */
  function PreviewItems(startText: string, endText: string): (labels: seq<string>)
    ensures var s, e := ToIntOrNull(startText), ToIntOrNull(endText);
      if s.Some? && e.Some? && e.value >= s.value then
        |labels| == e.value - s.value + 1
        && forall i :: 0 <= i < |labels| ==> labels[i] == PadStart(IntToString(s.value + i), ParsedDigits(startText, endText), '0')
      else labels == []
  {
    var s, e := ToIntOrNull(startText), ToIntOrNull(endText);
    if s.Some? && e.Some? && e.value >= s.value then
      var n := e.value - s.value + 1;
      var d := ParsedDigits(startText, endText);
      seq(n, i requires 0 <= i < n => PadStart(IntToString(s.value + i), d, '0'))
    else []
  }

  /** What the preview shows is what the saved raffle's grid will show: the
      preview pads unconditionally, the grid only for `digits > 0`, and a
      savable form always has `digits > 0`. */
  lemma PreviewMatchesGrid(name: string, startText: string, endText: string, raffle: Raffle)
    requires CanSave(name, startText, endText)
    requires raffle.rangeStart == ToIntOrNull(startText).value && raffle.rangeEnd == ToIntOrNull(endText).value
    requires raffle.digits == ParsedDigits(startText, endText)
    ensures PreviewItems(startText, endText) == TicketLabels(raffle)
  {
    SavableDigits(name, startText, endText);
  }

  /** The preview's rows: the labels in rows of `ColumnsCount`. */
  function PreviewRows(labels: seq<string>): seq<seq<string>> {
    Lists.Chunked(labels, ColumnsCount(|labels|))
  }

  /** Empty boxes completing a row: `columnsCount - rowItems.size`. */
  function EmptyBoxes(row: seq<string>, columns: nat): int {
    columns - |row|
  }

  /** Every preview row is full but the last, which the empty boxes
      complete: each row then has exactly `ColumnsCount` cells. */
  lemma PreviewRowsFill(labels: seq<string>)
    ensures var rows, c := PreviewRows(labels), ColumnsCount(|labels|);
      && Lists.Flatten(rows) == labels
      && (forall i :: 0 <= i < |rows| ==> 0 <= EmptyBoxes(rows[i], c) && |rows[i]| + EmptyBoxes(rows[i], c) == c)
      && (forall i :: 0 <= i < |rows| - 1 ==> EmptyBoxes(rows[i], c) == 0)
  {
    Lists.ChunkedFlatten(labels, ColumnsCount(|labels|));
    Lists.ChunkedSizes(labels, ColumnsCount(|labels|));
  }
}
