/**
 The row layout of the CCE worldtube mode recorder.

 Each call of `append_modal_data` writes one row: the time, followed by the
 spin-weighted spherical-harmonic modes of one quantity, ordered by `l`
 ascending, then `m` ascending, with the real part before the imaginary
 part. For a spin-0 (real) quantity the negative `m` modes and the
 imaginary part of `m == 0` are redundant and are not written. A legend
 naming every column is built once per mode (real or complex) when the
 recorder is constructed.

 The model describes the row abstractly as a sequence of `Entry` values
 (`Layout`), proves its length and contents, and shows that the legend and
 the data row built by the C++ nested loops both follow that layout.
 */
module WorldtubeModeRecorder {
  import opened Wrappers
  import opened Decimal

  /** The Bondi quantities that have a dataset label in the output file. */
  datatype Tag =
    | BondiBeta | BondiU | BondiQ | BondiW | BondiJ
    | DrBondiJ | DuBondiJ | BondiR | DuBondiR

  /** `dataset_label_for_tag`: the fixed subfile label of each quantity. */
  function DatasetLabel(t: Tag): (name: string)
    ensures TagForLabel(name) == Some(t)
  {
    match t
    case BondiBeta => "Beta"
    case BondiU => "U"
    case BondiQ => "Q"
    case BondiW => "W"
    case BondiJ => "J"
    case DrBondiJ => "DrJ"
    case DuBondiJ => "H"
    case BondiR => "R"
    case DuBondiR => "DuR"
  }

  /** The inverse of `DatasetLabel`: which quantity a label belongs to. */
  function TagForLabel(name: string): Option<Tag>
  {
    if name == "Beta" then Some(BondiBeta)
    else if name == "U" then Some(BondiU)
    else if name == "Q" then Some(BondiQ)
    else if name == "W" then Some(BondiW)
    else if name == "J" then Some(BondiJ)
    else if name == "DrJ" then Some(DrBondiJ)
    else if name == "H" then Some(DuBondiJ)
    else if name == "R" then Some(BondiR)
    else if name == "DuR" then Some(DuBondiR)
    else None
  }

  /** Distinct quantities are written to distinct subfiles. */
  lemma DatasetLabelsDistinct(t1: Tag, t2: Tag)
    ensures DatasetLabel(t1) == DatasetLabel(t2) <==> t1 == t2
  {
    if DatasetLabel(t1) == DatasetLabel(t2) {
      assert Some(t1) == TagForLabel(DatasetLabel(t1)) == Some(t2);
    }
  }

  // ---------------------------------------------------------------------
  // The abstract row layout
  // ---------------------------------------------------------------------

  datatype Part = Re | Im

  /** One column of a row: the time, or one part of the mode (l, m). */
  datatype Entry = TimeEntry | Mode(l: nat, m: int, part: Part)

  /** Real (spin-0) data is written exactly when the spin weight is zero. */
  predicate IsReal(spin: int)
  {
    spin == 0
  }

  function Square(n: nat): nat
  {
    n * n
  }

  /** `data_to_write_size`: the number of values in one row. */
  function DataToWriteSize(lMax: nat, isReal: bool): (size: nat)
    ensures size >= 2
    ensures !isReal ==> size == 2 * DataToWriteSize(lMax, true) - 1
    decreases if isReal then 0 else 1
  {
    1 + Square(lMax + 1) * (if isReal then 1 else 2)
  }

  /** The first `m` written for a given `l`. */
  function FirstM(l: nat, isReal: bool): int
  {
    if isReal then 0 else -(l as int)
  }

  /** The columns written for the mode (l, m). */
  function EntriesAt(l: nat, m: int, isReal: bool): seq<Entry>
  {
    if isReal && m == 0 then [Mode(l, m, Re)] else [Mode(l, m, Re), Mode(l, m, Im)]
  }

  /** The columns written for `l` and every `m` from `FirstM(l)` up to, excluding, `mEnd`. */
  function ModesOfEllBelow(l: nat, mEnd: int, isReal: bool): seq<Entry>
    requires FirstM(l, isReal) <= mEnd
    decreases mEnd - FirstM(l, isReal)
  {
    if mEnd == FirstM(l, isReal) then []
    else ModesOfEllBelow(l, mEnd - 1, isReal) + EntriesAt(l, mEnd - 1, isReal)
  }

  function ModesOfEll(l: nat, isReal: bool): seq<Entry>
  {
    ModesOfEllBelow(l, l + 1, isReal)
  }

  /** The columns written for every `l` below `lEnd`. */
  function ModesBelow(lEnd: nat, isReal: bool): seq<Entry>
  {
    if lEnd == 0 then [] else ModesBelow(lEnd - 1, isReal) + ModesOfEll(lEnd - 1, isReal)
  }

  /** The whole row: the time followed by every mode up to `lMax`. */
  function Layout(lMax: nat, isReal: bool): seq<Entry>
  {
    [TimeEntry] + ModesBelow(lMax + 1, isReal)
  }

  /** Whether the mode (l, m, part) is written in a row with the given `lMax`. */
  predicate Written(lMax: nat, isReal: bool, l: nat, m: int, part: Part)
  {
    && l <= lMax
    && FirstM(l, isReal) <= m <= l
    && (isReal && m == 0 ==> part == Re)
  }

  // --- length ----------------------------------------------------------

  lemma {:induction false} ModesOfEllBelowLength(l: nat, mEnd: int, isReal: bool)
    requires FirstM(l, isReal) <= mEnd
    ensures !isReal ==> |ModesOfEllBelow(l, mEnd, isReal)| == 2 * (mEnd + l)
    ensures isReal ==> |ModesOfEllBelow(l, mEnd, isReal)| == (if mEnd == 0 then 0 else 2 * mEnd - 1)
    decreases mEnd - FirstM(l, isReal)
  {
    if mEnd != FirstM(l, isReal) {
      ModesOfEllBelowLength(l, mEnd - 1, isReal);
    }
  }

  /** Sum over l < lEnd of (2l + 1) is lEnd^2: the number of (l, m) pairs. */
  lemma {:induction false} ModesBelowLength(lEnd: nat, isReal: bool)
    ensures |ModesBelow(lEnd, isReal)| == Square(lEnd) * (if isReal then 1 else 2)
  {
    if lEnd > 0 {
      var l := lEnd - 1;
      ModesBelowLength(l, isReal);
      ModesOfEllBelowLength(l, l + 1, isReal);
      assert Square(lEnd) == Square(l) + 2 * l + 1;
    }
  }

  /** The row has exactly `data_to_write_size(is_real)` entries. */
  lemma LayoutLength(lMax: nat, isReal: bool)
    ensures |Layout(lMax, isReal)| == DataToWriteSize(lMax, isReal)
    ensures DataToWriteSize(lMax, isReal) <= DataToWriteSize(lMax, false)
  {
    ModesBelowLength(lMax + 1, isReal);
  }

  // --- contents ----------------------------------------------------------

  lemma EntriesAtContents(l: nat, m: int, isReal: bool, e: Entry)
    ensures e in EntriesAt(l, m, isReal) <==>
      e.Mode? && e.l == l && e.m == m && (isReal && e.m == 0 ==> e.part == Re)
  {
    if e.Mode? && e.l == l && e.m == m {
      match e.part
      case Re => assert e == Mode(l, m, Re);
      case Im => assert e == Mode(l, m, Im);
    }
  }

  lemma {:induction false} ModesOfEllBelowContents(l: nat, mEnd: int, isReal: bool, e: Entry)
    requires FirstM(l, isReal) <= mEnd
    ensures e in ModesOfEllBelow(l, mEnd, isReal) <==>
      e.Mode? && e.l == l && FirstM(l, isReal) <= e.m < mEnd && (isReal && e.m == 0 ==> e.part == Re)
    decreases mEnd - FirstM(l, isReal)
  {
    if mEnd != FirstM(l, isReal) {
      ModesOfEllBelowContents(l, mEnd - 1, isReal, e);
      var at := EntriesAt(l, mEnd - 1, isReal);
      assert ModesOfEllBelow(l, mEnd, isReal) == ModesOfEllBelow(l, mEnd - 1, isReal) + at;
      EntriesAtContents(l, mEnd - 1, isReal, e);
    }
  }

  lemma {:induction false} ModesBelowContents(lEnd: nat, isReal: bool, e: Entry)
    ensures e in ModesBelow(lEnd, isReal) <==>
      e.Mode? && e.l < lEnd && Written(e.l, isReal, e.l, e.m, e.part)
  {
    if lEnd > 0 {
      ModesBelowContents(lEnd - 1, isReal, e);
      ModesOfEllBelowContents(lEnd - 1, lEnd, isReal, e);
    }
  }

  /**
   A mode column appears in the row exactly when it is written: in complex
   mode every part of every (l, m) with |m| <= l <= lMax; in real mode only
   m >= 0, and no imaginary part for m == 0. The time appears too.
   */
  lemma LayoutContents(lMax: nat, isReal: bool, l: nat, m: int, part: Part)
    ensures Mode(l, m, part) in Layout(lMax, isReal) <==> Written(lMax, isReal, l, m, part)
    ensures TimeEntry in Layout(lMax, isReal)
  {
    ModesBelowContents(lMax + 1, isReal, Mode(l, m, part));
  }

  // --- order -------------------------------------------------------------

  /** Row order: the time first, then by l, then by m, then real before imaginary. */
  predicate Before(a: Entry, b: Entry)
  {
    match (a, b)
    case (TimeEntry, Mode(_, _, _)) => true
    case (Mode(l1, m1, p1), Mode(l2, m2, p2)) =>
      l1 < l2 || (l1 == l2 && (m1 < m2 || (m1 == m2 && p1 == Re && p2 == Im)))
    case _ => false
  }

  predicate Ordered(s: seq<Entry>)
  {
    forall i, j :: 0 <= i < j < |s| ==> Before(s[i], s[j])
  }

  lemma OrderedConcat(a: seq<Entry>, b: seq<Entry>)
    requires Ordered(a) && Ordered(b)
    requires forall i, j :: 0 <= i < |a| && 0 <= j < |b| ==> Before(a[i], b[j])
    ensures Ordered(a + b)
  {
    forall i, j | 0 <= i < j < |a + b|
      ensures Before((a + b)[i], (a + b)[j])
    {
      if j < |a| {
        assert (a + b)[i] == a[i] && (a + b)[j] == a[j];
      } else if i >= |a| {
        assert (a + b)[i] == b[i - |a|] && (a + b)[j] == b[j - |a|];
      } else {
        assert (a + b)[i] == a[i] && (a + b)[j] == b[j - |a|];
      }
    }
  }

  lemma {:induction false} ModesOfEllBelowOrdered(l: nat, mEnd: int, isReal: bool)
    requires FirstM(l, isReal) <= mEnd
    ensures Ordered(ModesOfEllBelow(l, mEnd, isReal))
    decreases mEnd - FirstM(l, isReal)
  {
    if mEnd != FirstM(l, isReal) {
      var a := ModesOfEllBelow(l, mEnd - 1, isReal);
      var b := EntriesAt(l, mEnd - 1, isReal);
      ModesOfEllBelowOrdered(l, mEnd - 1, isReal);
      forall i, j | 0 <= i < |a| && 0 <= j < |b|
        ensures Before(a[i], b[j])
      {
        ModesOfEllBelowContents(l, mEnd - 1, isReal, a[i]);
      }
      OrderedConcat(a, b);
    }
  }

  lemma {:induction false} ModesBelowOrdered(lEnd: nat, isReal: bool)
    ensures Ordered(ModesBelow(lEnd, isReal))
  {
    if lEnd > 0 {
      var a := ModesBelow(lEnd - 1, isReal);
      var b := ModesOfEll(lEnd - 1, isReal);
      ModesBelowOrdered(lEnd - 1, isReal);
      ModesOfEllBelowOrdered(lEnd - 1, lEnd, isReal);
      forall i, j | 0 <= i < |a| && 0 <= j < |b|
        ensures Before(a[i], b[j])
      {
        ModesBelowContents(lEnd - 1, isReal, a[i]);
        ModesOfEllBelowContents(lEnd - 1, lEnd, isReal, b[j]);
      }
      OrderedConcat(a, b);
    }
  }

  /**
   The row is strictly ordered by (l, m, part) after the leading time, so in
   particular no column is written twice.
   */
  lemma LayoutOrdered(lMax: nat, isReal: bool)
    ensures Ordered(Layout(lMax, isReal))
    ensures forall i, j :: 0 <= i < j < |Layout(lMax, isReal)| ==> Layout(lMax, isReal)[i] != Layout(lMax, isReal)[j]
  {
    var b := ModesBelow(lMax + 1, isReal);
    ModesBelowOrdered(lMax + 1, isReal);
    forall i, j | 0 <= i < 1 && 0 <= j < |b|
      ensures Before([TimeEntry][i], b[j])
    {
      ModesBelowContents(lMax + 1, isReal, b[j]);
    }
    OrderedConcat([TimeEntry], b);
  }

  // ---------------------------------------------------------------------
  // Legend labels
  // ---------------------------------------------------------------------

  function PartPrefix(p: Part): string
  {
    match p
    case Re => "Re("
    case Im => "Im("
  }

  /** The legend text of one column: "Time", or "Re(l,m)" / "Im(l,m)". */
  function Label(e: Entry): string
  {
    match e
    case TimeEntry => "Time"
    case Mode(l, m, p) => PartPrefix(p) + IntToString(l) + "," + IntToString(m) + ")"
  }

  /**
   A label is "Time" exactly for the time column; a mode label opens with
   the prefix of its part, "Re(" or "Im(", and closes with ')'.
   */
  lemma LabelShape(e: Entry)
    ensures Label(e) == "Time" <==> e.TimeEntry?
    ensures e.Mode? ==> |Label(e)| >= 4 && Label(e)[..3] == PartPrefix(e.part) && Label(e)[|Label(e)| - 1] == ')'
  {
    if e.Mode? {
      var name := Label(e);
      assert name[..3] == PartPrefix(e.part);
      assert name != "Time" by { assert "Time"[3] == 'e' && name[|name| - 1] == ')'; }
    }
  }

  /** The first position of `c` in `s`, if any. */
  function IndexOf(s: string, c: char): (r: Option<nat>)
    ensures r.Some? ==> r.value < |s| && s[r.value] == c && c !in s[..r.value]
    ensures r.None? ==> c !in s
  {
    if |s| == 0 then None
    else if s[0] == c then Some(0)
    else match IndexOf(s[1..], c)
      case None => None
      case Some(k) => assert s[..k + 1] == [s[0]] + s[1..][..k]; Some(k + 1)
  }

  /** Reads "l,m" back into the mode (l, m) with the given part. */
  function ParseModeLabel(part: Part, body: string): Option<Entry>
  {
    match IndexOf(body, ',')
    case None => None
    case Some(k) =>
      match (ParseInt(body[..k]), ParseInt(body[k + 1..]))
      case (Some(l), Some(m)) => if l >= 0 then Some(Mode(l, m, part)) else None
      case _ => None
  }

  /** Reads a legend label back into the column it names. */
  function ParseLabel(s: string): Option<Entry>
  {
    if s == "Time" then Some(TimeEntry)
    else if |s| >= 4 && s[|s| - 1] == ')' && s[..3] == "Re(" then ParseModeLabel(Re, s[3..|s| - 1])
    else if |s| >= 4 && s[|s| - 1] == ')' && s[..3] == "Im(" then ParseModeLabel(Im, s[3..|s| - 1])
    else None
  }

  lemma IndexOfAfterPrefix(a: string, b: string, c: char)
    requires c !in a
    ensures IndexOf(a + [c] + b, c) == Some(|a|)
  {
    var s := a + [c] + b;
    assert s[|a|] == c;
    assert s[..|a|] == a;
  }

  /** A mode label is read by the branch of `ParseLabel` for its part, on the text between the brackets. */
  lemma ModeLabelShape(l: nat, m: int, p: Part)
    ensures ParseLabel(Label(Mode(l, m, p))) == ParseModeLabel(p, IntToString(l) + "," + IntToString(m))
  {
    var body := IntToString(l) + "," + IntToString(m);
    var s := Label(Mode(l, m, p));
    assert s == PartPrefix(p) + body + ")";
    assert s[..3] == PartPrefix(p);
    assert s[3..|s| - 1] == body;
    assert s[|s| - 1] == ')';
    assert s != "Time" by { assert "Time"[3] == 'e'; }
    assert PartPrefix(Im)[0] != 'R';
  }

  lemma ParseModeBody(ls: string, ms: string, l: nat, m: int, p: Part)
    requires ParseInt(ls) == Some(l as int) && ParseInt(ms) == Some(m)
    requires forall k :: 0 <= k < |ls| ==> IsDigit(ls[k]) || ls[k] == '-'
    ensures ParseModeLabel(p, ls + "," + ms) == Some(Mode(l, m, p))
  {
    var body := ls + "," + ms;
    assert ',' !in ls by {
      forall k | 0 <= k < |ls| ensures ls[k] != ',' {
      }
    }
    IndexOfAfterPrefix(ls, ms, ',');
    assert body[..|ls|] == ls;
    assert body[|ls| + 1..] == ms;
  }

  /** Every label names exactly its column: parsing a label gives the column back. */
  lemma ParseLabelRoundTrip(e: Entry)
    ensures ParseLabel(Label(e)) == Some(e)
  {
    if e.Mode? {
      ModeLabelShape(e.l, e.m, e.part);
      ParseIntToString(e.l);
      ParseIntToString(e.m);
      ParseModeBody(IntToString(e.l), IntToString(e.m), e.l, e.m, e.part);
    }
  }

  lemma LabelInjective(a: Entry, b: Entry)
    ensures Label(a) == Label(b) <==> a == b
  {
    if Label(a) == Label(b) {
      ParseLabelRoundTrip(a);
      ParseLabelRoundTrip(b);
    }
  }

  /** `legend` labels the columns of `Layout(lMax, isReal)` one by one. */
  predicate LabelsLayout(legend: seq<string>, lMax: nat, isReal: bool)
  {
    && |legend| == |Layout(lMax, isReal)|
    && forall k :: 0 <= k < |legend| ==> legend[k] == Label(Layout(lMax, isReal)[k])
  }

  /** No two legend entries coincide. */
  lemma LegendDistinct(legend: seq<string>, lMax: nat, isReal: bool)
    requires LabelsLayout(legend, lMax, isReal)
    ensures forall i, j :: 0 <= i < j < |legend| ==> legend[i] != legend[j]
  {
    LayoutOrdered(lMax, isReal);
    forall i, j | 0 <= i < j < |legend|
      ensures legend[i] != legend[j]
    {
      LabelInjective(Layout(lMax, isReal)[i], Layout(lMax, isReal)[j]);
    }
  }

  /** The legend prefix `legend` labels, entry by entry, the entries `done`. */
  predicate LabelsMatch(legend: seq<string>, done: seq<Entry>)
  {
    && |legend| == |done|
    && forall k :: 0 <= k < |legend| ==> legend[k] == Label(done[k])
  }

  lemma LabelsMatchAppend(legend: seq<string>, done: seq<Entry>, e: Entry)
    requires LabelsMatch(legend, done)
    ensures LabelsMatch(legend + [Label(e)], done + [e])
  {
  }

  /** The inner loop of `build_legend`: appends the labels of every m for one l. */
  method AppendLabelsOfEll(ell: nat, isReal: bool, legend0: seq<string>, ghost done0: seq<Entry>)
    returns (legend: seq<string>)
    requires LabelsMatch(legend0, done0)
    ensures LabelsMatch(legend, done0 + ModesOfEll(ell, isReal))
  {
    legend := legend0;
    ghost var done := done0;
    var m: int := if isReal then 0 else -(ell as int);
    while m <= ell
      invariant FirstM(ell, isReal) <= m <= ell + 1
      invariant done == done0 + ModesOfEllBelow(ell, m, isReal)
      invariant LabelsMatch(legend, done)
    {
      LabelsMatchAppend(legend, done, Mode(ell, m, Re));
      legend := legend + [Label(Mode(ell, m, Re))];
      done := done + [Mode(ell, m, Re)];
      if !isReal || m != 0 {
        LabelsMatchAppend(legend, done, Mode(ell, m, Im));
        legend := legend + [Label(Mode(ell, m, Im))];
        done := done + [Mode(ell, m, Im)];
      }
      m := m + 1;
    }
  }

  /**
   `build_legend`: the same nested loops as the recorder, producing the
   label of every column of the row in order.
   */
  method BuildLegend(lMax: nat, isReal: bool) returns (legend: seq<string>)
    ensures LabelsLayout(legend, lMax, isReal)
    ensures |legend| == DataToWriteSize(lMax, isReal)
    ensures legend[0] == "Time"
  {
    legend := ["Time"];
    ghost var done := [TimeEntry];
    var ell: nat := 0;
    while ell <= lMax
      invariant ell <= lMax + 1
      invariant done == [TimeEntry] + ModesBelow(ell, isReal)
      invariant LabelsMatch(legend, done)
    {
      legend := AppendLabelsOfEll(ell, isReal, legend, done);
      assert ModesBelow(ell + 1, isReal) == ModesBelow(ell, isReal) + ModesOfEll(ell, isReal);
      done := done + ModesOfEll(ell, isReal);
      ell := ell + 1;
    }
    assert done == Layout(lMax, isReal);
    assert legend[0] == Label(done[0]);
    LayoutLength(lMax, isReal);
  }

  // ---------------------------------------------------------------------
  // The recorder and its data rows
  // ---------------------------------------------------------------------

  datatype Complex = Complex(re: real, im: real)

  function Component(z: Complex, p: Part): real
  {
    match p
    case Re => z.re
    case Im => z.im
  }

  /** The recorder's state apart from the output file: `l_max_` and the two legends. */
  datatype Recorder = Recorder(lMax: nat, allLegend: seq<string>, realLegend: seq<string>)

  predicate Valid(rec: Recorder)
  {
    LabelsLayout(rec.allLegend, rec.lMax, false) && LabelsLayout(rec.realLegend, rec.lMax, true)
  }

  /** The constructor: both legends are built once, up front. */
  method NewRecorder(lMax: nat) returns (rec: Recorder)
    ensures rec.lMax == lMax && Valid(rec)
    ensures |rec.allLegend| == DataToWriteSize(lMax, false)
    ensures |rec.realLegend| == DataToWriteSize(lMax, true)
  {
    var all := BuildLegend(lMax, false);
    var realOnly := BuildLegend(lMax, true);
    rec := Recorder(lMax, all, realOnly);
  }

  /**
   Every mode the row reads lies inside the modal data: the role of the
   (unmodelled) `goldberg_mode_index` is to map (l_max, l, m) into the
   Goldberg-ordered coefficient vector.
   */
  predicate IndexesModalData(lMax: nat, modal: seq<Complex>, goldbergIndex: (nat, nat, int) -> nat)
  {
    forall l: nat, m: int :: l <= lMax && -(l as int) <= m <= l ==> goldbergIndex(lMax, l, m) < |modal|
  }

  /**
   `text` names the column holding `value`: "Time" holds the time, and
   "Re(l,m)" / "Im(l,m)" hold that part of the coefficient of mode (l, m).
   */
  predicate Describes(text: string, value: real, time: real, lMax: nat, modal: seq<Complex>,
                      goldbergIndex: (nat, nat, int) -> nat)
  {
    match ParseLabel(text)
    case Some(TimeEntry) => value == time
    case Some(e) => ColumnHolds(e, value, lMax, modal, goldbergIndex)
    case None => false
  }

  /** `value` is the part `e.part` of the coefficient of mode (e.l, e.m). */
  predicate ColumnHolds(e: Entry, value: real, lMax: nat, modal: seq<Complex>,
                        goldbergIndex: (nat, nat, int) -> nat)
  {
    && e.Mode?
    && e.l <= lMax && -(e.l as int) <= e.m <= e.l
    && goldbergIndex(lMax, e.l, e.m) < |modal|
    && value == Component(modal[goldbergIndex(lMax, e.l, e.m)], e.part)
  }

  /** The row prefix `row` holds, column by column, the entries `done` name. */
  predicate RowMatches(row: seq<real>, done: seq<Entry>, time: real, lMax: nat, modal: seq<Complex>,
                       goldbergIndex: (nat, nat, int) -> nat)
  {
    && |row| == |done| >= 1
    && row[0] == time
    && forall k :: 1 <= k < |row| ==> ColumnHolds(done[k], row[k], lMax, modal, goldbergIndex)
  }

  /** The inner loop of `append_modal_data`: appends the columns of every m for one l. */
  method AppendModesOfEll(lMax: nat, ell: nat, isReal: bool, time: real, modal: seq<Complex>,
                          goldbergIndex: (nat, nat, int) -> nat, row0: seq<real>, ghost done0: seq<Entry>)
    returns (row: seq<real>)
    requires ell <= lMax
    requires IndexesModalData(lMax, modal, goldbergIndex)
    requires RowMatches(row0, done0, time, lMax, modal, goldbergIndex)
    ensures RowMatches(row, done0 + ModesOfEll(ell, isReal), time, lMax, modal, goldbergIndex)
  {
    row := row0;
    ghost var done := done0;
    var m: int := if isReal then 0 else -(ell as int);
    while m <= ell
      invariant FirstM(ell, isReal) <= m <= ell + 1
      invariant done == done0 + ModesOfEllBelow(ell, m, isReal)
      invariant RowMatches(row, done, time, lMax, modal, goldbergIndex)
    {
      var z := modal[goldbergIndex(lMax, ell, m)];
      row := row + [z.re];
      done := done + [Mode(ell, m, Re)];
      if !isReal || m != 0 {
        row := row + [z.im];
        done := done + [Mode(ell, m, Im)];
      }
      m := m + 1;
    }
  }

  /** A row matching the layout is described, column by column, by the legend of that layout. */
  lemma {:induction false} LegendDescribesRow(legend: seq<string>, row: seq<real>, time: real, lMax: nat, isReal: bool,
                           modal: seq<Complex>, goldbergIndex: (nat, nat, int) -> nat)
    requires LabelsLayout(legend, lMax, isReal)
    requires RowMatches(row, Layout(lMax, isReal), time, lMax, modal, goldbergIndex)
    ensures forall k :: 0 <= k < |row| ==> Describes(legend[k], row[k], time, lMax, modal, goldbergIndex)
  {
    var layout := Layout(lMax, isReal);
    forall k | 0 <= k < |row|
      ensures Describes(legend[k], row[k], time, lMax, modal, goldbergIndex)
    {
      ParseLabelRoundTrip(layout[k]);
      assert k == 0 ==> layout[k] == TimeEntry;
    }
  }

  /**
   `append_modal_data` for modal input: the row written for one quantity
   of spin weight `spin` at `time`, together with the legend the output
   dataset is created with. Legend and row have the same length and the
   k-th label names the k-th value.
   */
  method AppendModalData(rec: Recorder, spin: int, time: real, modal: seq<Complex>,
                         goldbergIndex: (nat, nat, int) -> nat)
    returns (legend: seq<string>, row: seq<real>)
    requires Valid(rec)
    requires IndexesModalData(rec.lMax, modal, goldbergIndex)
    ensures legend == (if IsReal(spin) then rec.realLegend else rec.allLegend)
    ensures |row| == |legend| == DataToWriteSize(rec.lMax, IsReal(spin))
    ensures |row| <= DataToWriteSize(rec.lMax, false)
    ensures row[0] == time && legend[0] == "Time"
    ensures forall k :: 0 <= k < |row| ==> Describes(legend[k], row[k], time, rec.lMax, modal, goldbergIndex)
  {
    var isReal := IsReal(spin);
    row := [time];
    ghost var done := [TimeEntry];
    var ell: nat := 0;
    while ell <= rec.lMax
      invariant ell <= rec.lMax + 1
      invariant done == [TimeEntry] + ModesBelow(ell, isReal)
      invariant RowMatches(row, done, time, rec.lMax, modal, goldbergIndex)
    {
      row := AppendModesOfEll(rec.lMax, ell, isReal, time, modal, goldbergIndex, row, done);
      done := done + ModesOfEll(ell, isReal);
      ell := ell + 1;
    }
    assert done == Layout(rec.lMax, isReal);
    LayoutLength(rec.lMax, isReal);
    legend := if isReal then rec.realLegend else rec.allLegend;
    LegendDescribesRow(legend, row, time, rec.lMax, isReal, modal, goldbergIndex);
  }
}
