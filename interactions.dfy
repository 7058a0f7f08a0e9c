/** The drug-interaction check: every pair of listed medicines, in index
    order i < j, is looked up case-insensitively in a fixed five-entry table
    and the first entry containing both names is reported. */
module Interactions {
  import opened Common

  /** A table entry: the canonical pair, a severity and a description. */
  datatype Entry = Entry(first: string, second: string, severity: string, description: string)

  const AspirinWarfarin := Entry("Aspirin", "Warfarin", "High", "Increased risk of bleeding.")
  const ParacetamolWarfarin := Entry("Paracetamol", "Warfarin", "Moderate", "May enhance anticoagulant effect.")
  const AmoxicillinMethotrexate :=
    Entry("Amoxicillin", "Methotrexate", "High", "Increased toxicity of Methotrexate.")
  const IbuprofenAspirin :=
    Entry("Ibuprofen", "Aspirin", "Moderate", "May reduce anti-platelet effect of Aspirin.")
  const MetforminInsulin := Entry("Metformin", "Insulin", "Moderate", "Increased risk of hypoglycemia.")

  /** The interaction table, in lookup order. */
  const Table: seq<Entry> :=
    [AspirinWarfarin, ParacetamolWarfarin, AmoxicillinMethotrexate, IbuprofenAspirin, MetforminInsulin]

  /** A reported interaction: the entry's canonical pair, severity and
      description. */
  datatype Report = Report(medicines: seq<string>, severity: string, description: string)

  function ReportOf(e: Entry): Report {
    Report([e.first, e.second], e.severity, e.description)
  }

  /** `pair.map(p => p.toLowerCase()).includes(name)` for a lower-cased name. */
  predicate Mentions(e: Entry, lowered: string) {
    ToLower(e.first) == lowered || ToLower(e.second) == lowered
  }

  /** The `find` callback for the lower-cased names `med1` and `med2`. */
  predicate Matches(e: Entry, med1: string, med2: string) {
    Mentions(e, med1) && Mentions(e, med2)
  }

  /** `INTERACTIONS_DB.find(...)` from position `k`: the first entry at or
      after `k` that mentions both lower-cased names. */
  function FindFrom(table: seq<Entry>, k: nat, med1: string, med2: string): (found: Option<nat>)
    requires k <= |table|
    ensures found.Some? ==>
      k <= found.value < |table| && Matches(table[found.value], med1, med2) &&
      forall i :: k <= i < found.value ==> !Matches(table[i], med1, med2)
    ensures found.None? ==> forall i :: k <= i < |table| ==> !Matches(table[i], med1, med2)
    decreases |table| - k
  {
    if k == |table| then None
    else if Matches(table[k], med1, med2) then Some(k)
    else FindFrom(table, k + 1, med1, med2)
  }

  /** The listed names lower-cased, as the loop body reads them. */
  function Lowered(meds: seq<string>): (ls: seq<string>)
    ensures |ls| == |meds| && forall k :: 0 <= k < |meds| ==> ls[k] == ToLower(meds[k])
  {
    seq(|meds|, k requires 0 <= k < |meds| => ToLower(meds[k]))
  }

  /** What the pair (i, j) of lower-cased names contributes: the report of
      the first matching entry, or nothing. */
  function PairReport(table: seq<Entry>, ls: seq<string>, i: nat, j: nat): (rs: seq<Report>)
    requires i < j < |ls|
    ensures |rs| <= 1
  {
    var found := FindFrom(table, 0, ls[i], ls[j]);
    if found.Some? then [ReportOf(table[found.value])] else []
  }

  /** The reports of pairs (i, i + 1), ..., (i, j - 1), in that order. */
  function Row(table: seq<Entry>, ls: seq<string>, i: nat, j: nat): (rs: seq<Report>)
    requires i < |ls| && j <= |ls|
    ensures |rs| <= if j > i + 1 then j - i - 1 else 0
    decreases j
  {
    if j <= i + 1 then [] else Row(table, ls, i, j - 1) + PairReport(table, ls, i, j - 1)
  }

  /** The reports of the rows 0, ..., i - 1, in that order. */
  function Rows(table: seq<Entry>, ls: seq<string>, i: nat): seq<Report>
    requires i <= |ls|
  {
    if i == 0 then [] else Rows(table, ls, i - 1) + Row(table, ls, i - 1, |ls|)
  }

  /** The reports for a whole list: every pair i < j once, in (i, j) order. */
  function AllReports(table: seq<Entry>, meds: seq<string>): seq<Report> {
    var ls := Lowered(meds);
    Rows(table, ls, |ls|)
  }

  /** The reply's payload: the reports and, for a short list, the note. */
  datatype Checked = Checked(data: seq<Report>, message: Option<string>)

  /** POST /api/interactions/check against `table` (the service uses
      `Table`). `medicines` is None when the body holds no array; such a
      body, or a list shorter than 2, gets an empty report. */
  method CheckInteractions(table: seq<Entry>, medicines: Option<seq<string>>) returns (res: Result<Checked>)
    ensures medicines.None? || |medicines.value| < 2 ==>
      res == Ok(OK, Checked([], Some("Need at least 2 medicines to check interactions.")))
    ensures medicines.Some? && |medicines.value| >= 2 ==>
      res == Ok(OK, Checked(AllReports(table, medicines.value), None))
  {
    if medicines.None? || |medicines.value| < 2 {
      return Ok(OK, Checked([], Some("Need at least 2 medicines to check interactions.")));
    }
    var meds := medicines.value;
    ghost var ls := Lowered(meds);
    var found: seq<Report> := [];
    for i := 0 to |meds|
      invariant found == Rows(table, ls, i)
    {
      var row := CheckRow(table, meds, i);
      found := found + row;
    }
    res := Ok(OK, Checked(found, None));
  }

  /** The inner loop of the check: medicine `i` against every later one. */
  method CheckRow(table: seq<Entry>, meds: seq<string>, i: nat) returns (row: seq<Report>)
    requires i < |meds|
    ensures row == Row(table, Lowered(meds), i, |meds|)
  {
    ghost var ls := Lowered(meds);
    row := [];
    for j := i + 1 to |meds|
      invariant row == Row(table, ls, i, j)
    {
      var med1 := ToLower(meds[i]);
      var med2 := ToLower(meds[j]);
      var hit := FindFrom(table, 0, med1, med2);
      assert med1 == ls[i] && med2 == ls[j];
      if hit.Some? {
        row := row + [ReportOf(table[hit.value])];
      }
    }
  }

  /** Each pair is examined once, so n medicines give at most n(n-1)/2
      reports. */
  lemma {:induction false} RowsBound(table: seq<Entry>, ls: seq<string>, i: nat)
    requires i <= |ls|
    ensures 2 * |Rows(table, ls, i)| <= i * (2 * |ls| - i - 1)
  {
    if i > 0 {
      RowsBound(table, ls, i - 1);
      var n := |ls|;
      assert |Row(table, ls, i - 1, n)| <= n - i;
      assert (i - 1) * (2 * n - (i - 1) - 1) + 2 * (n - i) == i * (2 * n - i - 1);
    }
  }

  lemma AtMostOneReportPerPair(table: seq<Entry>, meds: seq<string>)
    ensures 2 * |AllReports(table, meds)| <= |meds| * (|meds| - 1)
  {
    RowsBound(table, Lowered(meds), |meds|);
  }

  /** Every report is a table entry's canonical pair with its severity and
      description. */
  lemma {:induction false} RowFromTable(table: seq<Entry>, ls: seq<string>, i: nat, j: nat)
    requires i < |ls| && j <= |ls|
    ensures forall r :: r in Row(table, ls, i, j) ==> exists e :: e in table && r == ReportOf(e)
    decreases j
  {
    if j > i + 1 {
      RowFromTable(table, ls, i, j - 1);
      var found := FindFrom(table, 0, ls[i], ls[j - 1]);
      if found.Some? {
        assert table[found.value] in table;
      }
    }
  }

  lemma {:induction false} RowsFromTable(table: seq<Entry>, ls: seq<string>, i: nat)
    requires i <= |ls|
    ensures forall r :: r in Rows(table, ls, i) ==> exists e :: e in table && r == ReportOf(e)
  {
    if i > 0 {
      RowsFromTable(table, ls, i - 1);
      RowFromTable(table, ls, i - 1, |ls|);
    }
  }

  lemma ReportsFromTable(table: seq<Entry>, meds: seq<string>)
    ensures forall r :: r in AllReports(table, meds) ==> exists e :: e in table && r == ReportOf(e)
  {
    RowsFromTable(table, Lowered(meds), |meds|);
  }

  /** The two lists name the same medicines once lower-cased. */
  predicate SameLowered(a: seq<string>, b: seq<string>) {
    |a| == |b| && forall k :: 0 <= k < |a| ==> ToLower(a[k]) == ToLower(b[k])
  }

  /** Matching ignores case: two lists whose names agree once lower-cased
      get the same reports. */
  lemma CaseInsensitive(table: seq<Entry>, a: seq<string>, b: seq<string>)
    requires SameLowered(a, b)
    ensures AllReports(table, a) == AllReports(table, b)
  {
    assert Lowered(a) == Lowered(b);
  }

  /** Two medicines that match entry `k` first are reported as that entry. */
  lemma PairFound(table: seq<Entry>, m1: string, m2: string, k: nat)
    requires k < |table| && FindFrom(table, 0, ToLower(m1), ToLower(m2)) == Some(k)
    ensures AllReports(table, [m1, m2]) == [ReportOf(table[k])]
  {
    var ls := Lowered([m1, m2]);
    assert ls[0] == ToLower(m1) && ls[1] == ToLower(m2);
    assert Rows(table, ls, 1) == Row(table, ls, 0, 2);
  }

  lemma {:induction false} FindFirst(table: seq<Entry>, from: nat, k: nat, l: string)
    requires from <= k < |table|
    requires Mentions(table[k], l)
    requires forall i :: from <= i < k ==> !Mentions(table[i], l)
    ensures FindFrom(table, from, l, l) == Some(k)
    decreases k - from
  {
    if from < k {
      FindFirst(table, from + 1, k, l);
    }
  }

  /** A medicine listed twice (in any case) is taken for an interacting
      pair: the first table entry that mentions it is reported. */
  lemma DuplicateNameQuirk(table: seq<Entry>, m: string, m': string, k: nat)
    requires ToLower(m) == ToLower(m')
    requires k < |table| && Mentions(table[k], ToLower(m))
    requires forall i :: 0 <= i < k ==> !Mentions(table[i], ToLower(m))
    ensures AllReports(table, [m, m']) == [ReportOf(table[k])]
  {
    FindFirst(table, 0, k, ToLower(m));
    PairFound(table, m, m', k);
  }

  /** The service's own table: Aspirin with Warfarin is the high-severity
      bleeding risk of its first entry (and, by `CaseInsensitive`, so is
      any spelling of the two names that lower-cases alike). */
  lemma AspirinWithWarfarin(m1: string, m2: string)
    requires m1 == "Aspirin" && m2 == "Warfarin"
    ensures AllReports(Table, [m1, m2]) == [Report(["Aspirin", "Warfarin"], "High", "Increased risk of bleeding.")]
  {
    assert Table[0] == AspirinWarfarin;
    assert m1 == AspirinWarfarin.first && m2 == AspirinWarfarin.second;
    assert Matches(Table[0], ToLower(m1), ToLower(m2));
    assert FindFrom(Table, 0, ToLower(m1), ToLower(m2)) == Some(0);
    PairFound(Table, m1, m2, 0);
  }
}
