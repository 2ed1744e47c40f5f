/** Column-name selection applied to the tables the fetch helpers build.
    A table's header is a sequence of column names; the regular expressions
    `fetch`, `evalmetrics` and `getprojectionhistory` filter with are plain
    alternations, so each test is substring containment. */
module Columns {
  import opened Wrappers
  import opened Strings
  import opened Api
  import Seqs

  /** Bookkeeping columns of `fetch`: the name contains `meta` or `version`. */
  predicate IsMeta(c: string) {
    Contains(c, "meta") || Contains(c, "version")
  }

  predicate NotMeta(c: string) {
    !IsMeta(c)
  }

  /** Columns `fetch` keeps when asked to remove metadata. */
  function DropMeta(cols: seq<string>): (r: seq<string>)
    ensures forall c :: c in r <==> c in cols && !Contains(c, "meta") && !Contains(c, "version")
    ensures forall c :: multiset(r)[c] == if IsMeta(c) then 0 else multiset(cols)[c]
  {
    Seqs.FilterCount(cols, NotMeta);
    Seqs.Filter(cols, NotMeta)
  }

  /** Dropping the metadata columns a second time removes nothing more. */
  lemma DropMetaIdempotent(cols: seq<string>)
    ensures DropMeta(DropMeta(cols)) == DropMeta(cols)
  {
    Seqs.FilterIdempotent(cols, NotMeta);
  }

  /** The metadata drop of a table joined side by side is the join of the drops. */
  lemma DropMetaConcat(a: seq<string>, b: seq<string>)
    ensures DropMeta(a + b) == DropMeta(a) + DropMeta(b)
  {
    Seqs.FilterConcat(a, b, NotMeta);
  }

  predicate HasDates(c: string) {
    Contains(c, "dates")
  }

  predicate LacksDates(c: string) {
    !HasDates(c)
  }

  /** `evalmetrics` keeps columns matching `dates|data|missing`. */
  predicate IsMetricColumn(c: string) {
    Contains(c, "dates") || Contains(c, "data") || Contains(c, "missing")
  }

  /** `getprojectionhistory` also keeps columns matching `expr`. */
  predicate IsProjectionColumn(c: string) {
    IsMetricColumn(c) || Contains(c, "expr")
  }

  /** A column `evalmetrics` keeps after its `dates` column under `remove_meta`. */
  predicate IsMetricValue(c: string) {
    LacksDates(c) && (Contains(c, "data") || Contains(c, "missing"))
  }

  /** A column `getprojectionhistory` keeps after its `dates` column under `remove_meta`. */
  predicate IsProjectionValue(c: string) {
    LacksDates(c) && (Contains(c, "data") || Contains(c, "missing") || Contains(c, "expr"))
  }

  function KeepMetricColumns(cols: seq<string>): (r: seq<string>)
    ensures forall c :: c in r <==> c in cols && (Contains(c, "dates") || Contains(c, "data") || Contains(c, "missing"))
    ensures forall c :: multiset(r)[c] == if IsMetricColumn(c) then multiset(cols)[c] else 0
  {
    Seqs.FilterCount(cols, IsMetricColumn);
    Seqs.Filter(cols, IsMetricColumn)
  }

  function KeepProjectionColumns(cols: seq<string>): (r: seq<string>)
    ensures forall c :: c in r <==> c in cols && (IsMetricColumn(c) || Contains(c, "expr"))
    ensures forall c :: multiset(r)[c] == if IsProjectionColumn(c) then multiset(cols)[c] else 0
  {
    Seqs.FilterCount(cols, IsProjectionColumn);
    Seqs.Filter(cols, IsProjectionColumn)
  }

  /** Position of the first column whose name contains `dates`, or `|cols|` when there is none. */
  function FirstDatesIndex(cols: seq<string>): (i: nat)
    ensures i <= |cols|
    ensures i < |cols| ==> HasDates(cols[i])
    ensures forall j :: 0 <= j < i ==> !HasDates(cols[j])
  {
    if |cols| == 0 then 0
    else if HasDates(cols[0]) then 0
    else 1 + FirstDatesIndex(cols[1..])
  }

  /** The labels `df.filter(items = keep_cols)` keeps, in the order of
      `keep_cols`: the first `dates` column, then every column without `dates`. */
  function KeptColumns(cols: seq<string>): seq<string> {
    var dateCols := Seqs.Filter(cols, HasDates);
    dateCols[..if |dateCols| == 0 then 0 else 1] + Seqs.Filter(cols, LacksDates)
  }

  /** The first `dates` column found by the list comprehension is the first
      `dates` column of the table. */
  lemma {:induction false} FirstOfDateColumns(cols: seq<string>)
    requires FirstDatesIndex(cols) < |cols|
    ensures 0 < |Seqs.Filter(cols, HasDates)|
    ensures Seqs.Filter(cols, HasDates)[0] == cols[FirstDatesIndex(cols)]
  {
    if !HasDates(cols[0]) {
      FirstOfDateColumns(cols[1..]);
    }
  }

  /** The kept `dates` column is the first one of the table, and the other
      kept columns are exactly those without `dates`. */
  lemma {:induction false} KeptColumnsShape(cols: seq<string>)
    requires FirstDatesIndex(cols) < |cols|
    ensures KeptColumns(cols) == [cols[FirstDatesIndex(cols)]] + Seqs.Filter(cols, LacksDates)
  {
    FirstOfDateColumns(cols);
    var dateCols := Seqs.Filter(cols, HasDates);
    assert dateCols[..1] == [dateCols[0]];
  }

  /** `rename(columns = {from : to})`: every column labelled `from` is relabelled `to`. */
  function Rename(cols: seq<string>, from: string, to: string): seq<string> {
    Seqs.Map((c: string) => if c == from then to else c, cols)
  }

  /** Keep one `dates` column and rename it to `"dates"`. Fails when no column
      name contains `dates`, as indexing `date_cols[0]` does. */
  function SelectDates(cols: seq<string>): (r: Result<seq<string>, Error>)
    ensures r.Failure? <==> forall c :: c in cols ==> !Contains(c, "dates")
    ensures r.Failure? ==> r.error == NoDatesColumn
    ensures r.Success? ==> r.value == ["dates"] + Seqs.Filter(cols, LacksDates)
  {
    var dateCols := Seqs.Filter(cols, HasDates);
    if |dateCols| == 0 then
      Failure(NoDatesColumn)
    else
      assert dateCols[0] in dateCols;
      assert FirstDatesIndex(cols) < |cols|;
      KeptColumnsShape(cols);
      FirstOfDateColumns(cols);
      var rest := Seqs.Filter(cols, LacksDates);
      var renamed := Rename(KeptColumns(cols), dateCols[0], "dates");
      assert renamed == ["dates"] + rest by {
        forall k | 1 <= k < |renamed| ensures renamed[k] == rest[k - 1] {
          assert rest[k - 1] in rest;
        }
      }
      Success(renamed)
  }

  /** After the selection exactly one column mentions `dates`, so selecting
      again changes nothing. */
  lemma SelectDatesIdempotent(cols: seq<string>)
    requires SelectDates(cols).Success?
    ensures SelectDates(SelectDates(cols).value) == SelectDates(cols)
  {
    var rest := Seqs.Filter(cols, LacksDates);
    var out := ["dates"] + rest;
    assert HasDates("dates") by { assert "dates" <= "dates"; }
    forall i | 0 <= i < |rest| ensures LacksDates(rest[i]) {
      assert rest[i] in rest;
    }
    Seqs.FilterKeepsAll(rest, LacksDates);
    assert out[1..] == rest;
    assert Seqs.Filter(out, LacksDates) == rest;
  }

  /** Every column after the `dates` one comes from the table and lacks `dates`. */
  lemma SelectDatesTail(cols: seq<string>)
    requires SelectDates(cols).Success?
    ensures forall k :: 1 <= k < |SelectDates(cols).value| ==>
      SelectDates(cols).value[k] in cols && !HasDates(SelectDates(cols).value[k])
  {
    var v := SelectDates(cols).value;
    forall k | 1 <= k < |v| ensures v[k] in cols && !HasDates(v[k]) {
      assert v[k] in Seqs.Filter(cols, LacksDates);
    }
  }

  /** The label the selection produces mentions `dates` and no `.value`. */
  lemma DatesLabel()
    ensures HasDates("dates")
    ensures !Contains("dates", ".value")
  {
    assert "dates" <= "dates";
  }

  /** Python's `x.replace(".value", "")` on a column name. */
  function StripValue(c: string): (r: string)
    ensures r == c <==> !Contains(c, ".value")
  {
    RemoveAllFixpoint(c, ".value");
    RemoveAll(c, ".value")
  }
}
