/**
 The validator applied right after loading: a row survives only when none of
 its own fields holds `null` or the empty string. It exists to drop the blank
 row a trailing newline produces, and drops any partial row with it.
 */
module Validation {
  import opened Seqs
  import opened Laptops

  /** A value the validator accepts. `undefined`, `0`, `false` all pass. */
  predicate IsPresent(v: Value) {
    v != Null && v != Str("")
  }

  /** Every field the row actually has is present; absent keys are not looked at. */
  predicate IsCompleteRow(row: Record) {
    forall key :: key in row ==> IsPresent(row[key])
  }

  /** The rows of `data` that are complete, in their original order. */
  function Validate(data: seq<Record>): (r: seq<Record>)
    ensures |r| <= |data|
    ensures forall i :: 0 <= i < |r| ==> r[i] in data
    ensures forall i, key :: 0 <= i < |r| && key in r[i] ==> r[i][key] != Null && r[i][key] != Str("")
    ensures forall i :: 0 <= i < |data| && IsCompleteRow(data[i]) ==> data[i] in r
  {
    Filter(data, IsCompleteRow)
  }

  /** A row is in the output exactly when it is in the input and none of its
      fields is `null` or `""`: a row with even one such field is dropped. */
  lemma ValidateMembership(data: seq<Record>, row: Record)
    ensures row in Validate(data) <==>
            row in data && forall key :: key in row ==> row[key] != Null && row[key] != Str("")
  {
    var r := Validate(data);
    if row in r {
      var i :| 0 <= i < |r| && r[i] == row;
    }
    if row in data && IsCompleteRow(row) {
      var j :| 0 <= j < |data| && data[j] == row;
    }
  }

  /** The output is a subsequence of the input: nothing reordered or invented,
      and each row kept exactly as many times as it occurs. */
  lemma ValidateSubsequence(data: seq<Record>, row: Record)
    ensures IsSubsequence(Validate(data), data)
    ensures multiset(Validate(data))[row] == if IsCompleteRow(row) then multiset(data)[row] else 0
  {
    FilterIsSubsequence(data, IsCompleteRow);
    FilterCounts(data, IsCompleteRow, row);
  }

  /** Validating already validated data changes nothing. */
  lemma ValidateIdempotent(data: seq<Record>)
    ensures Validate(Validate(data)) == Validate(data)
  {
    FilterIdempotent(data, IsCompleteRow);
  }

  /** Validation works row by row: the result for a concatenation is the
      concatenation of the results, and a single row is kept exactly when it
      is complete. Together these pin the output down completely. */
  lemma ValidateByRow(a: seq<Record>, b: seq<Record>, row: Record)
    ensures Validate(a + b) == Validate(a) + Validate(b)
    ensures Validate([row]) == if IsCompleteRow(row) then [row] else []
  {
    FilterAppend(a, b, IsCompleteRow);
    assert |[row][1..]| == 0;
  }

  /** A CSV whose last line ends in a newline yields one blank trailing row;
      of two full rows and that blank row, the two full rows remain. */
  lemma TrailingBlankRowDropped()
    ensures
      var dell: Record := map["Company" := Str("Dell"), "Price_euros" := Num(750.0)];
      var hp: Record := map["Company" := Str("HP"), "Price_euros" := Num(450.0)];
      var blank: Record := map["Company" := Str("")];
      Validate([dell, hp, blank]) == [dell, hp]
  {
    var dell: Record := map["Company" := Str("Dell"), "Price_euros" := Num(750.0)];
    var hp: Record := map["Company" := Str("HP"), "Price_euros" := Num(450.0)];
    var blank: Record := map["Company" := Str("")];
    assert IsCompleteRow(dell);
    assert IsCompleteRow(hp);
    assert !IsCompleteRow(blank) by { assert blank["Company"] == Str(""); }
    assert [dell, hp, blank][1..] == [hp, blank];
    assert [hp, blank][1..] == [blank];
    assert |[blank][1..]| == 0;
  }
}
