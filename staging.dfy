/** The allowance staging list of the employee form: amounts are added one
    row at a time and removed by their position with `splice(index, 1)`. */
module Staging {
  import opened Payroll

  /** Where `splice` starts for an integer `index` on a list of length `len`:
      a negative index counts back from the end (clamped at 0), a
      non-negative one is clamped at `len`. */
  function SpliceStart(index: int, len: nat): (start: nat)
    ensures start <= len
    ensures 0 <= index < len ==> start == index
    ensures index < 0 && 0 <= len + index ==> start == len + index
    ensures index >= len ==> start == len
    ensures len + index < 0 ==> start == 0
  {
    if index < 0 then (if len + index < 0 then 0 else len + index)
    else if index > len then len
    else index
  }

  /** `list.splice(index, 1)`: at most one element goes, the one at the
      start position, and the others keep their order. */
  function SpliceOne(s: seq<Allowance>, index: int): (r: seq<Allowance>)
    ensures var start := SpliceStart(index, |s|);
      |r| == (if start < |s| then |s| - 1 else |s|) &&
      (forall k {:trigger r[k]} :: 0 <= k < start && k < |r| ==> r[k] == s[k]) &&
      (forall k {:trigger r[k]} :: start <= k < |r| ==> r[k] == s[k + 1])
    ensures 0 <= index < |s| ==> r == s[..index] + s[index + 1..]
  {
    var start := SpliceStart(index, |s|);
    if start < |s| then s[..start] + s[start + 1..] else s
  }

  /** Removing a row keeps every remaining amount positive, and takes that
      row's amount off the total. */
  lemma SpliceOneKeepsPositive(s: seq<Allowance>, index: int)
    requires AllPositive(s)
    ensures AllPositive(SpliceOne(s, index))
    ensures SpliceStart(index, |s|) < |s| ==>
      TotalAllowances(SpliceOne(s, index)) == TotalAllowances(s) - s[SpliceStart(index, |s|)].amount
  {
    SpliceOneTotal(s, index);
    SpliceOnePositive(s, index);
  }

  lemma SpliceOnePositive(s: seq<Allowance>, index: int)
    requires AllPositive(s)
    ensures AllPositive(SpliceOne(s, index))
  {
    var start := SpliceStart(index, |s|);
    if start < |s| {
      assert SpliceOne(s, index) == s[..start] + s[start + 1..];
      RemoveAtKeepsPositive(s, start);
    }
  }

  lemma SpliceOneTotal(s: seq<Allowance>, index: int)
    ensures SpliceStart(index, |s|) < |s| ==>
      TotalAllowances(SpliceOne(s, index)) == TotalAllowances(s) - s[SpliceStart(index, |s|)].amount
  {
    var start := SpliceStart(index, |s|);
    if start < |s| {
      assert SpliceOne(s, index) == s[..start] + s[start + 1..];
      TotalAllowancesRemove(s, start);
    }
  }

  lemma RemoveAtKeepsPositive(s: seq<Allowance>, j: nat)
    requires AllPositive(s) && j < |s|
    ensures AllPositive(s[..j] + s[j + 1..])
  {
    var r := s[..j] + s[j + 1..];
    forall k | 0 <= k < |r| ensures r[k].amount > 0.0 {
      if k < j { assert r[k] == s[k]; } else { assert r[k] == s[k + 1]; }
    }
  }
}
