/**
 * Date-axis detection (`detect_date_column`): the first column whose
 * lower-cased name contains "date" or ends with "dt". Only the name is
 * inspected, never the cells.
 */
module DateAxis {
  import opened Wrappers

  /** Lower-casing of one character. Only ASCII letters are mapped: no other
      character lower-cases to one of the letters of "date", so the name test
      below decides the same as with full Unicode lower-casing. */
  function LowerChar(c: char): char {
    if 'A' <= c <= 'Z' then (c as int - 'A' as int + 'a' as int) as char else c
  }

  function Lower(s: string): string {
    seq(|s|, i requires 0 <= i < |s| => LowerChar(s[i]))
  }

  /** `p` occurs in `s` starting at index `i`. */
  predicate OccursAt(s: string, p: string, i: int) {
    0 <= i && i + |p| <= |s| && s[i..i + |p|] == p
  }

  /** Substring search, scanning `s` from the left (Python's `p in s` on line 81 of app.py). */
  function HasSubstring(s: string, p: string): (r: bool)
    ensures r ==> |p| <= |s|
    decreases |s|
  {
    if |s| < |p| then false
    else s[..|p|] == p || HasSubstring(s[1..], p)
  }

  /** The scan finds `p` exactly when `p` occurs somewhere in `s`. */
  lemma {:induction false} HasSubstringIff(s: string, p: string)
    ensures HasSubstring(s, p) <==> exists i :: OccursAt(s, p, i)
    decreases |s|
  {
    if |s| >= |p| && s[..|p|] != p {
      HasSubstringIff(s[1..], p);
      if HasSubstring(s[1..], p) {
        var j :| OccursAt(s[1..], p, j);
        assert s[1..][j..j + |p|] == s[j + 1..j + 1 + |p|];
        assert OccursAt(s, p, j + 1);
      }
      if exists i :: OccursAt(s, p, i) {
        var i :| OccursAt(s, p, i);
        assert i != 0;
        assert s[1..][i - 1..i - 1 + |p|] == s[i..i + |p|];
        assert OccursAt(s[1..], p, i - 1);
      }
    } else if |s| >= |p| {
      assert OccursAt(s, p, 0);
    }
  }

  /** Python's `s.endswith(suffix)`. */
  predicate EndsWith(s: string, suffix: string) {
    |suffix| <= |s| && s[|s| - |suffix|..] == suffix
  }

  /** The name test on line 81 of app.py: the lower-cased name contains
      "date" somewhere or ends with "dt". A passing name has at least two
      characters. */
  function IsDateName(name: string): (r: bool)
    ensures r <==> (exists i :: OccursAt(Lower(name), "date", i)) || EndsWith(Lower(name), "dt")
    ensures r ==> |name| >= 2
  {
    HasSubstringIff(Lower(name), "date");
    HasSubstring(Lower(name), "date") || EndsWith(Lower(name), "dt")
  }

  /** No column before index `i` passes the name test. */
  predicate NoneBefore(columns: seq<string>, i: int) {
    forall j :: 0 <= j < i && j < |columns| ==> !IsDateName(columns[j])
  }

  /** The active date axis: the first column, in column order, that passes the
      name test, or `None`. The name found is never empty, so the truthiness
      test `if date_col:` agrees with "a column was found". */
  function FirstDateColumn(columns: seq<string>): (r: Option<string>)
    ensures r.Some? ==> r.value in columns && IsDateName(r.value) && |r.value| >= 2
    ensures r.None? <==> forall c :: c in columns ==> !IsDateName(c)
  {
    if columns == [] then None
    else if IsDateName(columns[0]) then Some(columns[0])
    else FirstDateColumn(columns[1..])
  }

  /** The column found is the earliest match: it sits at an index before
      which no column passes the test. */
  lemma {:induction false} FirstDateColumnIsEarliest(columns: seq<string>)
    requires FirstDateColumn(columns).Some?
    ensures exists i :: 0 <= i < |columns| && columns[i] == FirstDateColumn(columns).value && NoneBefore(columns, i)
  {
    if IsDateName(columns[0]) {
      assert NoneBefore(columns, 0);
    } else {
      FirstDateColumnIsEarliest(columns[1..]);
      var i :| 0 <= i < |columns[1..]| && columns[1..][i] == FirstDateColumn(columns[1..]).value && NoneBefore(columns[1..], i);
      assert columns[i + 1] == columns[1..][i];
      assert NoneBefore(columns, i + 1) by {
        forall j | 0 <= j < i + 1
          ensures !IsDateName(columns[j])
        {
          if j > 0 {
            assert columns[j] == columns[1..][j - 1];
          }
        }
      }
    }
  }

  /** A match at index `i` with none before it is what is returned. */
  lemma {:induction false} FirstDateColumnAt(columns: seq<string>, i: int)
    requires 0 <= i < |columns| && IsDateName(columns[i]) && NoneBefore(columns, i)
    ensures FirstDateColumn(columns) == Some(columns[i])
  {
    if i > 0 {
      assert NoneBefore(columns[1..], i - 1) by {
        forall j | 0 <= j < i - 1
          ensures !IsDateName(columns[1..][j])
        {
          assert columns[1..][j] == columns[j + 1];
        }
      }
      assert !IsDateName(columns[0]);
      FirstDateColumnAt(columns[1..], i - 1);
    }
  }

  /** `detect_date_column`: the loop over the columns with an early return. */
  method DetectDateColumn(columns: seq<string>) returns (r: Option<string>)
    ensures r == FirstDateColumn(columns)
  {
    var i := 0;
    while i < |columns|
      invariant 0 <= i <= |columns|
      invariant FirstDateColumn(columns[i..]) == FirstDateColumn(columns)
    {
      if IsDateName(columns[i]) {
        return Some(columns[i]);
      }
      assert columns[i..][1..] == columns[i + 1..];
      i := i + 1;
    }
    return None;
  }

  /** Several matching columns: the earliest one is the axis. */
  lemma StartDateWins()
    ensures FirstDateColumn(["start_date", "end_date", "value"]) == Some("start_date")
  {
    assert OccursAt(Lower("start_date"), "date", 6);
    HasSubstringIff(Lower("start_date"), "date");
  }

  /** The test is on the substring, so "update" is taken for a date column. */
  lemma UpdateIsDateName()
    ensures IsDateName("update")
  {
  }

  /** The suffix test ignores case: "ValueDT" is a date column. */
  lemma UpperCaseSuffix()
    ensures IsDateName("ValueDT")
  {
  }
}
