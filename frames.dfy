/** The pandas operations the controllers apply to a frame of rows: boolean-mask
    selection (`df[mask]`), the first selected row (`.iloc[0]`), the last row
    (`.iloc[-1]`) and `.tail(n)`. A frame is the sequence of its rows. */
module Frames {
  import opened PyCore

  /** `df[mask]`: the rows for which `keep` holds, in their original order. */
  function Filter<T>(rows: seq<T>, keep: T -> bool): (r: seq<T>)
    ensures |r| <= |rows|
    ensures forall k :: 0 <= k < |r| ==> keep(r[k])
    ensures forall k :: 0 <= k < |r| ==> r[k] in rows
    ensures forall i :: 0 <= i < |rows| && keep(rows[i]) ==> rows[i] in r
  {
    if rows == [] then []
    else (if keep(rows[0]) then [rows[0]] else []) + Filter(rows[1..], keep)
  }

  /** Selection distributes over concatenation, so it keeps the rows' order. */
  lemma {:induction false} FilterAppend<T>(a: seq<T>, b: seq<T>, keep: T -> bool)
    ensures Filter(a + b, keep) == Filter(a, keep) + Filter(b, keep)
    decreases |a|
  {
    if a == [] {
      assert a + b == b;
    } else {
      assert (a + b)[1..] == a[1..] + b;
      FilterAppend(a[1..], b, keep);
    }
  }

  /** Nothing is selected exactly when no row qualifies. */
  lemma FilterEmpty<T>(rows: seq<T>, keep: T -> bool)
    ensures Filter(rows, keep) == [] <==> forall i :: 0 <= i < |rows| ==> !keep(rows[i])
  {
    if Filter(rows, keep) != [] {
      assert Filter(rows, keep)[0] in rows;
    }
  }

  /** Row `i` is the first row that qualifies. */
  predicate FirstAt<T>(rows: seq<T>, keep: T -> bool, i: int) {
    0 <= i < |rows| && keep(rows[i]) && forall j :: 0 <= j < i ==> !keep(rows[j])
  }

  /** The first selected row, if any (`df[mask].iloc[0]` on a non-empty selection). */
  function First<T>(rows: seq<T>, keep: T -> bool): (r: Option<T>)
    ensures r.None? <==> forall i :: 0 <= i < |rows| ==> !keep(rows[i])
    ensures r.Some? ==> exists i :: FirstAt(rows, keep, i) && rows[i] == r.value
  {
    if rows == [] then None
    else if keep(rows[0]) then
      assert FirstAt(rows, keep, 0);
      Some(rows[0])
    else
      FirstAtShift(rows, keep);
      First(rows[1..], keep)
  }

  /** Past a row that does not qualify, first positions move up by one. */
  lemma FirstAtShift<T>(rows: seq<T>, keep: T -> bool)
    requires |rows| > 0 && !keep(rows[0])
    ensures forall i :: FirstAt(rows[1..], keep, i) ==> FirstAt(rows, keep, i + 1)
  {
    forall i | FirstAt(rows[1..], keep, i) ensures FirstAt(rows, keep, i + 1) {
      forall j | 0 <= j < i + 1 ensures !keep(rows[j]) {
        if j > 0 {
          assert rows[j] == rows[1..][j - 1];
        }
      }
    }
  }

  /** The first selected row is the head of the selection. */
  lemma {:induction false} FirstIsHeadOfFilter<T>(rows: seq<T>, keep: T -> bool)
    ensures First(rows, keep).Some? <==> |Filter(rows, keep)| > 0
    ensures |Filter(rows, keep)| > 0 ==> First(rows, keep).value == Filter(rows, keep)[0]
  {
    if rows != [] && !keep(rows[0]) {
      FirstIsHeadOfFilter(rows[1..], keep);
    }
  }

  /** `df.tail(n)`: the last `n` rows, or all of them when there are fewer. */
  function Tail<T>(rows: seq<T>, n: nat): (r: seq<T>)
    ensures |r| == if |rows| < n then |rows| else n
    ensures forall k :: 0 <= k < |r| ==> r[k] == rows[|rows| - |r| + k]
  {
    if |rows| <= n then rows else rows[|rows| - n..]
  }

  /** The last row survives `tail`. */
  lemma TailLast<T>(rows: seq<T>, n: nat)
    requires |rows| > 0 && n > 0
    ensures |Tail(rows, n)| > 0 && Tail(rows, n)[|Tail(rows, n)| - 1] == rows[|rows| - 1]
  {
  }
}
