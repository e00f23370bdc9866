/** `ORDER BY created_at` as the datastore applies it to the `water_levels`
    table. Postgres places missing timestamps last in ascending order and
    first in descending order; rows with equal timestamps come back in an
    order the database leaves open, which this model fixes. */
module Ordering {
  import opened Wrappers
  import opened Types

  /** `a` may precede `b` in ascending `created_at` order (missing timestamps last). */
  predicate AscNoLater(a: WaterRecord, b: WaterRecord) {
    match (a.createdAt, b.createdAt)
    case (Some(x), Some(y)) => x <= y
    case (Some(_), None) => true
    case (None, Some(_)) => false
    case (None, None) => true
  }

  /** `a` may precede `b` in the requested direction; descending order is
      ascending order reversed, so missing timestamps come first. */
  predicate Precedes(a: WaterRecord, b: WaterRecord, ascending: bool) {
    if ascending then AscNoLater(a, b) else AscNoLater(b, a)
  }

  predicate Sorted(s: seq<WaterRecord>, ascending: bool) {
    forall i, j :: 0 <= i < j < |s| ==> Precedes(s[i], s[j], ascending)
  }

  /** The order is transitive. */
  lemma PrecedesTransitive(a: WaterRecord, b: WaterRecord, c: WaterRecord, ascending: bool)
    requires Precedes(a, b, ascending) && Precedes(b, c, ascending)
    ensures Precedes(a, c, ascending)
  {
  }

  /** A row that may precede the head of a sorted sequence may be put in front of it. */
  lemma PrependSorted(h: WaterRecord, s: seq<WaterRecord>, ascending: bool)
    requires Sorted(s, ascending) && (|s| > 0 ==> Precedes(h, s[0], ascending))
    ensures Sorted([h] + s, ascending)
  {
    var r := [h] + s;
    forall i, j | 0 <= i < j < |r| ensures Precedes(r[i], r[j], ascending) {
      if i == 0 && j > 1 {
        PrecedesTransitive(h, s[0], s[j - 1], ascending);
      }
    }
  }

  /** Places `x` before the first row it may precede. */
  function Insert(x: WaterRecord, s: seq<WaterRecord>, ascending: bool): (r: seq<WaterRecord>)
    requires Sorted(s, ascending)
    ensures Sorted(r, ascending)
    ensures multiset(r) == multiset(s) + multiset{x}
    ensures |r| > 0 && (r[0] == x || (|s| > 0 && r[0] == s[0]))
  {
    if |s| == 0 || Precedes(x, s[0], ascending) then
      PrependSorted(x, s, ascending);
      [x] + s
    else
      var rest := Insert(x, s[1..], ascending);
      assert s == [s[0]] + s[1..];
      assert Precedes(s[0], x, ascending);
      PrependSorted(s[0], rest, ascending);
      [s[0]] + rest
  }

  /** The rows of `s` in the requested `created_at` order. */
  function Sort(s: seq<WaterRecord>, ascending: bool): (r: seq<WaterRecord>)
    ensures Sorted(r, ascending)
    ensures multiset(r) == multiset(s)
  {
    if |s| == 0 then []
    else
      assert s == [s[0]] + s[1..];
      Insert(s[0], Sort(s[1..], ascending), ascending)
  }

  /** Every row of an ascending sequence may precede its last row. */
  lemma LastIsLatest(s: seq<WaterRecord>, x: WaterRecord)
    requires Sorted(s, true) && x in s
    ensures AscNoLater(x, s[|s| - 1])
  {
    var k :| 0 <= k < |s| && s[k] == x;
    if k < |s| - 1 {
      assert Precedes(s[k], s[|s| - 1], true);
    }
  }

  /** Two rows that may each precede the other in ascending order carry the same timestamp. */
  lemma AscNoLaterAntisymmetric(a: WaterRecord, b: WaterRecord)
    requires AscNoLater(a, b) && AscNoLater(b, a)
    ensures a.createdAt == b.createdAt
  {
  }
}
