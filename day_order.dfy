/**
 * Listing a set of days from the latest to the earliest, as the backend's
 * `order('date', { ascending: false })` does for the rows it returns.
 */
module DayOrder {
  import opened Dates

  /** A non-empty set has a member. */
  lemma HasMember(s: set<Day>)
    requires s != {}
    ensures exists x :: x in s
  {
    if forall x :: x !in s {
      assert false;
    }
  }

  /** The largest day of a non-empty set. */
  ghost function MaxOf(s: set<Day>): (m: Day)
    requires s != {}
    ensures m in s && forall x :: x in s ==> x <= m
  {
    HasMember(s);
    var x :| x in s;
    if s == {x} then x
    else
      var y := MaxOf(s - {x});
      assert forall z :: z in s ==> z == x || z in s - {x};
      if x >= y then x else y
  }

  /** Days of a set, latest first (DatesDescComplete: all of them). */
  ghost function DatesDesc(s: set<Day>): (r: seq<Day>)
    ensures forall d :: d in r ==> d in s
    ensures forall i, j :: 0 <= i < j < |r| ==> r[i] > r[j]
    decreases |s|
  {
    if s == {} then []
    else
      var m := MaxOf(s);
      var rest := DatesDesc(s - {m});
      var r := [m] + rest;
      assert forall j :: 0 <= j < |rest| ==> rest[j] < m by {
        forall j | 0 <= j < |rest| ensures rest[j] < m {
          assert rest[j] in rest;
        }
      }
      assert forall i, j :: 0 <= i < j < |r| ==> r[i] > r[j] by {
        forall i, j | 0 <= i < j < |r| ensures r[i] > r[j] {
          assert r[j] == rest[j - 1];
          if i > 0 { assert r[i] == rest[i - 1]; }
        }
      }
      r
  }

  /** DatesDesc lists every day of the set, once. */
  lemma {:induction false} DatesDescComplete(s: set<Day>)
    ensures |DatesDesc(s)| == |s| && forall d :: d in s ==> d in DatesDesc(s)
    decreases |s|
  {
    if s != {} {
      var m := MaxOf(s);
      DatesDescComplete(s - {m});
      assert DatesDesc(s) == [m] + DatesDesc(s - {m});
    }
  }
}
