/** `ORDER BY date DESC, time DESC` over table rows. SQLite leaves the order
    of rows with equal (date, time) unspecified; the model fixes one (rows
    with equal keys come back in reverse table order, `TiesReversed`) and
    proves only what every ordering the clause allows has in common: newest
    first, and the same rows. */
module Ordering {
  import opened Text
  import opened Records

  /** `r` sorts strictly before `s` in ascending (date, time) order. */
  predicate KeyLess(r: Row, s: Row)
  {
    LexLess(r.entry.date, s.entry.date)
    || (r.entry.date == s.entry.date && LexLess(r.entry.time, s.entry.time))
  }

  lemma KeyLessIrreflexive(r: Row)
    ensures !KeyLess(r, r)
  {
    LexLessIrreflexive(r.entry.date);
    LexLessIrreflexive(r.entry.time);
  }

  lemma KeyLessTransitive(a: Row, b: Row, c: Row)
    ensures KeyLess(a, b) && KeyLess(b, c) ==> KeyLess(a, c)
  {
    LexLessTransitive(a.entry.date, b.entry.date, c.entry.date);
    LexLessTransitive(a.entry.time, b.entry.time, c.entry.time);
    if a.entry.date == b.entry.date {
      LexLessIrreflexive(a.entry.date);
    }
  }

  /** Newest first: no row is followed by a row with a later (date, time). */
  predicate SortedDesc(s: seq<Row>)
  {
    forall i, j :: 0 <= i < j < |s| ==> !KeyLess(s[i], s[j])
  }

  /** `x` placed in front of the first row that is strictly older than it. */
  function Insert(x: Row, s: seq<Row>): (r: seq<Row>)
    ensures |r| == |s| + 1
  {
    if s == [] then [x]
    else if KeyLess(s[0], x) then [x] + s
    else [s[0]] + Insert(x, s[1..])
  }

  lemma {:induction false} InsertPermutes(x: Row, s: seq<Row>)
    ensures multiset(Insert(x, s)) == multiset(s) + multiset{x}
    decreases |s|
  {
    if s != [] && !KeyLess(s[0], x) {
      InsertPermutes(x, s[1..]);
      assert s == [s[0]] + s[1..];
    }
  }

  lemma {:induction false} InsertSorted(x: Row, s: seq<Row>)
    requires SortedDesc(s)
    ensures SortedDesc(Insert(x, s))
    decreases |s|
  {
    if s == [] {
    } else if KeyLess(s[0], x) {
      var r := [x] + s;
      forall i, j | 0 <= i < j < |r|
        ensures !KeyLess(r[i], r[j])
      {
        if i == 0 {
          KeyLessTransitive(s[0], x, s[j - 1]);
          if j == 1 {
            KeyLessTransitive(s[0], x, s[0]);
            KeyLessIrreflexive(s[0]);
          }
        }
      }
    } else {
      var tail := Insert(x, s[1..]);
      InsertSorted(x, s[1..]);
      InsertPermutes(x, s[1..]);
      var r := [s[0]] + tail;
      forall i, j | 0 <= i < j < |r|
        ensures !KeyLess(r[i], r[j])
      {
        if i == 0 {
          var y := tail[j - 1];
          assert y in multiset(tail);
          if y != x {
            assert y in multiset(s[1..]);
            var k :| 0 <= k < |s[1..]| && s[1..][k] == y;
            assert s[k + 1] == y;
          }
        } else {
          assert r[i] == tail[i - 1] && r[j] == tail[j - 1];
        }
      }
    }
  }

  /** The rows in `ORDER BY date DESC, time DESC` order: insertion sort. */
  function SortDesc(s: seq<Row>): seq<Row>
  {
    if s == [] then [] else Insert(s[0], SortDesc(s[1..]))
  }

  /** The sorted rows are newest first and are exactly the input rows. */
  lemma {:induction false} SortDescCorrect(s: seq<Row>)
    ensures SortedDesc(SortDesc(s))
    ensures multiset(SortDesc(s)) == multiset(s)
    decreases |s|
  {
    if s != [] {
      var x, tail := s[0], s[1..];
      var rest := SortDesc(tail);
      assert SortDesc(s) == Insert(x, rest);
      SortDescCorrect(tail);
      InsertSorted(x, rest);
      InsertPermutes(x, rest);
      assert s == [x] + tail;
      assert multiset(s) == multiset{x} + multiset(tail);
    }
  }

  /** The tie order the model fixes: of two rows with the same date and
      time, the later one in the table comes back first. */
  lemma TiesReversed(a: Row, b: Row)
    requires a.entry.date == b.entry.date && a.entry.time == b.entry.time
    ensures SortDesc([a, b]) == [b, a]
  {
    assert [a, b][1..] == [b];
    assert [b][1..] == [];
    assert SortDesc([b]) == [b];
    KeyLessIrreflexive(b);
    assert !KeyLess(b, a);
    assert Insert(a, [b]) == [b] + Insert(a, []);
  }
}
