/** String helpers shared by the wire format and the storage engine:
    the string order SQLite uses for TEXT comparisons, JavaScript's
    `split('\t')`, and character counting. */
module Text {
  import opened Seqs

  // ---------------------------------------------------------------------
  // Lexicographic order
  // ---------------------------------------------------------------------

  /** Strict lexicographic order on strings, character by character, with a
      proper prefix ordered first. Dafny's `<` on sequences means "proper
      prefix", so the comparison SQLite makes for `date < ?`, `date >= ?` and
      `date <= ?` (BINARY collation, which orders UTF-8 bytes exactly as it
      orders code points) is spelled out here. */
  predicate LexLess(a: string, b: string)
    decreases |a|
  {
    if |a| == 0 then |b| > 0
    else if |b| == 0 then false
    else if a[0] != b[0] then a[0] < b[0]
    else LexLess(a[1..], b[1..])
  }

  lemma {:induction false} LexLessIrreflexive(a: string)
    ensures !LexLess(a, a)
    decreases |a|
  {
    if |a| > 0 {
      LexLessIrreflexive(a[1..]);
    }
  }

  lemma {:induction false} LexLessAsymmetric(a: string, b: string)
    ensures LexLess(a, b) ==> !LexLess(b, a)
    decreases |a|
  {
    if |a| > 0 && |b| > 0 && a[0] == b[0] {
      LexLessAsymmetric(a[1..], b[1..]);
    }
  }

  lemma {:induction false} LexLessTransitive(a: string, b: string, c: string)
    ensures LexLess(a, b) && LexLess(b, c) ==> LexLess(a, c)
    decreases |a|
  {
    if |a| > 0 && |b| > 0 && |c| > 0 && a[0] == b[0] && b[0] == c[0] {
      LexLessTransitive(a[1..], b[1..], c[1..]);
    }
  }

  /** Two different strings are always ordered one way or the other. */
  lemma {:induction false} LexLessTotal(a: string, b: string)
    ensures a == b || LexLess(a, b) || LexLess(b, a)
    decreases |a|
  {
    if |a| > 0 && |b| > 0 && a[0] == b[0] {
      LexLessTotal(a[1..], b[1..]);
      if a[1..] == b[1..] {
        assert a == [a[0]] + a[1..] && b == [b[0]] + b[1..];
      }
    }
  }

  // ---------------------------------------------------------------------
  // Counting characters
  // ---------------------------------------------------------------------

  /** Number of occurrences of `c` in `s`. */
  function Count(s: string, c: char): (n: nat)
    ensures n <= |s|
    ensures n == 0 <==> c !in s
  {
    if |s| == 0 then 0 else (if s[0] == c then 1 else 0) + Count(s[1..], c)
  }

  lemma {:induction false} CountAppend(a: string, b: string, c: char)
    ensures Count(a + b, c) == Count(a, c) + Count(b, c)
    decreases |a|
  {
    if |a| > 0 {
      assert (a + b)[1..] == a[1..] + b;
      CountAppend(a[1..], b, c);
    } else {
      assert a + b == b;
    }
  }

  // ---------------------------------------------------------------------
  // Splitting on tabs (JavaScript `line.split('\t')`, no limit)
  // ---------------------------------------------------------------------

  /** Index of the first tab of `s`, or `|s|` when there is none. */
  function FirstTab(s: string): (i: nat)
    ensures i <= |s|
    ensures i < |s| ==> s[i] == '\t'
    ensures forall j :: 0 <= j < i ==> s[j] != '\t'
  {
    if |s| == 0 then 0
    else if s[0] == '\t' then 0
    else 1 + FirstTab(s[1..])
  }

  /** The fields of `s` between tabs, all of them: `String.prototype.split`
      with a one-character separator and no limit. The empty string splits
      into one empty field, and a tab at either end gives an empty field. */
  function Split(s: string): (parts: seq<string>)
    ensures |parts| >= 1
    ensures forall k :: 0 <= k < |parts| ==> '\t' !in parts[k]
    decreases |s|
  {
    var i := FirstTab(s);
    if i == |s| then [s] else [s[..i]] + Split(s[i + 1..])
  }

  /** At its first tab a string falls into its first field, the tab and
      the rest, and splitting it gives that field, then the rest's fields. */
  lemma AtFirstTab(s: string)
    requires FirstTab(s) < |s|
    ensures s == s[..FirstTab(s)] + "\t" + s[FirstTab(s) + 1..]
    ensures '\t' !in s[..FirstTab(s)]
    ensures Split(s) == [s[..FirstTab(s)]] + Split(s[FirstTab(s) + 1..])
  {
    var i := FirstTab(s);
    AroundIndex(s, i);
    PrefixWithout(s, i, '\t');
  }

  /** A prefix none of whose positions holds `c` does not contain `c`. */
  lemma PrefixWithout<T>(s: seq<T>, i: nat, c: T)
    requires i <= |s|
    requires forall j :: 0 <= j < i ==> s[j] != c
    ensures c !in s[..i]
  {
    forall j | 0 <= j < i
      ensures s[..i][j] != c
    {
      assert s[..i][j] == s[j];
    }
  }

  /** A string without a tab before its end has none at all. */
  lemma NoFirstTab(s: string)
    requires FirstTab(s) == |s|
    ensures '\t' !in s
    ensures Split(s) == [s]
  {
  }

  lemma TabRegroup(a: string, b: string, c: string)
    ensures a + "\t" + b + "\t" + c == a + "\t" + (b + "\t" + c)
  {
  }

  /** One field more than there are tabs. */
  lemma {:induction false} SplitLength(s: string)
    ensures |Split(s)| == Count(s, '\t') + 1
    decreases |s|
  {
    var i := FirstTab(s);
    if i < |s| {
      var head, rest := s[..i], s[i + 1..];
      AtFirstTab(s);
      SplitLength(rest);
      CountAppend(head + "\t", rest, '\t');
      CountAppend(head, "\t", '\t');
    } else {
      NoFirstTab(s);
    }
  }

  /** The fields joined with tabs between them; the inverse of `Split`. */
  function JoinTabs(parts: seq<string>): string
    requires |parts| >= 1
  {
    if |parts| == 1 then parts[0] else parts[0] + "\t" + JoinTabs(parts[1..])
  }

  /** Splitting a tab-free field, a tab and the rest yields that field first. */
  lemma SplitCons(a: string, b: string)
    requires '\t' !in a
    ensures Split(a + "\t" + b) == [a] + Split(b)
  {
    var s := a + "\t" + b;
    var i := FirstTab(s);
    assert s[|a|] == '\t';
    assert i == |a|;
    assert s[..i] == a;
    assert s[i + 1..] == b;
  }

  /** A string without tabs is a single field. */
  lemma SplitNoTab(s: string)
    requires '\t' !in s
    ensures Split(s) == [s]
  {
  }

  /** Split undoes JoinTabs whenever no field holds a tab. */
  lemma {:induction false} SplitJoin(parts: seq<string>)
    requires |parts| >= 1
    requires forall k :: 0 <= k < |parts| ==> '\t' !in parts[k]
    ensures Split(JoinTabs(parts)) == parts
    decreases |parts|
  {
    if |parts| == 1 {
      SplitNoTab(parts[0]);
    } else {
      SplitJoin(parts[1..]);
      SplitCons(parts[0], JoinTabs(parts[1..]));
      assert parts == [parts[0]] + parts[1..];
    }
  }

  lemma JoinTabsCons(a: string, parts: seq<string>)
    requires |parts| >= 1
    ensures JoinTabs([a] + parts) == a + "\t" + JoinTabs(parts)
  {
    assert ([a] + parts)[1..] == parts;
  }

  /** JoinTabs undoes Split for every string. */
  lemma {:induction false} JoinSplit(s: string)
    ensures JoinTabs(Split(s)) == s
    decreases |s|
  {
    var i := FirstTab(s);
    if i < |s| {
      var head, rest := s[..i], s[i + 1..];
      assert s == head + "\t" + rest;
      var tail := Split(rest);
      assert Split(s) == [head] + tail;
      JoinSplit(rest);
      JoinTabsCons(head, tail);
    } else {
      assert Split(s) == [s];
    }
  }
}
