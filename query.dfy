/** `LogDatabase.queryLogs`: the filters a client may give, the SQL text and
    parameters the method builds from them, what SQLite then returns, and the
    in-memory regular-expression stage that follows.

    SQLite's `LIKE` and JavaScript's `RegExp` are not interpreted: a query
    receives them as the three functions of a `Matchers` value. */
module Query {
  import opened Wrappers
  import opened Text
  import opened Seqs
  import opened Records
  import opened Ordering
  import WireFormat

  // ---------------------------------------------------------------------
  // Filters
  // ---------------------------------------------------------------------

  /** `QueryFilters`: every field is optional; `limit` is `None` where the
      source has `undefined` (or `NaN`, which is just as falsy). */
  datatype QueryFilters = QueryFilters(
    source: Option<string>,
    level: Option<string>,
    traceId: Option<string>,
    startDate: Option<string>,
    endDate: Option<string>,
    contentRegex: Option<string>,
    limit: Option<int>)

  /** JavaScript truthiness of an optional string: present and non-empty. */
  predicate Truthy(o: Option<string>)
  {
    o.Some? && o.value != ""
  }

  const DefaultLimit: int := 1000

  /** `filters.limit || 1000`: a missing or zero limit means 1000. */
  function EffectiveLimit(f: QueryFilters): int
  {
    if f.limit.Some? && f.limit.value != 0 then f.limit.value else DefaultLimit
  }

  // ---------------------------------------------------------------------
  // The LIKE parameter
  // ---------------------------------------------------------------------

  /** Which copy of `queryLogs` builds the LIKE parameter: src/database.ts
      doubles backslashes before escaping `%` and `_`; src/database.js only
      escapes `%` and `_`. */
  datatype Variant = DoublesBackslashes | WildcardsOnly

  /** `.replace(/[%_]/g, '\\$&')`: a backslash in front of every `%` and `_`. */
  function EscapeWildcards(s: string): (r: string)
    ensures |r| == |s| + Count(s, '%') + Count(s, '_')
  {
    if s == [] then []
    else (if s[0] == '%' || s[0] == '_' then ['\\', s[0]] else [s[0]]) + EscapeWildcards(s[1..])
  }

  /** The escaped pattern between the two `%` of the LIKE parameter. */
  function EscapeLike(pattern: string, v: Variant): string
  {
    match v
    case DoublesBackslashes => EscapeWildcards(WireFormat.EscapeBackslashes(pattern))
    case WildcardsOnly => EscapeWildcards(pattern)
  }

  /** `'%' + escaped + '%'`: the pattern anywhere in the content. */
  function LikeParam(pattern: string, v: Variant): string
  {
    "%" + EscapeLike(pattern, v) + "%"
  }

  /** How a LIKE pattern reads, one element per matched piece of text. */
  datatype LikeToken = Literal(c: char) | AnyChar | AnyRun

  /** The tokens of a LIKE pattern: `%` matches any run, `_` any one
      character, and, when `escape` holds (an `ESCAPE '\'` clause), a
      backslash makes the character after it literal. Without `escape` a
      backslash is an ordinary character, which is how SQLite reads the
      pattern of `content LIKE ?` as the query is written. */
  function ReadLike(s: string, escape: bool): (r: seq<LikeToken>)
    ensures |r| <= |s|
  {
    if s == [] then []
    else if escape && s[0] == '\\' && |s| >= 2 then [Literal(s[1])] + ReadLike(s[2..], escape)
    else if s[0] == '%' then [AnyRun] + ReadLike(s[1..], escape)
    else if s[0] == '_' then [AnyChar] + ReadLike(s[1..], escape)
    else [Literal(s[0])] + ReadLike(s[1..], escape)
  }

  /** A pattern that matches exactly the text `p`. */
  function Literally(p: string): (r: seq<LikeToken>)
    ensures |r| == |p|
    ensures forall k :: 0 <= k < |p| ==> r[k] == Literal(p[k])
  {
    if p == [] then [] else [Literal(p[0])] + Literally(p[1..])
  }

  /** What the two escaping passes make of one character. */
  function EscapedLikeChar(ch: char): string
  {
    if ch == '\\' then ['\\', '\\'] else if ch == '%' || ch == '_' then ['\\', ch] else [ch]
  }

  lemma {:induction false} EscapeWildcardsAppend(a: string, b: string)
    ensures EscapeWildcards(a + b) == EscapeWildcards(a) + EscapeWildcards(b)
    decreases |a|
  {
    if a == [] {
      assert a + b == b;
    } else {
      assert (a + b)[1..] == a[1..] + b;
      EscapeWildcardsAppend(a[1..], b);
    }
  }

  /** The wildcard pass over the backslash pass of one character. */
  lemma EscapeOneForLike(ch: char)
    ensures EscapeWildcards(if ch == '\\' then "\\\\" else [ch]) == EscapedLikeChar(ch)
  {
    if ch == '\\' {
      var h := "\\\\";
      assert h[1..] == ['\\'] && h[1..][1..] == [];
    } else {
      assert [ch][1..] == [];
    }
  }

  lemma EscapeLikeCons(p: string)
    requires p != []
    ensures EscapeLike(p, DoublesBackslashes) == EscapedLikeChar(p[0]) + EscapeLike(p[1..], DoublesBackslashes)
  {
    var head: string := if p[0] == '\\' then "\\\\" else [p[0]];
    var rest := WireFormat.EscapeBackslashes(p[1..]);
    assert WireFormat.EscapeBackslashes(p) == head + rest;
    EscapeWildcardsAppend(head, rest);
    EscapeOneForLike(p[0]);
  }

  lemma ReadEscapedChar(ch: char, rest: string)
    ensures ReadLike(EscapedLikeChar(ch) + rest, true) == [Literal(ch)] + ReadLike(rest, true)
  {
    var s := EscapedLikeChar(ch) + rest;
    if ch == '\\' || ch == '%' || ch == '_' {
      assert s == ['\\', ch] + rest;
      assert s[2..] == rest;
    } else {
      assert s[1..] == rest;
    }
  }

  /** With backslash as the escape character, the src/database.ts parameter
      reads as exactly the user's pattern, character for character. */
  lemma {:induction false} DoubledEscapeReadsLiterally(p: string)
    ensures ReadLike(EscapeLike(p, DoublesBackslashes), true) == Literally(p)
    decreases |p|
  {
    if p != [] {
      EscapeLikeCons(p);
      ReadEscapedChar(p[0], EscapeLike(p[1..], DoublesBackslashes));
      DoubledEscapeReadsLiterally(p[1..]);
    }
  }

  /** The src/database.js parameter does not: a backslash of the user's
      pattern swallows the character after it. */
  lemma WildcardsOnlyLosesBackslash()
    ensures EscapeLike("\\a", WildcardsOnly) == "\\a"
    ensures ReadLike(EscapeLike("\\a", WildcardsOnly), true) == [Literal('a')]
    ensures ReadLike(EscapeLike("\\a", WildcardsOnly), true) != Literally("\\a")
  {
    assert EscapeWildcards("a") == "a";
    assert EscapeWildcards("\\a") == "\\" + EscapeWildcards("a");
    assert ReadLike("\\a", true) == [Literal('a')] + ReadLike([], true);
  }

  /** Without an `ESCAPE` clause an escaped wildcard reads as a literal
      backslash followed by the wildcard itself. */
  lemma UnescapedWildcard(w: char, rest: string)
    requires w == '%' || w == '_'
    ensures ReadLike(EscapedLikeChar(w) + rest, false)
         == [Literal('\\'), if w == '%' then AnyRun else AnyChar] + ReadLike(rest, false)
  {
    var s := EscapedLikeChar(w) + rest;
    assert s == ['\\', w] + rest;
    assert s[1..][1..] == rest;
  }

  /** A character neither escaping pass touches. */
  predicate Ordinary(ch: char)
  {
    ch != '\\' && ch != '%' && ch != '_'
  }

  /** The query has no `ESCAPE` clause, so SQLite keeps the inserted
      backslash as a character to be found in the content: a pattern
      `a_b` asks for an `a`, a backslash, any one character and a `b`,
      where the user meant the three characters literally. */
  lemma NoEscapeClauseKeepsBackslash(a: char, b: char)
    requires Ordinary(a) && Ordinary(b)
    ensures EscapeLike([a, '_', b], DoublesBackslashes) == [a, '\\', '_', b]
    ensures ReadLike(EscapeLike([a, '_', b], DoublesBackslashes), false)
         == [Literal(a), Literal('\\'), AnyChar, Literal(b)]
    ensures ReadLike(EscapeLike([a, '_', b], DoublesBackslashes), false) != Literally([a, '_', b])
  {
    var p := [a, '_', b];
    var e := EscapeLike(p, DoublesBackslashes);
    EscapeLikeCons(p);
    assert p[1..] == ['_', b];
    EscapeLikeCons(p[1..]);
    assert p[1..][1..] == [b];
    EscapeLikeCons([b]);
    assert [b][1..] == [];
    var tail := EscapeLike([b], DoublesBackslashes);
    assert tail == [b];
    assert e == [a] + (['\\', '_'] + tail);
    UnescapedWildcard('_', tail);
    assert e[1..] == ['\\', '_'] + tail;
    assert ReadLike(tail, false) == [Literal(b)] + ReadLike([], false);
  }

  // ---------------------------------------------------------------------
  // Clauses and parameters
  // ---------------------------------------------------------------------

  /** One `AND` condition of the WHERE clause, with the value bound to its
      `?`. */
  datatype Clause =
    | SourceIs(arg: string)
    | LevelIs(arg: string)
    | TraceIs(arg: string)
    | DateFrom(arg: string)
    | DateTo(arg: string)
    | ContentLike(arg: string)

  /** A bound parameter: every filter binds a string; the limit a number. */
  datatype Param = Text(s: string) | Number(n: int)

  const SelectAll: string := "SELECT * FROM logs WHERE 1=1"
  const OrderLead: string := " ORDER BY date DESC," + " time DESC LIMIT "
  const OrderAndLimit: string := OrderLead + "?"

  /** The SQL fragment a clause appends, up to its placeholder. */
  function ClauseLead(c: Clause): string
  {
    match c
    case SourceIs(_) => " AND source = "
    case LevelIs(_) => " AND level = "
    case TraceIs(_) => " AND trace_id = "
    case DateFrom(_) => " AND date >= "
    case DateTo(_) => " AND date <= "
    case ContentLike(_) => " AND content LIKE "
  }

  function ClauseText(c: Clause): string
  {
    ClauseLead(c) + "?"
  }

  /** The fragments of `cs`, in order. */
  function ClausesText(cs: seq<Clause>): string
  {
    if cs == [] then "" else ClausesText(cs[..|cs| - 1]) + ClauseText(cs[|cs| - 1])
  }

  /** Position of a clause kind in the fixed order of `queryLogs`. */
  function Rank(c: Clause): nat
  {
    match c
    case SourceIs(_) => 0
    case LevelIs(_) => 1
    case TraceIs(_) => 2
    case DateFrom(_) => 3
    case DateTo(_) => 4
    case ContentLike(_) => 5
  }

  /** The value of a present filter. */
  function Arg(o: Option<string>): string
  {
    if o.Some? then o.value else ""
  }

  /** `[c]` when `present`, else nothing. */
  function When(present: bool, c: Clause): seq<Clause>
  {
    if present then [c] else []
  }

  /** The clauses of a query, one for each truthy filter, in the fixed order
      source, level, trace id, start date, end date, content. */
  function Compile(f: QueryFilters, v: Variant): seq<Clause>
  {
    When(Truthy(f.source), SourceIs(Arg(f.source)))
    + When(Truthy(f.level), LevelIs(Arg(f.level)))
    + When(Truthy(f.traceId), TraceIs(Arg(f.traceId)))
    + When(Truthy(f.startDate), DateFrom(Arg(f.startDate)))
    + When(Truthy(f.endDate), DateTo(Arg(f.endDate)))
    + When(Truthy(f.contentRegex), ContentLike(LikeParam(Arg(f.contentRegex), v)))
  }

  function TruthyCount(f: QueryFilters): nat
  {
    (if Truthy(f.source) then 1 else 0) + (if Truthy(f.level) then 1 else 0)
    + (if Truthy(f.traceId) then 1 else 0) + (if Truthy(f.startDate) then 1 else 0)
    + (if Truthy(f.endDate) then 1 else 0) + (if Truthy(f.contentRegex) then 1 else 0)
  }

  /** The clause kinds of `cs` come in strictly increasing rank, so no kind
      appears twice. */
  predicate Increasing(cs: seq<Clause>)
  {
    forall i, j :: 0 <= i < j < |cs| ==> Rank(cs[i]) < Rank(cs[j])
  }

  /** Each clause kind ranks above the one before it. */
  predicate StepsUp(cs: seq<Clause>)
  {
    forall k :: 0 < k < |cs| ==> Rank(cs[k - 1]) < Rank(cs[k])
  }

  /** The rank of the last clause, or -1 when there is none. */
  function LastRank(cs: seq<Clause>): int
  {
    if cs == [] then -1 else Rank(cs[|cs| - 1])
  }

  lemma {:induction false} StepsUpIncreasing(cs: seq<Clause>)
    requires StepsUp(cs)
    ensures Increasing(cs)
    decreases |cs|
  {
    if cs != [] {
      var init := cs[..|cs| - 1];
      assert StepsUp(init) by {
        forall k | 0 < k < |init|
          ensures Rank(init[k - 1]) < Rank(init[k])
        {
          assert init[k - 1] == cs[k - 1] && init[k] == cs[k];
        }
      }
      StepsUpIncreasing(init);
      forall i, j | 0 <= i < j < |cs|
        ensures Rank(cs[i]) < Rank(cs[j])
      {
        if j < |cs| - 1 {
          assert cs[i] == init[i] && cs[j] == init[j];
        } else if i < j - 1 {
          assert cs[i] == init[i] && cs[j - 1] == init[j - 1];
        }
      }
    }
  }

  /** The clause `c` answers a truthy filter of `f` and carries its value
      (the LIKE clause carries the escaped pattern). */
  predicate FromFilter(f: QueryFilters, v: Variant, c: Clause)
  {
    match c
    case SourceIs(x) => Truthy(f.source) && x == f.source.value
    case LevelIs(x) => Truthy(f.level) && x == f.level.value
    case TraceIs(x) => Truthy(f.traceId) && x == f.traceId.value
    case DateFrom(x) => Truthy(f.startDate) && x == f.startDate.value
    case DateTo(x) => Truthy(f.endDate) && x == f.endDate.value
    case ContentLike(x) => Truthy(f.contentRegex) && x == LikeParam(f.contentRegex.value, v)
  }

  /** Every clause of `cs` answers a truthy filter of `f`. */
  predicate AllFromFilters(f: QueryFilters, v: Variant, cs: seq<Clause>)
  {
    forall k :: 0 <= k < |cs| ==> FromFilter(f, v, cs[k])
  }

  lemma ExtendFromFilters(f: QueryFilters, v: Variant, a: seq<Clause>, present: bool, c: Clause)
    requires AllFromFilters(f, v, a)
    requires present ==> FromFilter(f, v, c)
    ensures AllFromFilters(f, v, a + When(present, c))
  {
  }

  lemma ExtendStepsUp(a: seq<Clause>, present: bool, c: Clause)
    requires StepsUp(a) && LastRank(a) < Rank(c)
    ensures StepsUp(a + When(present, c)) && LastRank(a + When(present, c)) <= Rank(c)
  {
  }

  /** Each truthy filter yields one clause: there are as many clauses as
      truthy filters. */
  lemma CompileCount(f: QueryFilters, v: Variant)
    ensures |Compile(f, v)| == TruthyCount(f)
  {
  }

  /** Nothing but a truthy filter yields a clause: each clause answers a
      truthy filter with its value. */
  lemma CompileFromFilters(f: QueryFilters, v: Variant)
    ensures AllFromFilters(f, v, Compile(f, v))
  {
    var s1 := When(Truthy(f.source), SourceIs(Arg(f.source)));
    var s2 := s1 + When(Truthy(f.level), LevelIs(Arg(f.level)));
    var s3 := s2 + When(Truthy(f.traceId), TraceIs(Arg(f.traceId)));
    var s4 := s3 + When(Truthy(f.startDate), DateFrom(Arg(f.startDate)));
    var s5 := s4 + When(Truthy(f.endDate), DateTo(Arg(f.endDate)));
    ExtendFromFilters(f, v, [], Truthy(f.source), SourceIs(Arg(f.source)));
    assert [] + s1 == s1;
    ExtendFromFilters(f, v, s1, Truthy(f.level), LevelIs(Arg(f.level)));
    ExtendFromFilters(f, v, s2, Truthy(f.traceId), TraceIs(Arg(f.traceId)));
    ExtendFromFilters(f, v, s3, Truthy(f.startDate), DateFrom(Arg(f.startDate)));
    ExtendFromFilters(f, v, s4, Truthy(f.endDate), DateTo(Arg(f.endDate)));
    ExtendFromFilters(f, v, s5, Truthy(f.contentRegex), ContentLike(LikeParam(Arg(f.contentRegex), v)));
  }

  /** Three conditional clauses of rising rank keep the kinds rising. */
  lemma ExtendStepsUp3(a: seq<Clause>, p1: bool, c1: Clause, p2: bool, c2: Clause, p3: bool, c3: Clause)
    requires StepsUp(a) && LastRank(a) < Rank(c1) && Rank(c1) < Rank(c2) < Rank(c3)
    ensures StepsUp(a + When(p1, c1) + When(p2, c2) + When(p3, c3))
    ensures LastRank(a + When(p1, c1) + When(p2, c2) + When(p3, c3)) <= Rank(c3)
  {
    ExtendStepsUp(a, p1, c1);
    ExtendStepsUp(a + When(p1, c1), p2, c2);
    ExtendStepsUp(a + When(p1, c1) + When(p2, c2), p3, c3);
  }

  /** The clause kinds come in the fixed order, so none is repeated. */
  lemma CompileOrdered(f: QueryFilters, v: Variant)
    ensures Increasing(Compile(f, v))
  {
    var c1, c2, c3 := SourceIs(Arg(f.source)), LevelIs(Arg(f.level)), TraceIs(Arg(f.traceId));
    var c4, c5, c6 := DateFrom(Arg(f.startDate)), DateTo(Arg(f.endDate)), ContentLike(LikeParam(Arg(f.contentRegex), v));
    var p1, p2, p3 := Truthy(f.source), Truthy(f.level), Truthy(f.traceId);
    var p4, p5, p6 := Truthy(f.startDate), Truthy(f.endDate), Truthy(f.contentRegex);
    var front := When(p1, c1) + When(p2, c2) + When(p3, c3);
    ExtendStepsUp3([], p1, c1, p2, c2, p3, c3);
    assert [] + When(p1, c1) + When(p2, c2) + When(p3, c3) == front;
    ExtendStepsUp3(front, p4, c4, p5, c5, p6, c6);
    var all := front + When(p4, c4) + When(p5, c5) + When(p6, c6);
    assert Compile(f, v) == all;
    StepsUpIncreasing(all);
  }

  /** The finished SQL text for a list of clauses. */
  function SqlText(clauses: seq<Clause>): string
  {
    SelectAll + ClausesText(clauses) + OrderAndLimit
  }

  lemma OnePlaceholder(c: Clause)
    ensures Count(ClauseText(c), '?') == 1
  {
    var lead := ClauseLead(c);
    assert '?' !in lead by {
      match c
      case SourceIs(_) =>
      case LevelIs(_) =>
      case TraceIs(_) =>
      case DateFrom(_) =>
      case DateTo(_) =>
      case ContentLike(_) =>
    }
    CountAppend(lead, "?", '?');
    assert Count("?", '?') == 1 + Count([], '?');
  }

  lemma {:induction false} ClausePlaceholders(clauses: seq<Clause>)
    ensures Count(ClausesText(clauses), '?') == |clauses|
    decreases |clauses|
  {
    if clauses != [] {
      var init := clauses[..|clauses| - 1];
      ClausePlaceholders(init);
      CountAppend(ClausesText(init), ClauseText(clauses[|clauses| - 1]), '?');
      OnePlaceholder(clauses[|clauses| - 1]);
    }
  }

  lemma FramePlaceholders()
    ensures Count(SelectAll, '?') == 0
    ensures Count(OrderAndLimit, '?') == 1
  {
    assert '?' !in SelectAll;
    assert '?' !in " ORDER BY date DESC,";
    assert '?' !in " time DESC LIMIT ";
    CountAppend(OrderLead, "?", '?');
    assert Count("?", '?') == 1 + Count([], '?');
  }

  /** The finished text has one `?` per clause, plus the one of `LIMIT`. */
  lemma PlaceholderCount(clauses: seq<Clause>)
    ensures Count(SqlText(clauses), '?') == |clauses| + 1
  {
    FramePlaceholders();
    ClausePlaceholders(clauses);
    CountAppend(SelectAll, ClausesText(clauses), '?');
    CountAppend(SelectAll + ClausesText(clauses), OrderAndLimit, '?');
  }

  /** The text and parameters built so far: the prefix, one fragment and
      one parameter per clause. */
  predicate Built(query: string, clauses: seq<Clause>, params: seq<Param>)
  {
    && query == SelectAll + ClausesText(clauses)
    && |params| == |clauses|
    && (forall k :: 0 <= k < |clauses| ==> params[k] == Text(clauses[k].arg))
  }

  /** `queryLogs`' construction of the SQL text and the parameter list:
      starting from `SELECT * FROM logs WHERE 1=1`, one `AND` condition and
      one parameter per truthy filter, in the fixed order, then the ordering
      and the limit. The text has exactly one `?` per parameter, and the
      last parameter is the limit. */
  method BuildQuery(f: QueryFilters, v: Variant) returns (query: string, clauses: seq<Clause>, params: seq<Param>)
    ensures clauses == Compile(f, v)
    ensures query == SqlText(clauses)
    ensures |params| == |clauses| + 1
    ensures forall k :: 0 <= k < |clauses| ==> params[k] == Text(clauses[k].arg)
    ensures params[|clauses|] == Number(EffectiveLimit(f))
    ensures Count(query, '?') == |params|
  {
    query, clauses, params := BuildWhere(f, v);
    query := query + OrderAndLimit;
    params := params + [Number(EffectiveLimit(f))];
    PlaceholderCount(clauses);
  }

  /** The `WHERE` part of `queryLogs`: the six `if (filters.x)` steps. */
  method BuildWhere(f: QueryFilters, v: Variant) returns (query: string, clauses: seq<Clause>, params: seq<Param>)
    ensures clauses == Compile(f, v)
    ensures Built(query, clauses, params)
  {
    query := SelectAll;
    clauses := [];
    params := [];
    AppendAssoc(SelectAll, [], []);
    query, clauses, params := AndIf(Truthy(f.source), query, clauses, params, SourceIs(Arg(f.source)));
    assert clauses == When(Truthy(f.source), SourceIs(Arg(f.source)));
    query, clauses, params := AndIf(Truthy(f.level), query, clauses, params, LevelIs(Arg(f.level)));
    query, clauses, params := AndIf(Truthy(f.traceId), query, clauses, params, TraceIs(Arg(f.traceId)));
    query, clauses, params := AndIf(Truthy(f.startDate), query, clauses, params, DateFrom(Arg(f.startDate)));
    query, clauses, params := AndIf(Truthy(f.endDate), query, clauses, params, DateTo(Arg(f.endDate)));
    query, clauses, params := AndIf(Truthy(f.contentRegex), query, clauses, params, ContentLike(LikeParam(Arg(f.contentRegex), v)));
  }

  /** `if (present) { query += ' AND ... ?'; params.push(value); }`. */
  method AndIf(present: bool, query: string, clauses: seq<Clause>, params: seq<Param>, c: Clause)
    returns (query': string, clauses': seq<Clause>, params': seq<Param>)
    requires Built(query, clauses, params)
    ensures clauses' == clauses + When(present, c)
    ensures Built(query', clauses', params')
  {
    query', clauses', params' := query, clauses, params;
    if present {
      query' := query + ClauseText(c);
      clauses' := clauses + [c];
      params' := params + [Text(c.arg)];
      assert clauses'[..|clauses'| - 1] == clauses;
      AppendAssoc(SelectAll, ClausesText(clauses), ClauseText(c));
    } else {
      assert clauses + [] == clauses;
    }
  }

  /** Proof-cost helper, modelling nothing: regrouping
      `SelectAll + clauses + clause`, kept apart so that the builder's
      proofs do not search for it. */
  lemma AppendAssoc(a: string, b: string, c: string)
    ensures (a + b) + c == a + (b + c)
  {
  }

  // ---------------------------------------------------------------------
  // What SQLite returns
  // ---------------------------------------------------------------------

  /** The two functions the query relies on without interpreting them:
      SQLite's `content LIKE pattern` and JavaScript's `new RegExp(p)`
      (whether it compiles, and what `test` answers). */
  datatype Matchers = Matchers(
    like: (string, string) -> bool,
    compiles: string -> bool,
    test: (string, string) -> bool)

  /** A row satisfies one condition. A NULL trace id equals nothing; date
      bounds are inclusive string comparisons. */
  predicate Holds(c: Clause, r: Row, m: Matchers)
  {
    match c
    case SourceIs(x) => r.entry.source == x
    case LevelIs(x) => r.entry.level == x
    case TraceIs(x) => r.entry.traceId == Some(x)
    case DateFrom(x) => !LexLess(r.entry.date, x)
    case DateTo(x) => !LexLess(x, r.entry.date)
    case ContentLike(x) => m.like(r.entry.content, x)
  }

  predicate AllHold(cs: seq<Clause>, r: Row, m: Matchers)
  {
    forall k :: 0 <= k < |cs| ==> Holds(cs[k], r, m)
  }

  /** The intended meaning of the filters of `queryLogs`: every truthy
      filter holds. Written without clauses, as the reference the compiled
      query is checked against. */
  predicate MatchesFilters(f: QueryFilters, v: Variant, m: Matchers, r: Row)
  {
    && (Truthy(f.source) ==> r.entry.source == f.source.value)
    && (Truthy(f.level) ==> r.entry.level == f.level.value)
    && (Truthy(f.traceId) ==> r.entry.traceId == f.traceId)
    && (Truthy(f.startDate) ==> !LexLess(r.entry.date, f.startDate.value))
    && (Truthy(f.endDate) ==> !LexLess(f.endDate.value, r.entry.date))
    && (Truthy(f.contentRegex) ==> m.like(r.entry.content, LikeParam(f.contentRegex.value, v)))
  }

  lemma AllHoldAppend(a: seq<Clause>, b: seq<Clause>, r: Row, m: Matchers)
    ensures AllHold(a + b, r, m) <==> AllHold(a, r, m) && AllHold(b, r, m)
  {
    if AllHold(a, r, m) && AllHold(b, r, m) {
      forall k | 0 <= k < |a + b|
        ensures Holds((a + b)[k], r, m)
      {
        if k >= |a| {
          assert (a + b)[k] == b[k - |a|];
        }
      }
    }
    if AllHold(a + b, r, m) {
      forall k | 0 <= k < |a|
        ensures Holds(a[k], r, m)
      {
        assert (a + b)[k] == a[k];
      }
      forall k | 0 <= k < |b|
        ensures Holds(b[k], r, m)
      {
        assert (a + b)[|a| + k] == b[k];
      }
    }
  }

  /** Appending a conditional clause adds its condition when present. */
  lemma AllHoldExtend(a: seq<Clause>, present: bool, c: Clause, r: Row, m: Matchers)
    ensures AllHold(a + When(present, c), r, m) <==> AllHold(a, r, m) && (present ==> Holds(c, r, m))
  {
    AllHoldAppend(a, When(present, c), r, m);
    if present {
      assert When(present, c)[0] == c;
    }
  }

  /** Three conditional clauses add their three conditions. */
  lemma AllHoldExtend3(a: seq<Clause>, p1: bool, c1: Clause, p2: bool, c2: Clause, p3: bool, c3: Clause, r: Row, m: Matchers)
    ensures AllHold(a + When(p1, c1) + When(p2, c2) + When(p3, c3), r, m) <==>
      AllHold(a, r, m) && (p1 ==> Holds(c1, r, m)) && (p2 ==> Holds(c2, r, m)) && (p3 ==> Holds(c3, r, m))
  {
    AllHoldExtend(a, p1, c1, r, m);
    AllHoldExtend(a + When(p1, c1), p2, c2, r, m);
    AllHoldExtend(a + When(p1, c1) + When(p2, c2), p3, c3, r, m);
  }

  /** The filters read as the six conditions of their clauses. */
  lemma FiltersAsConditions(f: QueryFilters, v: Variant, m: Matchers, r: Row)
    ensures MatchesFilters(f, v, m, r) <==>
      && (Truthy(f.source) ==> Holds(SourceIs(Arg(f.source)), r, m))
      && (Truthy(f.level) ==> Holds(LevelIs(Arg(f.level)), r, m))
      && (Truthy(f.traceId) ==> Holds(TraceIs(Arg(f.traceId)), r, m))
      && (Truthy(f.startDate) ==> Holds(DateFrom(Arg(f.startDate)), r, m))
      && (Truthy(f.endDate) ==> Holds(DateTo(Arg(f.endDate)), r, m))
      && (Truthy(f.contentRegex) ==> Holds(ContentLike(LikeParam(Arg(f.contentRegex), v)), r, m))
  {
    if Truthy(f.contentRegex) {
      var p := LikeParam(f.contentRegex.value, v);
      assert Arg(f.contentRegex) == f.contentRegex.value;
      assert Holds(ContentLike(p), r, m) == m.like(r.entry.content, p);
    }
  }

  /** The compiled WHERE clause selects exactly the rows that satisfy every
      present filter. */
  lemma CompileMeaning(f: QueryFilters, v: Variant, m: Matchers, r: Row)
    ensures AllHold(Compile(f, v), r, m) <==> MatchesFilters(f, v, m, r)
  {
    var w1 := When(Truthy(f.source), SourceIs(Arg(f.source)));
    var w2 := When(Truthy(f.level), LevelIs(Arg(f.level)));
    var w3 := When(Truthy(f.traceId), TraceIs(Arg(f.traceId)));
    AllHoldExtend3([], Truthy(f.source), SourceIs(Arg(f.source)), Truthy(f.level), LevelIs(Arg(f.level)),
      Truthy(f.traceId), TraceIs(Arg(f.traceId)), r, m);
    assert [] + w1 + w2 + w3 == w1 + w2 + w3;
    AllHoldExtend3(w1 + w2 + w3, Truthy(f.startDate), DateFrom(Arg(f.startDate)),
      Truthy(f.endDate), DateTo(Arg(f.endDate)),
      Truthy(f.contentRegex), ContentLike(LikeParam(Arg(f.contentRegex), v)), r, m);
    FiltersAsConditions(f, v, m, r);
  }

  /** `LIMIT n`: at most `n` rows; SQLite reads a negative limit as no
      limit at all. */
  function TakeLimit(s: seq<Row>, n: int): (r: seq<Row>)
    ensures r <= s
    ensures n < 0 ==> r == s
    ensures n >= 0 ==> |r| == if n < |s| then n else |s|
  {
    if n < 0 || n >= |s| then s else s[..n]
  }

  /** SQLite's answer to the prepared statement: the rows that satisfy every
      clause, newest first, cut to the limit. */
  function Execute(rows: seq<Row>, clauses: seq<Clause>, limit: int, m: Matchers): seq<Row>
  {
    TakeLimit(SortDesc(Filter(rows, (r: Row) => AllHold(clauses, r, m))), limit)
  }

  /** The in-memory stage: with a truthy `contentRegex` that compiles, keep
      the rows whose content the expression matches; otherwise (no pattern,
      or one that does not compile) keep every row. */
  function RegexStage(rows: seq<Row>, f: QueryFilters, m: Matchers): seq<Row>
  {
    if Truthy(f.contentRegex) && m.compiles(f.contentRegex.value) then
      Filter(rows, (r: Row) => m.test(f.contentRegex.value, r.entry.content))
    else rows
  }

  /** What `queryLogs(filters)` returns, stated through the filters
      themselves. */
  function Answer(rows: seq<Row>, f: QueryFilters, v: Variant, m: Matchers): seq<Row>
  {
    RegexStage(TakeLimit(SortDesc(Filter(rows, (r: Row) => MatchesFilters(f, v, m, r))), EffectiveLimit(f)), f, m)
  }

  /** Running the compiled query is answering the filters. */
  lemma ExecuteCompiled(rows: seq<Row>, f: QueryFilters, v: Variant, m: Matchers)
    ensures RegexStage(Execute(rows, Compile(f, v), EffectiveLimit(f), m), f, m) == Answer(rows, f, v, m)
  {
    forall k | 0 <= k < |rows|
      ensures AllHold(Compile(f, v), rows[k], m) == MatchesFilters(f, v, m, rows[k])
    {
      CompileMeaning(f, v, m, rows[k]);
    }
    FilterExt(rows, (r: Row) => AllHold(Compile(f, v), r, m), (r: Row) => MatchesFilters(f, v, m, r));
  }

  // ---------------------------------------------------------------------
  // Properties of the answer
  // ---------------------------------------------------------------------

  /** The regex stage only removes rows and keeps their order. */
  lemma RegexStageSubseq(rows: seq<Row>, f: QueryFilters, m: Matchers)
    ensures IsSubseq(RegexStage(rows, f, m), rows)
  {
    if Truthy(f.contentRegex) && m.compiles(f.contentRegex.value) {
      FilterIsSubseq(rows, (r: Row) => m.test(f.contentRegex.value, r.entry.content));
    } else {
      SubseqRefl(rows);
    }
  }

  lemma {:induction false} SubseqRefl(s: seq<Row>)
    ensures IsSubseq(s, s)
    decreases |s|
  {
    if s != [] {
      SubseqRefl(s[1..]);
    }
  }

  /** A pattern that does not compile leaves the rows SQLite returned
      unchanged, LIKE pre-filter included. */
  lemma InvalidRegexPassesRows(rows: seq<Row>, f: QueryFilters, v: Variant, m: Matchers)
    requires Truthy(f.contentRegex) && !m.compiles(f.contentRegex.value)
    ensures Answer(rows, f, v, m) == TakeLimit(SortDesc(Filter(rows, (r: Row) => MatchesFilters(f, v, m, r))), EffectiveLimit(f))
    ensures forall k :: 0 <= k < |Answer(rows, f, v, m)| ==>
      m.like(Answer(rows, f, v, m)[k].entry.content, LikeParam(f.contentRegex.value, v))
  {
    var sorted := SortDesc(Filter(rows, (r: Row) => MatchesFilters(f, v, m, r)));
    var out := Answer(rows, f, v, m);
    forall k | 0 <= k < |out|
      ensures m.like(out[k].entry.content, LikeParam(f.contentRegex.value, v))
    {
      SortDescCorrect(Filter(rows, (r: Row) => MatchesFilters(f, v, m, r)));
      assert out[k] == sorted[k];
      assert sorted[k] in multiset(sorted);
    }
  }

  /** Every returned row is a row of the table that satisfies every present
      filter and, when the pattern compiles, matches it. */
  lemma AnswerSound(rows: seq<Row>, f: QueryFilters, v: Variant, m: Matchers)
    ensures forall k :: 0 <= k < |Answer(rows, f, v, m)| ==>
      var r := Answer(rows, f, v, m)[k];
      && r in rows
      && MatchesFilters(f, v, m, r)
      && (Truthy(f.contentRegex) && m.compiles(f.contentRegex.value) ==> m.test(f.contentRegex.value, r.entry.content))
  {
    var selected := Filter(rows, (r: Row) => MatchesFilters(f, v, m, r));
    var sorted := SortDesc(selected);
    var limited := TakeLimit(sorted, EffectiveLimit(f));
    var out := Answer(rows, f, v, m);
    SortDescCorrect(selected);
    forall k | 0 <= k < |out|
      ensures out[k] in rows && MatchesFilters(f, v, m, out[k])
      ensures Truthy(f.contentRegex) && m.compiles(f.contentRegex.value) ==> m.test(f.contentRegex.value, out[k].entry.content)
    {
      assert out[k] in limited;
      var i :| 0 <= i < |limited| && limited[i] == out[k];
      assert sorted[i] == out[k];
      assert out[k] in multiset(sorted);
      assert out[k] in multiset(selected);
    }
  }

  /** The answer is newest first. */
  lemma AnswerSorted(rows: seq<Row>, f: QueryFilters, v: Variant, m: Matchers)
    ensures SortedDesc(Answer(rows, f, v, m))
  {
    var selected := Filter(rows, (r: Row) => MatchesFilters(f, v, m, r));
    var limited := TakeLimit(SortDesc(selected), EffectiveLimit(f));
    SortDescCorrect(selected);
    assert SortedDesc(limited);
    if Truthy(f.contentRegex) && m.compiles(f.contentRegex.value) {
      FilterKeepsPairwise(limited, (r: Row) => m.test(f.contentRegex.value, r.entry.content), (a: Row, b: Row) => !KeyLess(a, b));
    }
  }

  /** With a positive limit, no more rows than the limit come back. */
  lemma AnswerBounded(rows: seq<Row>, f: QueryFilters, v: Variant, m: Matchers)
    requires EffectiveLimit(f) >= 0
    ensures |Answer(rows, f, v, m)| <= EffectiveLimit(f)
  {
  }

  /** When the limit does not cut anything, every matching row of the table
      comes back. */
  lemma AnswerComplete(rows: seq<Row>, f: QueryFilters, v: Variant, m: Matchers, r: Row)
    requires EffectiveLimit(f) < 0 || |Filter(rows, (x: Row) => MatchesFilters(f, v, m, x))| <= EffectiveLimit(f)
    requires r in rows && MatchesFilters(f, v, m, r)
    requires Truthy(f.contentRegex) && m.compiles(f.contentRegex.value) ==> m.test(f.contentRegex.value, r.entry.content)
    ensures r in Answer(rows, f, v, m)
  {
    var selected := Filter(rows, (x: Row) => MatchesFilters(f, v, m, x));
    var sorted := SortDesc(selected);
    SortDescCorrect(selected);
    var i :| 0 <= i < |rows| && rows[i] == r;
    assert r in selected;
    assert r in multiset(sorted);
    assert TakeLimit(sorted, EffectiveLimit(f)) == sorted;
    if Truthy(f.contentRegex) && m.compiles(f.contentRegex.value) {
      var j :| 0 <= j < |sorted| && sorted[j] == r;
      assert r in Filter(sorted, (x: Row) => m.test(f.contentRegex.value, x.entry.content));
    }
  }

  /** With no truthy filter and a limit that cuts nothing, the query is the
      whole table, newest first. */
  lemma NoFiltersReturnsTable(rows: seq<Row>, f: QueryFilters, v: Variant, m: Matchers)
    requires !Truthy(f.source) && !Truthy(f.level) && !Truthy(f.traceId)
    requires !Truthy(f.startDate) && !Truthy(f.endDate) && !Truthy(f.contentRegex)
    requires EffectiveLimit(f) < 0 || |rows| <= EffectiveLimit(f)
    ensures Compile(f, v) == []
    ensures multiset(Answer(rows, f, v, m)) == multiset(rows)
  {
    FilterAll(rows, (r: Row) => MatchesFilters(f, v, m, r));
    SortDescCorrect(rows);
  }
}
