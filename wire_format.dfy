/** The tab-separated wire line that every SDK builds in `log()` and that the
    server decodes in `parseLogLine`:

        date \t time \t level \t traceId-or-empty \t escaped-content

    Escaping doubles every backslash and then turns every newline into a
    backslash followed by `n`; decoding turns every backslash-`n` into a
    newline and only then collapses every double backslash. Each `replace`
    with a global pattern scans left to right and never rewrites the text it
    has just produced, which is what the recursive functions below do.

    The decoder is not the inverse of the encoder: a backslash that the
    content itself puts in front of an `n` comes back followed by a newline.
    `ContentRoundTrip` says exactly what comes back for every content. */
module WireFormat {
  import opened Wrappers
  import opened Text
  import opened Records
  import opened Seqs

  // ---------------------------------------------------------------------
  // Encoding (sdk/*: the `escapedContent` and `logLine` expressions)
  // ---------------------------------------------------------------------

  /** `content.replace(/\\/g, '\\\\')`: every backslash doubled. */
  function EscapeBackslashes(s: string): (r: string)
    ensures |r| == |s| + Count(s, '\\')
    ensures '\n' in r <==> '\n' in s
    ensures '\t' in r <==> '\t' in s
  {
    if s == [] then []
    else (if s[0] == '\\' then "\\\\" else [s[0]]) + EscapeBackslashes(s[1..])
  }

  /** `.replace(/\n/g, '\\n')`: every newline becomes backslash, `n`. */
  function EscapeNewlines(s: string): (r: string)
    ensures |r| == |s| + Count(s, '\n')
    ensures '\n' !in r
    ensures '\t' in r <==> '\t' in s
  {
    if s == [] then []
    else (if s[0] == '\n' then "\\n" else [s[0]]) + EscapeNewlines(s[1..])
  }

  /** The content as it travels: backslashes first, then newlines. The
      result never holds a newline, so one record is one line. */
  function EscapeContent(c: string): string
  {
    EscapeNewlines(EscapeBackslashes(c))
  }

  /** `traceId || ''` (JavaScript), `traceId != null ? traceId : ""` (Java),
      `traceId ?? ""` (Swift). */
  function TraceField(traceId: Option<string>): string
  {
    if traceId.Some? then traceId.value else ""
  }

  /** The line an SDK appends to its buffer. `date` and `time` come from the
      client clock and are parameters here. */
  function EncodeLine(date: string, time: string, level: string, traceId: Option<string>, content: string): string
  {
    date + "\t" + (time + "\t" + (level + "\t" + (TraceField(traceId) + "\t" + EscapeContent(content))))
  }

  // ---------------------------------------------------------------------
  // Decoding (src/server.ts parseLogLine)
  // ---------------------------------------------------------------------

  /** `.replace(/\\n/g, '\n')`: every backslash-`n`, scanning left to right,
      becomes a newline. */
  function UnescapeNewlines(s: string): string
  {
    if s == [] then []
    else if |s| >= 2 && s[0] == '\\' && s[1] == 'n' then "\n" + UnescapeNewlines(s[2..])
    else [s[0]] + UnescapeNewlines(s[1..])
  }

  /** `.replace(/\\\\/g, '\\')`: every double backslash, scanning left to
      right, becomes one. */
  function UnescapeBackslashes(s: string): string
  {
    if s == [] then []
    else if |s| >= 2 && s[0] == '\\' && s[1] == '\\' then "\\" + UnescapeBackslashes(s[2..])
    else [s[0]] + UnescapeBackslashes(s[1..])
  }

  /** The content after decoding: newlines first, then backslashes. */
  function UnescapeContent(e: string): string
  {
    UnescapeBackslashes(UnescapeNewlines(e))
  }

  /** `parts[3] || null`: an empty trace-id field is absent. */
  function TraceOrNull(field: string): Option<string>
  {
    if field == "" then None else Some(field)
  }

  const InvalidLogFormat: string := "Invalid log format"

  /** `parseLogLine(line, source)`: an unlimited split on tabs; fewer than
      five fields is an error; fields 0 to 3 are date, time, level and trace
      id; field 4 is the escaped content; fields after the fifth are ignored.
      The source comes from the caller, never from the line. */
  function ParseLogLine(line: string, source: string): Result<LogEntry, string>
  {
    var parts := Split(line);
    if |parts| < 5 then Failure(InvalidLogFormat)
    else Success(LogEntry(source, parts[0], parts[1], parts[2], TraceOrNull(parts[3]), UnescapeContent(parts[4])))
  }

  // ---------------------------------------------------------------------
  // What a decoded content looks like
  // ---------------------------------------------------------------------

  /** `c` has no backslash immediately followed by `n`. */
  predicate NoBackslashN(c: string)
  {
    forall i :: 0 < i < |c| ==> !(c[i - 1] == '\\' && c[i] == 'n')
  }

  /** `c` with every `n` that directly follows a backslash replaced by a
      newline: what the server stores for a content `c` that an SDK sent. */
  function Mangle(c: string): string
  {
    if c == [] then []
    else if |c| >= 2 && c[0] == '\\' && c[1] == 'n' then "\\\n" + Mangle(c[2..])
    else [c[0]] + Mangle(c[1..])
  }

  /** Mangle, one position at a time. */
  lemma {:induction false} MangleAt(c: string)
    ensures |Mangle(c)| == |c|
    ensures forall i :: 0 <= i < |c| ==>
      Mangle(c)[i] == (if i > 0 && c[i - 1] == '\\' && c[i] == 'n' then '\n' else c[i])
    decreases |c|
  {
    if c == [] {
    } else if |c| >= 2 && c[0] == '\\' && c[1] == 'n' {
      MangleAtPair(c);
    } else {
      MangleAtOne(c);
    }
  }

  lemma {:induction false} MangleAtPair(c: string)
    requires |c| >= 2 && c[0] == '\\' && c[1] == 'n'
    ensures |Mangle(c)| == |c|
    ensures forall i :: 0 <= i < |c| ==>
      Mangle(c)[i] == (if i > 0 && c[i - 1] == '\\' && c[i] == 'n' then '\n' else c[i])
    decreases |c|, 0
  {
    var t := c[2..];
    MangleAt(t);
    var m := Mangle(t);
    assert Mangle(c) == "\\\n" + m;
    forall i | 0 <= i < |c|
      ensures Mangle(c)[i] == (if i > 0 && c[i - 1] == '\\' && c[i] == 'n' then '\n' else c[i])
    {
      if i >= 2 {
        assert Mangle(c)[i] == m[i - 2];
        assert t[i - 2] == c[i];
        if i > 2 {
          assert t[i - 3] == c[i - 1];
        }
      }
    }
  }

  lemma {:induction false} MangleAtOne(c: string)
    requires c != [] && !(|c| >= 2 && c[0] == '\\' && c[1] == 'n')
    ensures |Mangle(c)| == |c|
    ensures forall i :: 0 <= i < |c| ==>
      Mangle(c)[i] == (if i > 0 && c[i - 1] == '\\' && c[i] == 'n' then '\n' else c[i])
    decreases |c|, 0
  {
    var t := c[1..];
    MangleAt(t);
    var m := Mangle(t);
    assert Mangle(c) == [c[0]] + m;
    forall i | 0 <= i < |c|
      ensures Mangle(c)[i] == (if i > 0 && c[i - 1] == '\\' && c[i] == 'n' then '\n' else c[i])
    {
      if i >= 1 {
        assert Mangle(c)[i] == m[i - 1];
        assert t[i - 1] == c[i];
        if i > 1 {
          assert t[i - 2] == c[i - 1];
        }
      }
    }
  }

  /** Mangle changes a content exactly when it holds a backslash-`n`. */
  lemma MangleIdentity(c: string)
    ensures Mangle(c) == c <==> NoBackslashN(c)
  {
    MangleAt(c);
    if NoBackslashN(c) {
      assert forall i :: 0 <= i < |c| ==> Mangle(c)[i] == c[i];
    } else {
      var i :| 0 < i < |c| && c[i - 1] == '\\' && c[i] == 'n';
      assert Mangle(c)[i] != c[i];
    }
  }

  // ---------------------------------------------------------------------
  // The content round trip
  // ---------------------------------------------------------------------

  lemma {:induction false} EscapeBackslashesAppend(a: string, b: string)
    ensures EscapeBackslashes(a + b) == EscapeBackslashes(a) + EscapeBackslashes(b)
    decreases |a|
  {
    if a == [] {
      assert a + b == b;
    } else {
      var t := a[1..];
      assert (a + b)[0] == a[0] && (a + b)[1..] == t + b;
      EscapeBackslashesAppend(t, b);
    }
  }

  lemma {:induction false} EscapeNewlinesAppend(a: string, b: string)
    ensures EscapeNewlines(a + b) == EscapeNewlines(a) + EscapeNewlines(b)
    decreases |a|
  {
    if a == [] {
      assert a + b == b;
    } else {
      assert (a + b)[1..] == a[1..] + b;
      EscapeNewlinesAppend(a[1..], b);
    }
  }

  /** Escaping works character by character. */
  lemma EscapeContentAppend(a: string, b: string)
    ensures EscapeContent(a + b) == EscapeContent(a) + EscapeContent(b)
  {
    EscapeBackslashesAppend(a, b);
    EscapeNewlinesAppend(EscapeBackslashes(a), EscapeBackslashes(b));
  }

  /** What escaping makes of one character. */
  function EscapedChar(ch: char): string
  {
    if ch == '\\' then "\\\\" else if ch == '\n' then "\\n" else [ch]
  }

  lemma EscapeOne(ch: char)
    ensures EscapeContent([ch]) == EscapedChar(ch)
  {
    assert [ch][1..] == [];
    var eb := EscapeBackslashes([ch]);
    if ch == '\\' {
      assert eb == "\\\\";
      assert eb[1..] == "\\" && eb[1..][1..] == [];
      assert EscapeNewlines("\\") == "\\";
      assert EscapeNewlines(eb) == "\\" + EscapeNewlines("\\");
    } else {
      assert eb == [ch];
      assert eb[1..] == [];
    }
  }

  lemma EscapeContentCons(c: string)
    requires c != []
    ensures EscapeContent(c) == EscapedChar(c[0]) + EscapeContent(c[1..])
  {
    assert c == [c[0]] + c[1..];
    EscapeContentAppend([c[0]], c[1..]);
    EscapeOne(c[0]);
  }

  /** The text between the two decoding passes, for an escaped content `c`:
      every backslash still doubled, except one that `c` puts before an `n`,
      which stays single and is followed by a newline in place of the `n`. */
  ghost function Halfway(c: string): string
  {
    if c == [] then []
    else if c[0] == '\\' then
      (if |c| >= 2 && c[1] == 'n' then "\\\n" + Halfway(c[2..]) else "\\\\" + Halfway(c[1..]))
    else [c[0]] + Halfway(c[1..])
  }

  lemma UnescapeNewlinesStep(ch: char, x: string)
    requires ch != '\\' || x == [] || x[0] != 'n'
    ensures UnescapeNewlines([ch] + x) == [ch] + UnescapeNewlines(x)
  {
    assert ([ch] + x)[1..] == x;
  }

  lemma UnescapeNewlinesEscape(x: string)
    ensures UnescapeNewlines("\\n" + x) == "\n" + UnescapeNewlines(x)
  {
    assert ("\\n" + x)[2..] == x;
  }

  lemma UnescapeBackslashesStep(ch: char, x: string)
    requires ch != '\\' || x == [] || x[0] != '\\'
    ensures UnescapeBackslashes([ch] + x) == [ch] + UnescapeBackslashes(x)
  {
    assert ([ch] + x)[1..] == x;
  }

  lemma UnescapeBackslashesEscape(x: string)
    ensures UnescapeBackslashes("\\\\" + x) == "\\" + UnescapeBackslashes(x)
  {
    assert ("\\\\" + x)[2..] == x;
  }

  /** Proof-cost helper, modelling nothing: two leading characters
      regrouped. */
  lemma ConsTwo(a: char, b: char, h: string)
    ensures [a] + ([b] + h) == [a, b] + h
  {
  }

  /** A content backslash followed by `n` escapes to backslash, backslash,
      `n`. */
  lemma EscapeBackslashN(c: string)
    requires |c| >= 2 && c[0] == '\\' && c[1] == 'n'
    ensures EscapeContent(c) == ['\\'] + ("\\n" + EscapeContent(c[2..]))
  {
    var r1, r2 := c[1..], c[2..];
    assert r1[1..] == r2;
    EscapeContentCons(c);
    EscapeContentCons(r1);
    GlueBackslashN(EscapeContent(c), EscapeContent(r1), EscapeContent(r2));
  }

  lemma GlueBackslashN(x: string, y: string, z: string)
    requires x == EscapedChar('\\') + y && y == EscapedChar('n') + z
    ensures x == ['\\'] + ("\\n" + z)
  {
    ConsTwo('\\', 'n', z);
  }

  /** Backslash, backslash, `n` loses the `n` escape only. */
  lemma UnescapeNewlinesBackslashN(x: string)
    ensures UnescapeNewlines(['\\'] + ("\\n" + x)) == "\\\n" + UnescapeNewlines(x)
  {
    var h := UnescapeNewlines(x);
    UnescapeNewlinesEscape(x);
    UnescapeNewlinesStep('\\', "\\n" + x);
    ConsTwo('\\', '\n', h);
  }

  /** The first decoding pass over a content backslash followed by `n`. */
  lemma FirstPassBackslashN(c: string)
    requires |c| >= 2 && c[0] == '\\' && c[1] == 'n'
    requires UnescapeNewlines(EscapeContent(c[2..])) == Halfway(c[2..])
    ensures UnescapeNewlines(EscapeContent(c)) == Halfway(c)
  {
    EscapeBackslashN(c);
    UnescapeNewlinesBackslashN(EscapeContent(c[2..]));
  }

  /** The first character of an escaped content: a backslash for a
      backslash or a newline, the character itself otherwise. */
  lemma EscapedHead(c: string)
    requires c != []
    ensures EscapeContent(c) != []
    ensures EscapeContent(c)[0] == (if c[0] == '\\' || c[0] == '\n' then '\\' else c[0])
  {
    EscapeContentCons(c);
  }

  /** A doubled backslash not followed by `n` passes the first decoding
      pass unchanged. */
  lemma UnescapeNewlinesDoubled(x: string)
    requires x == [] || x[0] != 'n'
    ensures UnescapeNewlines("\\\\" + x) == "\\\\" + UnescapeNewlines(x)
  {
    ConsTwo('\\', '\\', x);
    UnescapeNewlinesStep('\\', ['\\'] + x);
    UnescapeNewlinesStep('\\', x);
    ConsTwo('\\', '\\', UnescapeNewlines(x));
  }

  /** The first decoding pass over a content backslash not followed by `n`. */
  lemma FirstPassBackslashOther(c: string)
    requires c != [] && c[0] == '\\' && !(|c| >= 2 && c[1] == 'n')
    requires UnescapeNewlines(EscapeContent(c[1..])) == Halfway(c[1..])
    ensures UnescapeNewlines(EscapeContent(c)) == Halfway(c)
  {
    var rest := EscapeContent(c[1..]);
    if |c| >= 2 {
      EscapedHead(c[1..]);
    }
    EscapeContentCons(c);
    UnescapeNewlinesDoubled(rest);
  }

  /** One step of the first decoding pass over any other character. */
  lemma FirstPassOther(c: string)
    requires c != [] && c[0] != '\\'
    requires UnescapeNewlines(EscapeContent(c[1..])) == Halfway(c[1..])
    ensures UnescapeNewlines(EscapeContent(c)) == Halfway(c)
  {
    EscapeContentCons(c);
    var rest := EscapeContent(c[1..]);
    if c[0] == '\n' {
      UnescapeNewlinesEscape(rest);
    } else {
      UnescapeNewlinesStep(c[0], rest);
    }
  }

  lemma {:induction false} FirstDecodingPass(c: string)
    ensures UnescapeNewlines(EscapeContent(c)) == Halfway(c)
    decreases |c|
  {
    if c != [] {
      if c[0] == '\\' {
        if |c| >= 2 && c[1] == 'n' {
          FirstDecodingPass(c[2..]);
          FirstPassBackslashN(c);
        } else {
          FirstDecodingPass(c[1..]);
          FirstPassBackslashOther(c);
        }
      } else {
        FirstDecodingPass(c[1..]);
        FirstPassOther(c);
      }
    }
  }

  lemma {:induction false} SecondDecodingPass(c: string)
    ensures UnescapeBackslashes(Halfway(c)) == Mangle(c)
    decreases |c|
  {
    if c != [] {
      if c[0] == '\\' {
        if |c| >= 2 && c[1] == 'n' {
          var h := Halfway(c[2..]);
          assert "\\\n" + h == ['\\'] + ("\n" + h);
          UnescapeBackslashesStep('\\', "\n" + h);
          UnescapeBackslashesStep('\n', h);
          SecondDecodingPass(c[2..]);
        } else {
          UnescapeBackslashesEscape(Halfway(c[1..]));
          SecondDecodingPass(c[1..]);
        }
      } else {
        UnescapeBackslashesStep(c[0], Halfway(c[1..]));
        SecondDecodingPass(c[1..]);
      }
    }
  }

  /** Decoding an encoded content gives back the content with every `n`
      that follows a backslash turned into a newline, for every content. */
  lemma ContentRoundTrip(c: string)
    ensures UnescapeContent(EscapeContent(c)) == Mangle(c)
  {
    FirstDecodingPass(c);
    SecondDecodingPass(c);
  }

  /** The content survives the wire exactly when it has no backslash
      directly followed by `n`. */
  lemma ContentRoundTripExact(c: string)
    ensures UnescapeContent(EscapeContent(c)) == c <==> NoBackslashN(c)
  {
    ContentRoundTrip(c);
    MangleIdentity(c);
  }

  /** The content made of a backslash and an `n` comes back as a backslash
      and a newline. */
  lemma BackslashNCounterexample()
    ensures UnescapeContent(EscapeContent("\\n")) == "\\\n"
  {
    ContentRoundTrip("\\n");
    assert "\\n"[2..] == [];
  }

  // ---------------------------------------------------------------------
  // The line round trip
  // ---------------------------------------------------------------------

  /** What the server makes of a trace id the client sent: an empty one and
      an absent one both become null. */
  function NormalizeTrace(traceId: Option<string>): (r: Option<string>)
    ensures r == None <==> (traceId == None || traceId == Some(""))
    ensures r.Some? ==> r == traceId
  {
    TraceOrNull(TraceField(traceId))
  }

  /** A line of four tab-free fields and a last one splits into those four
      fields followed by the fields of the last one. */
  lemma SplitFiveFields(date: string, time: string, level: string, trace: string, last: string)
    requires '\t' !in date && '\t' !in time && '\t' !in level && '\t' !in trace
    ensures Split(date + "\t" + (time + "\t" + (level + "\t" + (trace + "\t" + last))))
         == [date, time, level, trace] + Split(last)
  {
    var j3 := trace + "\t" + last;
    var j2 := level + "\t" + j3;
    var j1 := time + "\t" + j2;
    var tail := Split(last);
    SplitCons(trace, last);
    SplitCons(level, j3);
    SplitCons(time, j2);
    SplitCons(date, j1);
    ConsFour(date, time, level, trace, tail);
  }

  /** Proof-cost helper, modelling nothing: four leading fields
      regrouped. */
  lemma ConsFour(a: string, b: string, c: string, d: string, tail: seq<string>)
    ensures [a] + ([b] + ([c] + ([d] + tail))) == [a, b, c, d] + tail
  {
  }

  /** The five fields of an encoded line, as the server's split sees them. */
  lemma SplitEncodedLine(date: string, time: string, level: string, traceId: Option<string>, content: string)
    requires '\t' !in date && '\t' !in time && '\t' !in level
    requires '\t' !in TraceField(traceId) && '\t' !in content
    ensures Split(EncodeLine(date, time, level, traceId, content))
         == [date, time, level, TraceField(traceId), EscapeContent(content)]
  {
    var ec := EscapeContent(content);
    SplitFiveFields(date, time, level, TraceField(traceId), ec);
    SplitNoTab(ec);
  }

  /** For fields without tabs, the server decodes an SDK line into the same
      date, time and level, the normalised trace id, and the content as
      `Mangle` describes it; the source is the one the server was given. */
  lemma LineRoundTrip(date: string, time: string, level: string, traceId: Option<string>, content: string, source: string)
    requires '\t' !in date && '\t' !in time && '\t' !in level
    requires '\t' !in TraceField(traceId) && '\t' !in content
    ensures ParseLogLine(EncodeLine(date, time, level, traceId, content), source)
         == Success(LogEntry(source, date, time, level, NormalizeTrace(traceId), Mangle(content)))
  {
    SplitEncodedLine(date, time, level, traceId, content);
    ContentRoundTrip(content);
  }

  /** For fields without tabs, the whole record survives the wire (trace id
      normalised) exactly when the content has no backslash-`n`. */
  lemma LineRoundTripExact(date: string, time: string, level: string, traceId: Option<string>, content: string, source: string)
    requires '\t' !in date && '\t' !in time && '\t' !in level
    requires '\t' !in TraceField(traceId) && '\t' !in content
    ensures ParseLogLine(EncodeLine(date, time, level, traceId, content), source)
         == Success(LogEntry(source, date, time, level, NormalizeTrace(traceId), content))
        <==> NoBackslashN(content)
  {
    LineRoundTrip(date, time, level, traceId, content, source);
    MangleIdentity(content);
  }

  /** An SDK cannot tell the server "no trace id" apart from "empty trace
      id": both produce the same line. */
  lemma EmptyTraceIdIsAbsent(date: string, time: string, level: string, content: string)
    ensures EncodeLine(date, time, level, Some(""), content) == EncodeLine(date, time, level, None, content)
  {
  }

  // ---------------------------------------------------------------------
  // What the server accepts
  // ---------------------------------------------------------------------

  /** A line is rejected with "Invalid log format" exactly when it has fewer
      than four tabs (so fewer than five fields). */
  lemma ParseRejectsShortLines(line: string, source: string)
    ensures ParseLogLine(line, source).Failure? <==> Count(line, '\t') < 4
    ensures ParseLogLine(line, source).Failure? ==> ParseLogLine(line, source).error == InvalidLogFormat
  {
    SplitLength(line);
  }

  /** One step of `SplitAppend`: past a first field `head`. */
  lemma SplitAppendStep(head: string, rest: string, b: string)
    requires '\t' !in head
    requires Split(rest + "\t" + b) == Split(rest) + Split(b)
    ensures Split(head + "\t" + rest + "\t" + b) == Split(head + "\t" + rest) + Split(b)
  {
    SplitCons(head, rest);
    TabRegroup(head, rest, b);
    SplitCons(head, rest + "\t" + b);
    ConsAssoc(head, Split(rest), Split(b));
  }

  /** Splitting at a tab splits the fields: those of the text before it,
      then those of the text after it. */
  lemma {:induction false} SplitAppend(a: string, b: string)
    ensures Split(a + "\t" + b) == Split(a) + Split(b)
    decreases |a|
  {
    if FirstTab(a) == |a| {
      SplitCons(a, b);
      SplitNoTab(a);
    } else {
      var head, rest := a[..FirstTab(a)], a[FirstTab(a) + 1..];
      AtFirstTab(a);
      SplitAppend(rest, b);
      SplitAppendStep(head, rest, b);
    }
  }

  /** A line with more than five fields is accepted, and everything after
      the fifth field is dropped. */
  lemma TrailingFieldsIgnored(line: string, extra: string, source: string)
    requires Count(line, '\t') >= 4
    ensures ParseLogLine(line + "\t" + extra, source) == ParseLogLine(line, source)
    ensures ParseLogLine(line + "\t" + extra, source).Success?
  {
    SplitAppend(line, extra);
    SplitLength(line);
  }

  lemma EscapeContentTab(c1: string, c2: string)
    ensures EscapeContent(c1 + "\t" + c2) == EscapeContent(c1) + "\t" + EscapeContent(c2)
  {
    EscapeContentAppend(c1 + "\t", c2);
    EscapeContentAppend(c1, "\t");
    EscapeOne('\t');
  }

  lemma EncodedLineHasFourTabs(date: string, time: string, level: string, traceId: Option<string>, content: string)
    requires '\t' !in date && '\t' !in time && '\t' !in level
    requires '\t' !in TraceField(traceId) && '\t' !in content
    ensures Count(EncodeLine(date, time, level, traceId, content), '\t') == 4
  {
    SplitEncodedLine(date, time, level, traceId, content);
    SplitLength(EncodeLine(date, time, level, traceId, content));
  }

  /** A tab inside the content cuts the stored content short at that tab. */
  lemma TabInContentTruncates(date: string, time: string, level: string, traceId: Option<string>, c1: string, c2: string, source: string)
    requires '\t' !in date && '\t' !in time && '\t' !in level
    requires '\t' !in TraceField(traceId) && '\t' !in c1
    ensures ParseLogLine(EncodeLine(date, time, level, traceId, c1 + "\t" + c2), source)
         == Success(LogEntry(source, date, time, level, NormalizeTrace(traceId), Mangle(c1)))
  {
    EscapeContentTab(c1, c2);
    var ec1, ec2 := EscapeContent(c1), EscapeContent(c2);
    SplitFiveFields(date, time, level, TraceField(traceId), ec1 + "\t" + ec2);
    SplitAppend(ec1, ec2);
    SplitNoTab(ec1);
    ContentRoundTrip(c1);
  }
}
