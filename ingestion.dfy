/** The two submit handlers of the log server: decode the posted lines, then
    store them, answering 200 or 400. Reading the request body and JSON are
    not part of this model: a handler receives the decoded fields. */
module Ingestion {
  import opened Wrappers
  import opened Records
  import opened WireFormat
  import opened Storage

  /** `data.source || 'unknown'`: a missing or empty source becomes
      `unknown`. */
  function SourceOr(source: Option<string>): (s: string)
    ensures s != ""
    ensures source.Some? && source.value != "" ==> s == source.value
    ensures source.None? || source.value == "" ==> s == "unknown"
  {
    if source.Some? && source.value != "" then source.value else "unknown"
  }

  /** `data.logs.map(line => parseLogLine(line, source))`: every line
      decoded, or the error of the first line that is not. */
  function ParseAll(lines: seq<string>, source: string): (r: Result<seq<LogEntry>, string>)
    ensures r.Success? <==> forall k :: 0 <= k < |lines| ==> ParseLogLine(lines[k], source).Success?
    ensures r.Success? ==> |r.value| == |lines|
    ensures r.Success? ==> forall k :: 0 <= k < |lines| ==> ParseLogLine(lines[k], source) == Success(r.value[k])
    ensures r.Failure? ==> r.error == InvalidLogFormat
  {
    if lines == [] then Success([])
    else
      match ParseLogLine(lines[0], source)
      case Failure(e) => Failure(e)
      case Success(entry) =>
        match ParseAll(lines[1..], source)
        case Failure(e) => Failure(e)
        case Success(rest) => Success([entry] + rest)
  }

  /** Every decoded entry carries the source given with the request. */
  lemma ParseAllSource(lines: seq<string>, source: string)
    requires ParseAll(lines, source).Success?
    ensures forall k :: 0 <= k < |lines| ==> ParseAll(lines, source).value[k].source == source
  {
  }

  /** The JSON body of a response. */
  datatype Body =
    | Accepted                 // {"success": true}
    | AcceptedCount(count: nat) // {"success": true, "count": n}
    | Rejected(error: string)  // {"error": message}

  datatype Response = Response(status: nat, body: Body)

  /** `POST /api/log`: decode one line and insert it. */
  method HandleLogSubmit(db: LogDatabase, line: string, source: Option<string>, createdAt: string, fault: Option<string>)
      returns (resp: Response)
    requires db.Valid()
    modifies db
    ensures db.Valid()
    ensures ParseLogLine(line, SourceOr(source)).Failure? ==>
      && resp == Response(400, Rejected(InvalidLogFormat))
      && db.rows == old(db.rows) && db.nextId == old(db.nextId)
    ensures ParseLogLine(line, SourceOr(source)).Success? && fault.Some? ==>
      && resp == Response(400, Rejected(fault.value))
      && db.rows == old(db.rows) && db.nextId == old(db.nextId)
    ensures ParseLogLine(line, SourceOr(source)).Success? && fault.None? ==>
      && resp == Response(200, Accepted)
      && db.rows == old(db.rows) + Stamp([ParseLogLine(line, SourceOr(source)).value], old(db.nextId), createdAt)
      && db.nextId == old(db.nextId) + 1
  {
    var parsed := ParseLogLine(line, SourceOr(source));
    if parsed.Failure? {
      return Response(400, Rejected(parsed.error));
    }
    var outcome := db.InsertLog(parsed.value, createdAt, fault);
    if outcome.Failure? {
      return Response(400, Rejected(outcome.error));
    }
    resp := Response(200, Accepted);
  }

  /** `POST /api/logs`: decode every line first, then insert them all in
      one transaction; any failure inserts nothing. */
  method HandleBatchLogSubmit(db: LogDatabase, lines: seq<string>, source: Option<string>, createdAt: string, fault: Option<Fault>)
      returns (resp: Response)
    requires db.Valid()
    modifies db
    ensures db.Valid()
    ensures resp.status == 200 || resp.status == 400
    ensures resp.status == 400 ==> db.rows == old(db.rows) && db.nextId == old(db.nextId)
    ensures ParseAll(lines, SourceOr(source)).Failure? ==> resp == Response(400, Rejected(InvalidLogFormat))
    ensures ParseAll(lines, SourceOr(source)).Success? && fault.Some? && fault.value.index < |lines| ==>
      resp == Response(400, Rejected(fault.value.message))
    ensures resp.status == 200 <==>
      ParseAll(lines, SourceOr(source)).Success? && (fault.None? || fault.value.index >= |lines|)
    ensures resp.status == 200 ==>
      && resp.body == AcceptedCount(|lines|)
      && db.rows == old(db.rows) + Stamp(ParseAll(lines, SourceOr(source)).value, old(db.nextId), createdAt)
      && db.nextId == old(db.nextId) + |lines|
  {
    var logs := ParseAll(lines, SourceOr(source));
    if logs.Failure? {
      return Response(400, Rejected(logs.error));
    }
    var outcome := db.InsertLogBatch(logs.value, createdAt, fault);
    if outcome.Failure? {
      return Response(400, Rejected(outcome.error));
    }
    resp := Response(200, AcceptedCount(|logs.value|));
  }

  /** What the server stores for one entry an SDK encoded. */
  function Received(e: LogEntry, source: string): LogEntry
  {
    LogEntry(source, e.date, e.time, e.level, NormalizeTrace(e.traceId), Mangle(e.content))
  }

  /** A field an SDK writes without tabs, as the wire format needs. */
  predicate TabFree(e: LogEntry)
  {
    '\t' !in e.date && '\t' !in e.time && '\t' !in e.level
    && '\t' !in TraceField(e.traceId) && '\t' !in e.content
  }

  function EncodeAll(es: seq<LogEntry>): (lines: seq<string>)
    ensures |lines| == |es|
    ensures forall k :: 0 <= k < |es| ==>
      lines[k] == EncodeLine(es[k].date, es[k].time, es[k].level, es[k].traceId, es[k].content)
  {
    if es == [] then []
    else [EncodeLine(es[0].date, es[0].time, es[0].level, es[0].traceId, es[0].content)] + EncodeAll(es[1..])
  }

  /** A batch of SDK lines with tab-free fields is accepted whole, and each
      entry arrives as the SDK saw it, up to the trace-id and backslash-`n`
      normalisation of the wire format. */
  lemma {:induction false} EncodedBatchAccepted(es: seq<LogEntry>, source: string)
    requires forall k :: 0 <= k < |es| ==> TabFree(es[k])
    ensures ParseAll(EncodeAll(es), source).Success?
    ensures forall k :: 0 <= k < |es| ==> ParseAll(EncodeAll(es), source).value[k] == Received(es[k], source)
  {
    var lines := EncodeAll(es);
    forall k | 0 <= k < |es|
      ensures ParseLogLine(lines[k], source) == Success(Received(es[k], source))
    {
      LineRoundTrip(es[k].date, es[k].time, es[k].level, es[k].traceId, es[k].content, source);
    }
  }
}
