/** The client SDK logger (`M3Logger` in the Node.js, web, Android and iOS
    SDKs, which share one buffering design): encoded lines collect in a
    buffer that is sent as one batch when it reaches `batchCount`, on a
    timer tick, or on `close`.

    A send is asynchronous: `Flush` hands the batch to the network and
    returns; the network later reports an outcome for it through
    `Complete`. Batches between the two are kept in `pending`. Clocks,
    timers and threads are not modelled: a tick is a method call, and each
    locked region of the Java and Swift code is one method step. */
module ClientBuffer {
  import opened Wrappers
  import opened Seqs
  import opened WireFormat

  datatype Platform = NodeApp | WebApp | AndroidApp | IosApp

  /** The source a logger reports when none is given. */
  function DefaultSource(p: Platform): (s: string)
    ensures s != ""
  {
    match p
    case NodeApp => "node-app"
    case WebApp => "web-app"
    case AndroidApp => "android-app"
    case IosApp => "ios-app"
  }

  /** How a send ends: an HTTP status, or an error before any response
      (a rejected `fetch`, a request `error` event, an exception in the
      Java send thread, a Swift serialization or transport error). */
  datatype Outcome = Status(code: int) | TransportError

  /** Putting batch `k` back in front of the buffer keeps every line
      accounted for. */
  lemma RequeueAccounts(logged: multiset<string>, buffer: seq<string>, pending: seq<seq<string>>, k: nat,
                        delivered: multiset<string>, dropped: multiset<string>, lost: multiset<string>)
    requires k < |pending|
    requires logged == multiset(buffer) + multiset(Flatten(pending)) + delivered + dropped + lost
    ensures logged == multiset(pending[k] + buffer) + multiset(Flatten(pending[..k] + pending[k + 1..])) + delivered + dropped + lost
  {
    FlattenRemove(pending, k);
    assert multiset(pending[k] + buffer) == multiset(pending[k]) + multiset(buffer);
  }

  /** Counting batch `k` as delivered keeps every line accounted for. */
  lemma DeliverAccounts(logged: multiset<string>, buffer: seq<string>, pending: seq<seq<string>>, k: nat,
                        delivered: multiset<string>, dropped: multiset<string>, lost: multiset<string>)
    requires k < |pending|
    requires logged == multiset(buffer) + multiset(Flatten(pending)) + delivered + dropped + lost
    ensures logged == multiset(buffer) + multiset(Flatten(pending[..k] + pending[k + 1..])) + (delivered + multiset(pending[k])) + dropped + lost
  {
    FlattenRemove(pending, k);
  }

  /** Counting batch `k` as dropped keeps every line accounted for. */
  lemma DropAccounts(logged: multiset<string>, buffer: seq<string>, pending: seq<seq<string>>, k: nat,
                     delivered: multiset<string>, dropped: multiset<string>, lost: multiset<string>)
    requires k < |pending|
    requires logged == multiset(buffer) + multiset(Flatten(pending)) + delivered + dropped + lost
    ensures logged == multiset(buffer) + multiset(Flatten(pending[..k] + pending[k + 1..])) + delivered + (dropped + multiset(pending[k])) + lost
  {
    FlattenRemove(pending, k);
  }

  class Logger {
    const source: string
    /** The Node.js SDK builds the request URL with `new URL` only after it
        has emptied the buffer, and that call throws for an endpoint that
        does not parse, so the batch is lost. URL parsing is not modelled:
        the constructor is told whether the endpoint parses. The other SDKs
        put the batch back on such a failure (a transport error). */
    const urlThrows: bool
    var batchCount: int
    var buffer: seq<string>
    /** The periodic flush the logger holds and `close` stops. */
    var timerActive: bool
    /** Periodic flushes started by an earlier `init` and no longer held:
        `init` overwrites the timer field without stopping the timer in it,
        so nothing stops these. */
    var strayTimers: nat
    /** Batches handed to the network whose outcome has not arrived. */
    var pending: seq<seq<string>>

    /** Every line ever logged, the lines whose batch the server answered
        with 200, or with another status (dropped), and the lines of the
        batches the Node.js SDK cleared before its URL parse threw (lost). */
    ghost var logged: multiset<string>
    ghost var delivered: multiset<string>
    ghost var dropped: multiset<string>
    ghost var lost: multiset<string>

    /** Every line is accounted for: each logged line is buffered, in
        flight, delivered, dropped after a non-200 answer, or lost to a
        URL that does not parse. */
    ghost predicate Valid()
      reads this
    {
      logged == multiset(buffer) + multiset(Flatten(pending)) + delivered + dropped + lost
    }

    /** `new M3Logger(endpoint, source)`: batch size 1, empty buffer, no
        timer. A missing source takes the platform's default. Whether the
        endpoint parses as a URL only matters to the Node.js SDK. */
    constructor (platform: Platform, src: Option<string>, endpointParses: bool)
      ensures Valid()
      ensures source == (if src.Some? then src.value else DefaultSource(platform))
      ensures urlThrows == (platform == NodeApp && !endpointParses)
      ensures batchCount == 1 && buffer == [] && !timerActive && strayTimers == 0 && pending == []
      ensures logged == multiset{} && delivered == multiset{} && dropped == multiset{} && lost == multiset{}
    {
      source := if src.Some? then src.value else DefaultSource(platform);
      urlThrows := platform == NodeApp && !endpointParses;
      batchCount := 1;
      buffer := [];
      timerActive := false;
      strayTimers := 0;
      pending := [];
      logged, delivered, dropped, lost := multiset{}, multiset{}, multiset{}, multiset{};
    }

    /** `init(batchCount)`: set the batch size and start a periodic flush.
        A timer that was still running is not stopped: it becomes a stray. */
    method Init(n: int)
      modifies this
      ensures batchCount == n && timerActive
      ensures strayTimers == old(strayTimers) + (if old(timerActive) then 1 else 0)
      ensures buffer == old(buffer) && pending == old(pending)
      ensures logged == old(logged) && delivered == old(delivered) && dropped == old(dropped) && lost == old(lost)
    {
      batchCount := n;
      if timerActive {
        strayTimers := strayTimers + 1;
      }
      timerActive := true;
    }

    /** `flush()`: nothing when the buffer is empty; otherwise the buffer
        is left empty and the whole of it, in order, becomes one batch in
        flight, or is lost when the Node.js URL parse throws. */
    method Flush() returns (batch: Option<seq<string>>)
      requires Valid()
      modifies this
      ensures Valid()
      ensures old(buffer) == [] || urlThrows ==> batch == None && pending == old(pending)
      ensures old(buffer) != [] && !urlThrows ==> batch == Some(old(buffer)) && pending == old(pending) + [old(buffer)]
      ensures lost == old(lost) + (if urlThrows then multiset(old(buffer)) else multiset{})
      ensures buffer == []
      ensures batchCount == old(batchCount) && timerActive == old(timerActive) && strayTimers == old(strayTimers)
      ensures logged == old(logged) && delivered == old(delivered) && dropped == old(dropped)
    {
      if buffer == [] {
        return None;
      }
      if urlThrows {
        Lose();
        return None;
      }
      FlattenAppend(pending, [buffer]);
      assert Flatten([buffer]) == buffer + Flatten([]);
      batch := Some(buffer);
      pending := pending + [buffer];
      buffer := [];
    }

    /** The Node.js `flush` after its URL parse threw: the buffer it had
        already cleared is lost. */
    method Lose()
      requires Valid()
      modifies this
      ensures Valid()
      ensures buffer == [] && pending == old(pending) && lost == old(lost) + multiset(old(buffer))
      ensures batchCount == old(batchCount) && timerActive == old(timerActive) && strayTimers == old(strayTimers)
      ensures logged == old(logged) && delivered == old(delivered) && dropped == old(dropped)
    {
      lost := lost + multiset(buffer);
      buffer := [];
    }

    /** `log(level, traceId, content)`: encode the line, append it, and
        flush once the buffer holds `batchCount` lines. `date` and `time`
        are the client clock's reading. */
    method Log(date: string, time: string, level: string, traceId: Option<string>, content: string)
        returns (batch: Option<seq<string>>)
      requires Valid()
      modifies this
      ensures Valid()
      ensures logged == old(logged) + multiset{EncodeLine(date, time, level, traceId, content)}
      ensures delivered == old(delivered) && dropped == old(dropped)
      ensures var grown := old(buffer) + [EncodeLine(date, time, level, traceId, content)];
        if |grown| < batchCount
        then batch == None && buffer == grown && pending == old(pending) && lost == old(lost)
        else if urlThrows
        then batch == None && buffer == [] && pending == old(pending) && lost == old(lost) + multiset(grown)
        else batch == Some(grown) && buffer == [] && pending == old(pending) + [grown] && lost == old(lost)
      ensures buffer == [] || |buffer| < batchCount
      ensures batchCount == old(batchCount) && timerActive == old(timerActive) && strayTimers == old(strayTimers)
    {
      var line := EncodeLine(date, time, level, traceId, content);
      buffer := buffer + [line];
      logged := logged + multiset{line};
      if |buffer| >= batchCount {
        batch := Flush();
      } else {
        batch := None;
      }
    }

    /** Some periodic flush is still running. */
    predicate Ticking()
      reads this
    {
      timerActive || strayTimers > 0
    }

    /** One firing of a five-second timer (`flushIfNeeded` on iOS): a flush
        when some timer runs and the buffer is not empty. */
    method Tick() returns (batch: Option<seq<string>>)
      requires Valid()
      modifies this
      ensures Valid()
      ensures Ticking() && old(buffer) != [] && !urlThrows ==> batch == Some(old(buffer)) && buffer == [] && pending == old(pending) + [old(buffer)] && lost == old(lost)
      ensures Ticking() && old(buffer) != [] && urlThrows ==> batch == None && buffer == [] && pending == old(pending) && lost == old(lost) + multiset(old(buffer))
      ensures !(Ticking() && old(buffer) != []) ==> batch == None && buffer == old(buffer) && pending == old(pending) && lost == old(lost)
      ensures batchCount == old(batchCount) && timerActive == old(timerActive) && strayTimers == old(strayTimers)
      ensures logged == old(logged) && delivered == old(delivered) && dropped == old(dropped)
    {
      if Ticking() && buffer != [] {
        batch := Flush();
      } else {
        batch := None;
      }
    }

    /** The network reports how the send of batch `k` ended. A transport
        error puts the batch back ahead of everything logged since; any
        HTTP status, 200 or not, ends the batch's life (a non-200 answer
        is only reported on the console, and the web SDK does not even
        look at the status). */
    method Complete(k: nat, outcome: Outcome)
      requires Valid()
      requires k < |pending|
      modifies this
      ensures Valid()
      ensures pending == old(pending[..k] + pending[k + 1..])
      ensures outcome == TransportError ==> buffer == old(pending[k]) + old(buffer)
      ensures outcome.Status? ==> buffer == old(buffer)
      ensures outcome == Status(200) ==> delivered == old(delivered) + multiset(old(pending[k])) && dropped == old(dropped)
      ensures outcome.Status? && outcome.code != 200 ==> dropped == old(dropped) + multiset(old(pending[k])) && delivered == old(delivered)
      ensures outcome == TransportError ==> delivered == old(delivered) && dropped == old(dropped)
      ensures logged == old(logged) && lost == old(lost)
      ensures batchCount == old(batchCount) && timerActive == old(timerActive) && strayTimers == old(strayTimers)
    {
      match outcome {
        case TransportError => Requeue(k);
        case Status(code) =>
          if code == 200 {
            Deliver(k);
          } else {
            Drop(k);
          }
      }
    }

    /** The failed batch goes back in front of the buffer. */
    method Requeue(k: nat)
      requires Valid()
      requires k < |pending|
      modifies this
      ensures Valid()
      ensures pending == old(pending[..k] + pending[k + 1..])
      ensures buffer == old(pending[k]) + old(buffer)
      ensures logged == old(logged) && delivered == old(delivered) && dropped == old(dropped) && lost == old(lost)
      ensures batchCount == old(batchCount) && timerActive == old(timerActive) && strayTimers == old(strayTimers)
    {
      var logs, rest := pending[k], pending[..k] + pending[k + 1..];
      RequeueAccounts(logged, buffer, pending, k, delivered, dropped, lost);
      buffer, pending := logs + buffer, rest;
    }

    /** The server answered 200: the batch is delivered. */
    method Deliver(k: nat)
      requires Valid()
      requires k < |pending|
      modifies this
      ensures Valid()
      ensures pending == old(pending[..k] + pending[k + 1..])
      ensures buffer == old(buffer)
      ensures delivered == old(delivered) + multiset(old(pending[k])) && dropped == old(dropped)
      ensures logged == old(logged) && lost == old(lost)
      ensures batchCount == old(batchCount) && timerActive == old(timerActive) && strayTimers == old(strayTimers)
    {
      var logs, rest := pending[k], pending[..k] + pending[k + 1..];
      DeliverAccounts(logged, buffer, pending, k, delivered, dropped, lost);
      pending, delivered := rest, delivered + multiset(logs);
    }

    /** The server answered another status: the batch is dropped. */
    method Drop(k: nat)
      requires Valid()
      requires k < |pending|
      modifies this
      ensures Valid()
      ensures pending == old(pending[..k] + pending[k + 1..])
      ensures buffer == old(buffer)
      ensures dropped == old(dropped) + multiset(old(pending[k])) && delivered == old(delivered)
      ensures logged == old(logged) && lost == old(lost)
      ensures batchCount == old(batchCount) && timerActive == old(timerActive) && strayTimers == old(strayTimers)
    {
      var logs, rest := pending[k], pending[..k] + pending[k + 1..];
      DropAccounts(logged, buffer, pending, k, delivered, dropped, lost);
      pending, dropped := rest, dropped + multiset(logs);
    }

    /** `close()`: stop the timer the logger holds, then flush. Stray
        timers keep running. */
    method Close() returns (batch: Option<seq<string>>)
      requires Valid()
      modifies this
      ensures Valid()
      ensures !timerActive && strayTimers == old(strayTimers)
      ensures old(buffer) == [] || urlThrows ==> batch == None && pending == old(pending)
      ensures old(buffer) != [] && !urlThrows ==> batch == Some(old(buffer)) && pending == old(pending) + [old(buffer)]
      ensures lost == old(lost) + (if urlThrows then multiset(old(buffer)) else multiset{})
      ensures buffer == [] && batchCount == old(batchCount)
      ensures logged == old(logged) && delivered == old(delivered) && dropped == old(dropped)
    {
      timerActive := false;
      batch := Flush();
    }
  }

  /** The run of sdk/node/example.js, for any six contents: with a batch
      size of 5, the fifth log sends the first five lines as one batch; the
      sixth waits for `close`, which sends it alone; a second `close` sends
      nothing. */
  method ExampleRun(date: string, time: string, c: seq<string>)
      returns (first: Option<seq<string>>, last: Option<seq<string>>, again: Option<seq<string>>)
    requires |c| == 6
    ensures first == Some([EncodeLine(date, time, "INFO", None, c[0]),
                           EncodeLine(date, time, "DEBUG", Some("trace-001"), c[1]),
                           EncodeLine(date, time, "INFO", Some("trace-001"), c[2]),
                           EncodeLine(date, time, "WARN", Some("trace-002"), c[3]),
                           EncodeLine(date, time, "ERROR", Some("trace-003"), c[4])])
    ensures last == Some([EncodeLine(date, time, "INFO", None, c[5])])
    ensures again == None
  {
    var logger;
    logger, first := ExampleFirstBatch(date, time, c);
    var l5 := EncodeLine(date, time, "INFO", None, c[5]);
    var b6 := logger.Log(date, time, "INFO", None, c[5]);
    assert logger.buffer == [l5];
    last := logger.Close();
    again := logger.Close();
  }

  /** The first five logs of the example: four wait in the buffer, the
      fifth fills it and sends all five. */
  method ExampleFirstBatch(date: string, time: string, c: seq<string>)
      returns (logger: Logger, first: Option<seq<string>>)
    requires |c| == 6
    ensures fresh(logger) && logger.Valid() && !logger.urlThrows
    ensures logger.buffer == [] && logger.batchCount == 5
    ensures first == Some([EncodeLine(date, time, "INFO", None, c[0]),
                           EncodeLine(date, time, "DEBUG", Some("trace-001"), c[1]),
                           EncodeLine(date, time, "INFO", Some("trace-001"), c[2]),
                           EncodeLine(date, time, "WARN", Some("trace-002"), c[3]),
                           EncodeLine(date, time, "ERROR", Some("trace-003"), c[4])])
  {
    var l0 := EncodeLine(date, time, "INFO", None, c[0]);
    var l1 := EncodeLine(date, time, "DEBUG", Some("trace-001"), c[1]);
    var l2 := EncodeLine(date, time, "INFO", Some("trace-001"), c[2]);
    var l3 := EncodeLine(date, time, "WARN", Some("trace-002"), c[3]);
    var l4 := EncodeLine(date, time, "ERROR", Some("trace-003"), c[4]);
    logger := ExampleStart(date, time, c);
    LogWaits(logger, date, time, "INFO", Some("trace-001"), c[2]);
    LogWaits(logger, date, time, "WARN", Some("trace-002"), c[3]);
    assert logger.buffer + [l4] == [l0, l1, l2, l3, l4];
    first := logger.Log(date, time, "ERROR", Some("trace-003"), c[4]);
  }

  /** The example's logger after its first two logs, which wait. */
  method ExampleStart(date: string, time: string, c: seq<string>) returns (logger: Logger)
    requires |c| == 6
    ensures fresh(logger) && logger.Valid() && logger.batchCount == 5 && logger.pending == [] && !logger.urlThrows
    ensures logger.buffer == [EncodeLine(date, time, "INFO", None, c[0]),
                              EncodeLine(date, time, "DEBUG", Some("trace-001"), c[1])]
  {
    logger := new Logger(NodeApp, Some("example-node-app"), true);
    logger.Init(5);
    LogWaits(logger, date, time, "INFO", None, c[0]);
    LogWaits(logger, date, time, "DEBUG", Some("trace-001"), c[1]);
  }

  /** A log that leaves the buffer below the batch size only appends. */
  method LogWaits(logger: Logger, date: string, time: string, level: string, traceId: Option<string>, content: string)
    requires logger.Valid() && |logger.buffer| + 1 < logger.batchCount
    modifies logger
    ensures logger.Valid()
    ensures logger.buffer == old(logger.buffer) + [EncodeLine(date, time, level, traceId, content)]
    ensures logger.batchCount == old(logger.batchCount) && logger.pending == old(logger.pending)
    ensures logger.timerActive == old(logger.timerActive) && logger.strayTimers == old(logger.strayTimers)
    ensures logger.lost == old(logger.lost)
  {
    var b := logger.Log(date, time, level, traceId, content);
  }

  /** A batch whose send fails comes back ahead of a line logged while it
      was in flight, so the next send keeps the original order. */
  method RequeueKeepsOrder(date: string, time: string, a: string, b: string) returns (resent: Option<seq<string>>)
    ensures resent == Some([EncodeLine(date, time, "INFO", None, a), EncodeLine(date, time, "INFO", None, b)])
  {
    var la, lb := EncodeLine(date, time, "INFO", None, a), EncodeLine(date, time, "INFO", None, b);
    var logger := OneBatchInFlight(date, time, a);
    LogWaits(logger, date, time, "INFO", None, b);
    assert logger.buffer == [lb];
    logger.Complete(0, TransportError);
    assert logger.buffer == [la, lb];
    resent := logger.Flush();
  }

  /** A web logger with batch size 10 that logged one line and flushed it:
      the batch is in flight and the buffer is empty. */
  method OneBatchInFlight(date: string, time: string, a: string) returns (logger: Logger)
    ensures fresh(logger) && logger.Valid() && logger.batchCount == 10 && !logger.urlThrows
    ensures logger.buffer == [] && logger.pending == [[EncodeLine(date, time, "INFO", None, a)]]
  {
    var la := EncodeLine(date, time, "INFO", None, a);
    logger := new Logger(WebApp, None, true);
    logger.Init(10);
    var b1 := logger.Log(date, time, "INFO", None, a);
    assert logger.buffer == [la];
    var sent := logger.Flush();
  }

  /** A batch answered with a non-200 status is not sent again. */
  method RejectedBatchIsDropped(a: string) returns (resent: Option<seq<string>>)
    ensures resent == None
  {
    var logger := new Logger(AndroidApp, None, true);
    logger.Init(10);
    var b1 := logger.Log("d", "t", "INFO", None, a);
    var sent := logger.Flush();
    logger.Complete(0, Status(400));
    resent := logger.Flush();
  }

  /** Calling `init` twice leaks the first timer: after `close`, a line
      logged below the batch size is still sent by the next tick. */
  method SecondInitLeaksTimer(date: string, time: string, a: string) returns (sent: Option<seq<string>>)
    ensures sent == Some([EncodeLine(date, time, "INFO", None, a)])
  {
    var logger := new Logger(NodeApp, None, true);
    logger.Init(5);
    logger.Init(5);
    var none := logger.Close();
    assert logger.buffer == [] && logger.strayTimers == 1;
    LogWaits(logger, date, time, "INFO", None, a);
    assert logger.buffer == [EncodeLine(date, time, "INFO", None, a)];
    sent := logger.Tick();
  }

  /** A Node.js logger whose endpoint does not parse as a URL: the log that
      fills the buffer clears it, nothing is in flight, and the line is
      lost rather than put back. */
  method BadEndpointLosesBatch(date: string, time: string, a: string) returns (logger: Logger, sent: Option<seq<string>>)
    ensures fresh(logger) && logger.Valid()
    ensures sent == None && logger.buffer == [] && logger.pending == []
    ensures logger.lost == multiset{EncodeLine(date, time, "INFO", None, a)}
  {
    logger := new Logger(NodeApp, None, false);
    logger.Init(1);
    sent := logger.Log(date, time, "INFO", None, a);
  }
}
