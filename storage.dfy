/** `LogDatabase`: the `logs` table as a sequence of rows in insertion order,
    with the next identifier `AUTOINCREMENT` will hand out. */
module Storage {
  import opened Wrappers
  import opened Text
  import opened Seqs
  import opened Records
  import Query

  /** Identifiers strictly increase along the table and stay below the next
      one to be handed out, which starts at 1. */
  predicate IdsValid(rows: seq<Row>, nextId: nat)
  {
    && 1 <= nextId
    && (forall i, j :: 0 <= i < j < |rows| ==> rows[i].id < rows[j].id)
    && (forall k :: 0 <= k < |rows| ==> rows[k].id < nextId)
  }

  /** The rows a run of inserts adds: identifiers `first`, `first + 1`, ...
      in the order of the entries, all with the same `created_at`. */
  function Stamp(entries: seq<LogEntry>, first: nat, createdAt: string): seq<Row>
  {
    seq(|entries|, k requires 0 <= k < |entries| => Row(first + k, entries[k], createdAt))
  }

  lemma StampSnoc(entries: seq<LogEntry>, i: nat, first: nat, createdAt: string)
    requires i < |entries|
    ensures Stamp(entries[..i + 1], first, createdAt)
         == Stamp(entries[..i], first, createdAt) + [Row(first + i, entries[i], createdAt)]
  {
  }

  /** Appending a run of fresh rows keeps the identifiers valid, and the
      next identifier moves past the run. */
  lemma StampKeepsIds(rows: seq<Row>, nextId: nat, entries: seq<LogEntry>, createdAt: string)
    requires IdsValid(rows, nextId)
    ensures IdsValid(rows + Stamp(entries, nextId, createdAt), nextId + |entries|)
  {
    var all := rows + Stamp(entries, nextId, createdAt);
    forall i, j | 0 <= i < j < |all|
      ensures all[i].id < all[j].id
    {
      if j < |rows| {
        assert all[i] == rows[i] && all[j] == rows[j];
      } else if i < |rows| {
        assert all[i] == rows[i];
      }
    }
  }

  /** The rows `DELETE FROM logs WHERE date < ?` keeps. */
  function Retained(rows: seq<Row>, cutoff: string): seq<Row>
  {
    Filter(rows, (r: Row) => !LexLess(r.entry.date, cutoff))
  }

  /** The rows it removes. */
  function Expired(rows: seq<Row>, cutoff: string): seq<Row>
  {
    Filter(rows, (r: Row) => LexLess(r.entry.date, cutoff))
  }

  /** A row survives exactly when it was in the table and its date is not
      before the cutoff. */
  lemma RetainedExactly(rows: seq<Row>, cutoff: string, r: Row)
    ensures r in Retained(rows, cutoff) <==> r in rows && !LexLess(r.entry.date, cutoff)
  {
    if r in rows && !LexLess(r.entry.date, cutoff) {
      var k :| 0 <= k < |rows| && rows[k] == r;
    }
  }

  /** Every row is either kept or removed, so the number of changes the
      statement reports is the number of expired rows. */
  lemma {:induction false} RetainedPlusExpired(rows: seq<Row>, cutoff: string)
    ensures |Retained(rows, cutoff)| + |Expired(rows, cutoff)| == |rows|
    decreases |rows|
  {
    if rows != [] {
      RetainedPlusExpired(rows[1..], cutoff);
    }
  }

  /** Deleting keeps the surviving rows in their order, so the identifiers
      stay valid. */
  lemma RetainedKeepsIds(rows: seq<Row>, nextId: nat, cutoff: string)
    requires IdsValid(rows, nextId)
    ensures IdsValid(Retained(rows, cutoff), nextId)
    ensures IsSubseq(Retained(rows, cutoff), rows)
  {
    FilterKeepsPairwise(rows, (r: Row) => !LexLess(r.entry.date, cutoff), (a: Row, b: Row) => a.id < b.id);
    FilterIsSubseq(rows, (r: Row) => !LexLess(r.entry.date, cutoff));
  }

  /** A failing `stmt.run`: the statement at `index` of a batch throws
      `message` (a constraint or I/O failure inside SQLite). */
  datatype Fault = Fault(index: nat, message: string)

  class LogDatabase {
    var rows: seq<Row>
    var nextId: nat

    predicate Valid()
      reads this
    {
      IdsValid(rows, nextId)
    }

    /** `new LogDatabase(dataDir)`: opens `logs.db`, whose table
        `CREATE TABLE IF NOT EXISTS` keeps when it is already there, so the
        rows and the `AUTOINCREMENT` counter of an earlier run survive. A new
        file is `existing == []` with `next == 1`. */
    constructor (existing: seq<Row>, next: nat)
      requires IdsValid(existing, next)
      ensures Valid()
      ensures rows == existing && nextId == next
    {
      rows := existing;
      nextId := next;
    }

    /** `insertLog`: one row with the next identifier, which is returned as
        `lastInsertRowid`. When the statement throws, nothing changes and
        the error propagates. */
    method InsertLog(e: LogEntry, createdAt: string, fault: Option<string>) returns (outcome: Result<nat, string>)
      requires Valid()
      modifies this
      ensures Valid()
      ensures outcome.Success? <==> fault.None?
      ensures outcome.Success? ==>
        && outcome.value == old(nextId)
        && rows == old(rows) + Stamp([e], old(nextId), createdAt)
        && nextId == old(nextId) + 1
      ensures outcome.Failure? ==>
        && outcome.error == fault.value
        && rows == old(rows) && nextId == old(nextId)
    {
      if fault.Some? {
        return Failure(fault.value);
      }
      StampKeepsIds(rows, nextId, [e], createdAt);
      outcome := Success(nextId);
      rows := rows + [Row(nextId, e, createdAt)];
      nextId := nextId + 1;
    }

    /** `insertLogBatch`: every entry inserted in order inside one
        transaction. When a statement throws, the transaction rolls back
        (the `AUTOINCREMENT` counter with it) and the error propagates.
        Success returns nothing. */
    method InsertLogBatch(entries: seq<LogEntry>, createdAt: string, fault: Option<Fault>) returns (outcome: Result<(), string>)
      requires Valid()
      modifies this
      ensures Valid()
      ensures outcome.Success? <==> fault.None? || fault.value.index >= |entries|
      ensures outcome.Success? ==>
        && rows == old(rows) + Stamp(entries, old(nextId), createdAt)
        && nextId == old(nextId) + |entries|
      ensures outcome.Failure? ==>
        && outcome.error == fault.value.message
        && rows == old(rows) && nextId == old(nextId)
    {
      var savedRows, savedNext := rows, nextId;
      var i := 0;
      while i < |entries|
        invariant 0 <= i <= |entries|
        invariant fault.Some? ==> fault.value.index >= i
        invariant rows == savedRows + Stamp(entries[..i], savedNext, createdAt)
        invariant nextId == savedNext + i
        invariant IdsValid(rows, nextId)
      {
        if fault.Some? && fault.value.index == i {
          rows, nextId := savedRows, savedNext;
          return Failure(fault.value.message);
        }
        StampSnoc(entries, i, savedNext, createdAt);
        StampKeepsIds(savedRows, savedNext, entries[..i + 1], createdAt);
        rows := rows + [Row(nextId, entries[i], createdAt)];
        nextId := nextId + 1;
        i := i + 1;
      }
      assert entries[..i] == entries;
      outcome := Success(());
    }

    /** `deleteOldLogs`: `DELETE FROM logs WHERE date < cutoff`, returning
        the number of rows removed. */
    method DeleteOldLogs(cutoff: string) returns (changes: nat)
      requires Valid()
      modifies this
      ensures Valid()
      ensures rows == Retained(old(rows), cutoff)
      ensures nextId == old(nextId)
      ensures changes == |Expired(old(rows), cutoff)|
    {
      RetainedKeepsIds(rows, nextId, cutoff);
      RetainedPlusExpired(rows, cutoff);
      changes := |rows| - |Retained(rows, cutoff)|;
      rows := Retained(rows, cutoff);
    }

    /** `queryLogs`: build the statement, let SQLite run it against the
        table, then apply the regular expression in memory. */
    method QueryLogs(f: Query.QueryFilters, v: Query.Variant, m: Query.Matchers) returns (results: seq<Row>)
      ensures results == Query.Answer(rows, f, v, m)
    {
      var query, clauses, params := Query.BuildQuery(f, v);
      results := Query.Execute(rows, clauses, params[|clauses|].n, m);
      if Query.Truthy(f.contentRegex) {
        if m.compiles(f.contentRegex.value) {
          var pattern := f.contentRegex.value;
          results := Filter(results, (r: Row) => m.test(pattern, r.entry.content));
        }
      }
      Query.ExecuteCompiled(rows, f, v, m);
    }
  }
}
