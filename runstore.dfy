// The two tables of multinav/muse_log.py's schema: `sessions`, keyed by `session_id`, and
// `runs`, keyed by `event_id` with a foreign key to `sessions`. The runs table is kept in
// rowid order, which is the order `ORDER BY ts` falls back to between equal timestamps.
module RunStore {
  import opened Sql

  /** One row of `runs`, in the schema's column order. */
  datatype Run = Run(
    eventId: SqlValue, sessionId: SqlValue, ts: SqlValue,
    inputText: SqlValue, tags: SqlValue,
    provider: SqlValue, modelName: SqlValue, mode: SqlValue, contextTokens: SqlValue, temperature: SqlValue,
    respText: SqlValue, respTokens: SqlValue, finishReason: SqlValue, latencyMs: SqlValue,
    containsCode: SqlValue, hasCitations: SqlValue, uiBroke: SqlValue,
    labelQuality: SqlValue, labelActionable: SqlValue, labelHallucination: SqlValue, labelKept: SqlValue,
    scoreOverall: SqlValue, scoreAccuracy: SqlValue, scoreStyle: SqlValue, scoreSpeed: SqlValue,
    inputTokens: SqlValue, outputTokens: SqlValue, usdEstimate: SqlValue,
    sourceUrls: SqlValue, attachmentsSaved: SqlValue)

  /** The number of columns of `runs`, and of the parameter tuple that fills one row. */
  const RunColumns: nat := 30

  /** The row SQLite stores for a bound 30-tuple: each value under its column's affinity
      (TEXT, INTEGER or REAL, as declared in the schema). */
  function RowOf(vs: seq<SqlValue>): (r: Run)
    requires |vs| == RunColumns
    ensures r.eventId == TextAffinity(vs[0]) && r.sessionId == TextAffinity(vs[1]) && r.ts == TextAffinity(vs[2])
    ensures r.labelQuality == TextAffinity(vs[17]) && r.labelKept == IntegerAffinity(vs[20])
  {
    Run(
      TextAffinity(vs[0]), TextAffinity(vs[1]), TextAffinity(vs[2]),
      TextAffinity(vs[3]), TextAffinity(vs[4]),
      TextAffinity(vs[5]), TextAffinity(vs[6]), TextAffinity(vs[7]), IntegerAffinity(vs[8]), RealAffinity(vs[9]),
      TextAffinity(vs[10]), IntegerAffinity(vs[11]), TextAffinity(vs[12]), IntegerAffinity(vs[13]),
      IntegerAffinity(vs[14]), IntegerAffinity(vs[15]), IntegerAffinity(vs[16]),
      TextAffinity(vs[17]), IntegerAffinity(vs[18]), IntegerAffinity(vs[19]), IntegerAffinity(vs[20]),
      RealAffinity(vs[21]), RealAffinity(vs[22]), RealAffinity(vs[23]), RealAffinity(vs[24]),
      IntegerAffinity(vs[25]), IntegerAffinity(vs[26]), RealAffinity(vs[27]),
      TextAffinity(vs[28]), TextAffinity(vs[29]))
  }

  /** One row of `sessions`. */
  datatype SessionRow = SessionRow(sessionId: SqlValue, startedAt: SqlValue, topic: SqlValue, intent: SqlValue, notes: SqlValue)

  /** The contents of both tables. */
  datatype Tables = Tables(sessions: map<SqlValue, SessionRow>, runs: seq<Run>)

  /** The primary key of `runs`: no two rows share an `event_id`. */
  predicate UniqueKeys(runs: seq<Run>)
  {
    forall i, j :: 0 <= i < j < |runs| ==> runs[i].eventId != runs[j].eventId
  }

  /** The constraints of the schema: both primary keys and the foreign key from `runs`. */
  predicate Consistent(t: Tables)
  {
    && UniqueKeys(t.runs)
    && (forall i :: 0 <= i < |t.runs| ==> t.runs[i].sessionId in t.sessions)
    && (forall k :: k in t.sessions ==> t.sessions[k].sessionId == k)
  }

  /** `INSERT OR IGNORE INTO sessions`: a new key is added; an existing row is left as it was. */
  function InsertOrIgnore(sessions: map<SqlValue, SessionRow>, row: SessionRow): (r: map<SqlValue, SessionRow>)
    ensures row.sessionId in r
    ensures forall k :: k in sessions ==> k in r && r[k] == sessions[k]
    ensures forall k :: k in r ==> k in sessions || k == row.sessionId
    ensures row.sessionId !in sessions ==> r[row.sessionId] == row
  {
    if row.sessionId in sessions then sessions else sessions[row.sessionId := row]
  }

  /** The rows whose `event_id` is `key`, in table order. */
  function Keyed(runs: seq<Run>, key: SqlValue): (r: seq<Run>)
    ensures forall x :: x in r <==> x in runs && x.eventId == key
  {
    if |runs| == 0 then []
    else Keyed(runs[..|runs| - 1], key) + (if runs[|runs| - 1].eventId == key then [runs[|runs| - 1]] else [])
  }

  /** The rows whose `event_id` is not `key`, in table order. */
  function Without(runs: seq<Run>, key: SqlValue): (r: seq<Run>)
    ensures forall x :: x in r <==> x in runs && x.eventId != key
  {
    if |runs| == 0 then []
    else Without(runs[..|runs| - 1], key) + (if runs[|runs| - 1].eventId != key then [runs[|runs| - 1]] else [])
  }

  /** `INSERT OR REPLACE INTO runs`: a row with the same key is deleted, then the new row
      is inserted with a fresh, largest rowid. */
  function InsertOrReplace(runs: seq<Run>, row: Run): seq<Run>
  {
    Without(runs, row.eventId) + [row]
  }

  lemma KeyedSnoc(runs: seq<Run>, x: Run, key: SqlValue)
    ensures Keyed(runs + [x], key) == Keyed(runs, key) + if x.eventId == key then [x] else []
  {
    assert (runs + [x])[..|runs|] == runs;
  }

  lemma {:induction false} KeyedWithout(runs: seq<Run>, key: SqlValue, other: SqlValue)
    ensures Keyed(Without(runs, key), other) == if other == key then [] else Keyed(runs, other)
  {
    if |runs| > 0 {
      var front, last := runs[..|runs| - 1], runs[|runs| - 1];
      KeyedWithout(front, key, other);
      var w := Without(front, key);
      assert Without(runs, key) == w + (if last.eventId != key then [last] else []);
      assert Keyed(runs, other) == Keyed(front, other) + (if last.eventId == other then [last] else []);
      if last.eventId != key {
        KeyedSnoc(w, last, other);
        assert Keyed(Without(runs, key), other) == Keyed(w, other) + (if last.eventId == other then [last] else []);
      } else {
        assert Without(runs, key) == w;
      }
    }
  }

  lemma {:induction false} WithoutKeepsUnique(runs: seq<Run>, key: SqlValue)
    requires UniqueKeys(runs)
    ensures UniqueKeys(Without(runs, key))
  {
    if |runs| > 0 {
      var front, last := runs[..|runs| - 1], runs[|runs| - 1];
      assert UniqueKeys(front);
      WithoutKeepsUnique(front, key);
      var w := Without(front, key);
      forall i | 0 <= i < |w| ensures w[i].eventId != last.eventId {
        assert w[i] in front;
      }
    }
  }

  /** After `INSERT OR REPLACE` exactly one row carries the new key, and it holds the new
      values; the rows of every other key are the same rows, in the same order. */
  lemma ReplaceLeavesOneRow(runs: seq<Run>, row: Run)
    requires UniqueKeys(runs)
    ensures UniqueKeys(InsertOrReplace(runs, row))
    ensures Keyed(InsertOrReplace(runs, row), row.eventId) == [row]
    ensures forall k :: k != row.eventId ==> Keyed(InsertOrReplace(runs, row), k) == Keyed(runs, k)
  {
    var w := Without(runs, row.eventId);
    var r := w + [row];
    assert r[..|w|] == w;
    WithoutKeepsUnique(runs, row.eventId);
    forall i | 0 <= i < |w| ensures w[i].eventId != row.eventId {
      assert w[i] in w;
    }
    KeyedWithout(runs, row.eventId, row.eventId);
    forall k | k != row.eventId ensures Keyed(r, k) == Keyed(runs, k) {
      KeyedWithout(runs, row.eventId, k);
    }
  }

  /** Inserting a run whose session exists keeps the schema's constraints. */
  lemma InsertRunKeepsConsistency(t: Tables, row: Run)
    requires Consistent(t) && row.sessionId in t.sessions
    ensures Consistent(Tables(t.sessions, InsertOrReplace(t.runs, row)))
  {
    ReplaceLeavesOneRow(t.runs, row);
    var runs' := InsertOrReplace(t.runs, row);
    forall i | 0 <= i < |runs'| ensures runs'[i].sessionId in t.sessions {
      if i < |runs'| - 1 {
        assert runs'[i] in Without(t.runs, row.eventId);
      }
    }
  }

  /** The database both scripts open: the two tables, changed in place by each statement. */
  class Database {
    var sessions: map<SqlValue, SessionRow>
    var runs: seq<Run>

    ghost predicate Valid()
      reads this
    {
      Consistent(Contents())
    }

    function Contents(): Tables
      reads this
    {
      Tables(sessions, runs)
    }

    /** A database just created from the schema: both tables empty. */
    constructor ()
      ensures Valid() && Contents() == Tables(map[], [])
    {
      sessions, runs := map[], [];
    }
  }
}
