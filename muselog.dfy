// multinav/muse_log.py: turning one event dict into a `sessions` row and a `runs` row,
// and ingesting a stream of NDJSON lines. The event dict is changed in place (`event_id`
// and `session_id` are written back); the tables change by INSERT OR IGNORE and
// INSERT OR REPLACE.
module MuseLog {
  import opened Common
  import opened PyJson
  import opened Sql
  import opened RunStore

  /** `_bool(x)`: `None` stays `None`, anything else becomes 1 or 0 by truthiness. */
  function BoolColumn(x: Json): (r: Json)
    ensures r == JNull <==> x == JNull
    ensures x != JNull ==> r == JInt(if Truthy(x) then 1 else 0)
  {
    if x == JNull then JNull else JInt(if Truthy(x) then 1 else 0)
  }

  /** A `_bool` column always stores NULL, 0 or 1, and stores 1 exactly for a truthy value. */
  lemma BoolColumnStoresFlag(x: Json)
    ensures Bind(BoolColumn(x)).Ok?
    ensures var v := IntegerAffinity(Bind(BoolColumn(x)).value);
      && (v == SqlNull || v == SqlInt(0) || v == SqlInt(1))
      && (v == SqlNull <==> x == JNull)
      && (v == SqlInt(1) <==> Truthy(x))
  {
  }

  /** `_json_join(val)`: `None` stays `None`, a string is kept as it is, and any other value
      (list or not) is encoded by `json.dumps`. */
  function JsonJoin(v: Json, dumps: Json -> string): (r: Json)
    ensures r == JNull <==> v == JNull
    ensures v.JStr? ==> r == v
    ensures v != JNull && !v.JStr? ==> r == JStr(dumps(v))
  {
    if v == JNull then JNull
    else if v.JArr? then JStr(dumps(v))
    else if v.JStr? then v
    else JStr(dumps(v))
  }

  /** A `_json_join` column is a TEXT column or NULL, and when `json.loads` undoes
      `json.dumps` the stored text decodes back to the value it came from. */
  lemma JsonJoinDecodes(v: Json, dumps: Json -> string, loads: string -> Option<Json>)
    requires loads(dumps(v)) == Some(v)
    ensures Bind(JsonJoin(v, dumps)).Ok?
    ensures var c := TextAffinity(Bind(JsonJoin(v, dumps)).value);
      && (c == SqlNull <==> v == JNull)
      && (v.JStr? ==> c == SqlText(v.s))
      && (v != JNull && !v.JStr? ==> c.SqlText? && loads(c.t) == Some(v))
  {
  }

  /** The values `uuid.uuid4().hex` and `datetime.utcnow()` supply during one `upsert_run`:
      the event's id, the id behind a synthesised session id, the `%Y%m%dT%H%M%S` stamp,
      and the two `isoformat()` readings (run `ts`, session `started_at`). */
  datatype Fresh = Fresh(eventHex: string, sessionHex: string, stamp: string, runIso: string, sessionIso: string)

  /** `_ulid_like()[:8]`. */
  function Short(hex: string): (r: string)
    ensures |r| == Min(8, |hex|) && r == hex[..|r|]
  {
    if |hex| <= 8 then hex else hex[..8]
  }

  /** The id `_ensure_session` gives an event without one: stamp, dash, eight hex characters. */
  function SynthesizedSessionId(gen: Fresh): string
  {
    gen.stamp + "-" + Short(gen.sessionHex)
  }

  /** What one step does: its outcome (the key it wrote, or the exception), the tables
      after it and the event dict after it. */
  datatype Step = Step(outcome: Result<SqlValue>, tables: Tables, event: map<string, Json>)

  /** `_ensure_session(con, event)`. */
  function EnsureSessionSpec(t: Tables, ev: map<string, Json>, gen: Fresh): (s: Step)
    ensures "session_id" in s.event && Truthy(s.event["session_id"])
    ensures s.event == if Truthy(Get(ev, "session_id")) then ev else ev["session_id" := JStr(SynthesizedSessionId(gen))]
    ensures s.outcome.Err? ==> s.tables == t
    ensures s.outcome.Ok? ==>
      && Bind(s.event["session_id"]).Ok?
      && s.outcome.value == TextAffinity(Bind(s.event["session_id"]).value)
      && s.tables.runs == t.runs
      && s.outcome.value in s.tables.sessions
      && (forall k :: k in s.tables.sessions ==> k in t.sessions || k == s.outcome.value)
      && (forall k :: k in t.sessions ==> k in s.tables.sessions && s.tables.sessions[k] == t.sessions[k])
    ensures Consistent(t) ==> Consistent(s.tables)
  {
    var given := Get(ev, "session_id");
    var sid := if Truthy(given) then given else JStr(SynthesizedSessionId(gen));
    var ev1 := if Truthy(given) then ev else ev["session_id" := sid];
    var tc := GetOr(ev1, "task_context", EmptyObj);
    var startedAt := Or(Get(ev1, "ts"), JStr(gen.sessionIso + "Z"));
    if !tc.JObj? then Step(Err("AttributeError: 'task_context' has no attribute 'get'"), t, ev1)
    else
      match BindAll([sid, startedAt, Get(tc.fields, "topic"), Get(tc.fields, "intent"), JNull])
      case Err(e) => Step(Err(e), t, ev1)
      case Ok(vs) =>
        BindAllBinds([sid, startedAt, Get(tc.fields, "topic"), Get(tc.fields, "intent"), JNull]);
        var row := SessionRow(TextAffinity(vs[0]), TextAffinity(vs[1]), TextAffinity(vs[2]), TextAffinity(vs[3]), TextAffinity(vs[4]));
        Step(Ok(row.sessionId), Tables(InsertOrIgnore(t.sessions, row), t.runs), ev1)
  }

  /** `event.get(key, {}) or {}`. */
  function Section(ev: map<string, Json>, key: string): Json
  {
    Or(Get(ev, key), EmptyObj)
  }

  /** The parameters taken from `user_input`: text and tags. */
  function InputParams(u: map<string, Json>, dumps: Json -> string): (r: seq<Json>)
    ensures |r| == 2
  {
    [Get(u, "text"), JsonJoin(Get(u, "tags"), dumps)]
  }

  /** The parameters taken from `model`. */
  function ModelParams(m: map<string, Json>): (r: seq<Json>)
    ensures |r| == 5
  {
    [Get(m, "provider"), Get(m, "name"), Get(m, "mode"), Get(m, "context_tokens"), Get(m, "temperature")]
  }

  /** The parameters taken from `response`. */
  function ResponseParams(rs: map<string, Json>): (r: seq<Json>)
    ensures |r| == 4
  {
    [Get(rs, "text"), Get(rs, "raw_tokens"), Get(rs, "finish_reason"), Get(rs, "latency_ms")]
  }

  /** The parameters taken from `observations`, each through `_bool`. */
  function ObservationParams(o: map<string, Json>): (r: seq<Json>)
    ensures |r| == 3
  {
    [BoolColumn(Get(o, "contains_code")), BoolColumn(Get(o, "has_citations")), BoolColumn(Get(o, "ui_broke"))]
  }

  /** The parameters taken from `labels`. */
  function LabelParams(l: map<string, Json>): (r: seq<Json>)
    ensures |r| == 4
  {
    [Get(l, "quality"), BoolColumn(Get(l, "actionable")), BoolColumn(Get(l, "hallucination_flag")), BoolColumn(Get(l, "kept"))]
  }

  /** The parameters taken from `metrics`. */
  function MetricParams(me: map<string, Json>): (r: seq<Json>)
    ensures |r| == 4
  {
    [Get(me, "score_overall"), Get(me, "score_accuracy"), Get(me, "score_style"), Get(me, "score_speed")]
  }

  /** The parameters taken from `costing`. */
  function CostParams(c: map<string, Json>): (r: seq<Json>)
    ensures |r| == 3
  {
    [Get(c, "input_tokens"), Get(c, "output_tokens"), Get(c, "usd_estimate")]
  }

  /** The parameters taken from `links`, each through `_json_join`. */
  function LinkParams(li: map<string, Json>, dumps: Json -> string): (r: seq<Json>)
    ensures |r| == 2
  {
    [JsonJoin(Get(li, "source_urls"), dumps), JsonJoin(Get(li, "attachments_saved"), dumps)]
  }

  /** The eight sections whose `.get` builds the run row are dicts (`client` and
      `task_context` are read there but never used). */
  predicate SectionsAreDicts(ev: map<string, Json>)
  {
    && Section(ev, "user_input").JObj? && Section(ev, "model").JObj? && Section(ev, "response").JObj?
    && Section(ev, "observations").JObj? && Section(ev, "labels").JObj? && Section(ev, "metrics").JObj?
    && Section(ev, "costing").JObj? && Section(ev, "links").JObj?
  }

  /** The parameter tuple of the `INSERT OR REPLACE INTO runs` statement; building it calls
      `.get` on eight sections, which raises for a section that is not a dict. */
  function RunParams(ev: map<string, Json>, ts: Json, dumps: Json -> string): (r: Result<seq<Json>>)
    requires "event_id" in ev && "session_id" in ev
    ensures r.Ok? <==> SectionsAreDicts(ev)
    ensures r.Ok? ==> |r.value| == RunColumns && r.value[0] == ev["event_id"] && r.value[1] == ev["session_id"] && r.value[2] == ts
  {
    if !SectionsAreDicts(ev) then Err("AttributeError: section has no attribute 'get'")
    else
      var head := [ev["event_id"], ev["session_id"], ts];
      var tail := SectionParams(ev, dumps);
      assert (head + tail)[0] == ev["event_id"] && (head + tail)[1] == ev["session_id"] && (head + tail)[2] == ts;
      Ok(head + tail)
  }

  /** The 27 parameters after `event_id`, `session_id` and `ts`, section by section. */
  function SectionParams(ev: map<string, Json>, dumps: Json -> string): (r: seq<Json>)
    requires SectionsAreDicts(ev)
    ensures |r| == RunColumns - 3
  {
    InputParams(Section(ev, "user_input").fields, dumps) + ModelParams(Section(ev, "model").fields)
    + ResponseParams(Section(ev, "response").fields) + ObservationParams(Section(ev, "observations").fields)
    + LabelParams(Section(ev, "labels").fields) + MetricParams(Section(ev, "metrics").fields)
    + CostParams(Section(ev, "costing").fields) + LinkParams(Section(ev, "links").fields, dumps)
  }

  /** The `event_id` `upsert_run` uses: the event's own when truthy, a freshly generated one otherwise. */
  function EventIdOf(ev: map<string, Json>, gen: Fresh): Json
  {
    Or(Get(ev, "event_id"), JStr(gen.eventHex))
  }

  /** The row the run insert stores: the parameter tuple, bound, under the columns'
      affinities. Building or binding the tuple may raise. */
  function RunRow(ev: map<string, Json>, ts: Json, dumps: Json -> string): (r: Result<Run>)
    requires "event_id" in ev && "session_id" in ev
    ensures r.Ok? ==> Bind(ev["event_id"]).Ok? && r.value.eventId == TextAffinity(Bind(ev["event_id"]).value)
    ensures r.Ok? ==> Bind(ev["session_id"]).Ok? && r.value.sessionId == TextAffinity(Bind(ev["session_id"]).value)
    ensures r.Ok? ==> Bind(ts).Ok? && r.value.ts == TextAffinity(Bind(ts).value)
  {
    match RunParams(ev, ts, dumps)
    case Err(e) => Err(e)
    case Ok(ps) =>
      match BindAll(ps)
      case Err(e) => Err(e)
      case Ok(vs) => BindAllBinds(ps); Ok(RowOf(vs))
  }

  /** The run insert into `after`, the tables as `_ensure_session` left them, for the event
      dict `ev`; when it raises, the session insert is rolled back and `t` is what remains. */
  function InsertRunStep(t: Tables, after: Tables, ev: map<string, Json>, ts: Json, dumps: Json -> string): (r: Step)
    requires "event_id" in ev && "session_id" in ev
    ensures r.event == ev
    ensures r.outcome.Err? ==> r.tables == t
    ensures r.outcome.Ok? ==>
      && RunRow(ev, ts, dumps).Ok?
      && r.outcome.value == RunRow(ev, ts, dumps).value.eventId
      && r.tables == Tables(after.sessions, InsertOrReplace(after.runs, RunRow(ev, ts, dumps).value))
  {
    match RunRow(ev, ts, dumps)
    case Err(e) => Step(Err(e), t, ev)
    case Ok(row) => Step(Ok(row.eventId), Tables(after.sessions, InsertOrReplace(after.runs, row)), ev)
  }

  /** `event["event_id"] = event.get("event_id") or _ulid_like()`. */
  function WithEventId(ev: map<string, Json>, gen: Fresh): map<string, Json>
  {
    ev["event_id" := EventIdOf(ev, gen)]
  }

  /** The `ts` the run row gets: the event's own when truthy, the current time otherwise. */
  function RunTs(ev: map<string, Json>, gen: Fresh): Json
  {
    Or(Get(ev, "ts"), JStr(gen.runIso + "Z"))
  }

  /** `upsert_run(con, event)`, including the rollback of the session insert when the run
      insert raises (nothing is committed, and the connection is closed unchanged). */
  function Upsert(t: Tables, ev: map<string, Json>, gen: Fresh, dumps: Json -> string): (r: Step)
  {
    var ev1 := WithEventId(ev, gen);
    var s := EnsureSessionSpec(t, ev1, gen);
    if s.outcome.Err? then s else InsertRunStep(t, s.tables, s.event, RunTs(ev1, gen), dumps)
  }

  /** The event dict after `upsert_run`, whether or not it raised: `event_id` and
      `session_id` are kept when truthy and filled in otherwise; no other key changes. */
  lemma UpsertFillsIds(t: Tables, ev: map<string, Json>, gen: Fresh, dumps: Json -> string)
    ensures var e := Upsert(t, ev, gen, dumps).event;
      && "event_id" in e && "session_id" in e
      && e["event_id"] == (if Truthy(Get(ev, "event_id")) then ev["event_id"] else JStr(gen.eventHex))
      && e["session_id"] == (if Truthy(Get(ev, "session_id")) then ev["session_id"] else JStr(SynthesizedSessionId(gen)))
      && (forall k :: k != "event_id" && k != "session_id" ==> (k in e <==> k in ev) && (k in ev ==> e[k] == ev[k]))
  {
    var ev1 := WithEventId(ev, gen);
    UpsertKeepsSessionEvent(t, ev, gen, dumps);
    FilledIds(ev, ev1, EnsureSessionSpec(t, ev1, gen).event, gen);
  }

  lemma UpsertKeepsSessionEvent(t: Tables, ev: map<string, Json>, gen: Fresh, dumps: Json -> string)
    ensures Upsert(t, ev, gen, dumps).event == EnsureSessionSpec(t, WithEventId(ev, gen), gen).event
  {
  }

  lemma FilledIds(ev: map<string, Json>, ev1: map<string, Json>, e: map<string, Json>, gen: Fresh)
    requires ev1 == ev["event_id" := EventIdOf(ev, gen)]
    requires e == if Truthy(Get(ev1, "session_id")) then ev1 else ev1["session_id" := JStr(SynthesizedSessionId(gen))]
    ensures && "event_id" in e && "session_id" in e
      && e["event_id"] == (if Truthy(Get(ev, "event_id")) then ev["event_id"] else JStr(gen.eventHex))
      && e["session_id"] == (if Truthy(Get(ev, "session_id")) then ev["session_id"] else JStr(SynthesizedSessionId(gen)))
      && (forall k :: k != "event_id" && k != "session_id" ==> (k in e <==> k in ev) && (k in ev ==> e[k] == ev[k]))
  {
    assert Get(ev1, "session_id") == Get(ev, "session_id");
  }

  /** An existing session row is never changed by a later event (INSERT OR IGNORE), and a
      successful upsert leaves its session row in place. */
  lemma UpsertKeepsSessions(t: Tables, ev: map<string, Json>, gen: Fresh, dumps: Json -> string)
    ensures var s := Upsert(t, ev, gen, dumps);
      forall k :: k in t.sessions ==> k in s.tables.sessions && s.tables.sessions[k] == t.sessions[k]
  {
    var ev1 := WithEventId(ev, gen);
    var s := EnsureSessionSpec(t, ev1, gen);
  }

  /** A failed upsert leaves both tables as they were. */
  lemma UpsertFailureChangesNothing(t: Tables, ev: map<string, Json>, gen: Fresh, dumps: Json -> string)
    requires Upsert(t, ev, gen, dumps).outcome.Err?
    ensures Upsert(t, ev, gen, dumps).tables == t
  {
  }

  /** A successful upsert (INSERT OR REPLACE) leaves exactly one row for the event's key,
      holding the new values and naming an existing session; the rows of every other key
      are unchanged; the schema's constraints still hold. */
  lemma UpsertReplacesRun(t: Tables, ev: map<string, Json>, gen: Fresh, dumps: Json -> string)
    requires Consistent(t)
    requires Upsert(t, ev, gen, dumps).outcome.Ok?
    ensures var s := Upsert(t, ev, gen, dumps);
      var key := s.outcome.value;
      && key == TextAffinity(Bind(EventIdOf(ev, gen)).value)
      && "event_id" in s.event && "session_id" in s.event
      && RunRow(s.event, RunTs(WithEventId(ev, gen), gen), dumps).Ok?
      && Keyed(s.tables.runs, key) == [RunRow(s.event, RunTs(WithEventId(ev, gen), gen), dumps).value]
      && Keyed(s.tables.runs, key)[0].sessionId in s.tables.sessions
      && Keyed(s.tables.runs, key)[0].sessionId == TextAffinity(Bind(s.event["session_id"]).value)
      && (forall k :: k != key ==> Keyed(s.tables.runs, k) == Keyed(t.runs, k))
      && Consistent(s.tables)
  {
    var ev1 := WithEventId(ev, gen);
    var s := EnsureSessionSpec(t, ev1, gen);
    var row := RunRow(s.event, RunTs(ev1, gen), dumps).value;
    assert row.sessionId == s.outcome.value;
    ReplaceLeavesOneRow(s.tables.runs, row);
    InsertRunKeepsConsistency(s.tables, row);
  }

  /** `upsert_run` keeps the schema's constraints, whether or not it raises. */
  lemma UpsertKeepsConsistency(t: Tables, ev: map<string, Json>, gen: Fresh, dumps: Json -> string)
    requires Consistent(t)
    ensures Consistent(Upsert(t, ev, gen, dumps).tables)
  {
    if Upsert(t, ev, gen, dumps).outcome.Ok? {
      UpsertReplacesRun(t, ev, gen, dumps);
    } else {
      UpsertFailureChangesNothing(t, ev, gen, dumps);
    }
  }

  /** Upserting the same event twice leaves the one row the second upsert wrote. */
  lemma UpsertTwiceKeepsOneRow(t: Tables, ev: map<string, Json>, gen: Fresh, gen2: Fresh, dumps: Json -> string)
    requires Consistent(t) && Truthy(Get(ev, "event_id"))
    requires Upsert(t, ev, gen, dumps).outcome.Ok?
    requires Upsert(Upsert(t, ev, gen, dumps).tables, ev, gen2, dumps).outcome.Ok?
    ensures var s1 := Upsert(t, ev, gen, dumps);
      var s2 := Upsert(s1.tables, ev, gen2, dumps);
      && s2.outcome == s1.outcome
      && "event_id" in s2.event && "session_id" in s2.event
      && RunRow(s2.event, RunTs(WithEventId(ev, gen2), gen2), dumps).Ok?
      && Keyed(s2.tables.runs, s2.outcome.value) == [RunRow(s2.event, RunTs(WithEventId(ev, gen2), gen2), dumps).value]
  {
    var s1 := Upsert(t, ev, gen, dumps);
    UpsertReplacesRun(t, ev, gen, dumps);
    UpsertReplacesRun(s1.tables, ev, gen2, dumps);
  }

  /** A Python dict passed by reference, as `event` is. */
  class EventDict {
    var fields: map<string, Json>

    constructor (fields: map<string, Json>)
      ensures this.fields == fields
    {
      this.fields := fields;
    }
  }

  /** `_ensure_session(con, event)` on the live database and event dict. */
  method EnsureSession(db: Database, event: EventDict, gen: Fresh) returns (r: Result<SqlValue>)
    requires db.Valid()
    modifies db, event
    ensures db.Valid()
    ensures Step(r, db.Contents(), event.fields) == EnsureSessionSpec(old(db.Contents()), old(event.fields), gen)
  {
    var sessionId := Get(event.fields, "session_id");
    if !Truthy(sessionId) {
      sessionId := JStr(SynthesizedSessionId(gen));
      event.fields := event.fields["session_id" := sessionId];
    }
    var tc := GetOr(event.fields, "task_context", EmptyObj);
    var startedAt := Or(Get(event.fields, "ts"), JStr(gen.sessionIso + "Z"));
    if !tc.JObj? {
      return Err("AttributeError: 'task_context' has no attribute 'get'");
    }
    var bound := BindAll([sessionId, startedAt, Get(tc.fields, "topic"), Get(tc.fields, "intent"), JNull]);
    if bound.Err? {
      return Err(bound.reason);
    }
    var vs := bound.value;
    BindAllBinds([sessionId, startedAt, Get(tc.fields, "topic"), Get(tc.fields, "intent"), JNull]);
    var row := SessionRow(TextAffinity(vs[0]), TextAffinity(vs[1]), TextAffinity(vs[2]), TextAffinity(vs[3]), TextAffinity(vs[4]));
    db.sessions := InsertOrIgnore(db.sessions, row);
    r := Ok(row.sessionId);
  }

  /** The `INSERT OR REPLACE INTO runs` statement of `upsert_run` for the event dict `ev`,
      once `_ensure_session` has inserted into `sessions`, which held `saved` before: when
      the statement raises, the connection closes without a commit and the session insert
      is lost with it. */
  method InsertRun(db: Database, ev: map<string, Json>, ts: Json, dumps: Json -> string, saved: map<SqlValue, SessionRow>) returns (r: Result<SqlValue>)
    requires db.Valid() && Consistent(Tables(saved, db.runs))
    requires "event_id" in ev && "session_id" in ev
    requires Bind(ev["session_id"]).Ok? && TextAffinity(Bind(ev["session_id"]).value) in db.sessions
    modifies db
    ensures db.Valid()
    ensures Step(r, db.Contents(), ev) == InsertRunStep(Tables(saved, old(db.runs)), old(db.Contents()), ev, ts, dumps)
  {
    var row := RunRow(ev, ts, dumps);
    if row.Err? {
      db.sessions := saved;
      return Err(row.reason);
    }
    InsertRunKeepsConsistency(db.Contents(), row.value);
    db.runs := InsertOrReplace(db.runs, row.value);
    r := Ok(row.value.eventId);
  }

  /** `upsert_run(con, event)` on the live database and event dict. */
  method UpsertRun(db: Database, event: EventDict, gen: Fresh, dumps: Json -> string) returns (r: Result<SqlValue>)
    requires db.Valid()
    modifies db, event
    ensures db.Valid()
    ensures Step(r, db.Contents(), event.fields) == Upsert(old(db.Contents()), old(event.fields), gen, dumps)
  {
    ghost var t0, ev0 := db.Contents(), event.fields;
    var eventId := Or(Get(event.fields, "event_id"), JStr(gen.eventHex));
    event.fields := event.fields["event_id" := eventId];
    var ts := Or(Get(event.fields, "ts"), JStr(gen.runIso + "Z"));
    assert event.fields == WithEventId(ev0, gen) && ts == RunTs(event.fields, gen);
    ghost var ev1 := event.fields;
    var saved := db.sessions;
    r := EnsureSession(db, event, gen);
    ghost var s := Step(r, db.Contents(), event.fields);
    assert s == EnsureSessionSpec(t0, ev1, gen);
    if r.Err? {
      assert Upsert(t0, ev0, gen, dumps) == s;
      return;
    }
    assert Upsert(t0, ev0, gen, dumps) == InsertRunStep(t0, s.tables, s.event, ts, dumps);
    r := InsertRun(db, event.fields, ts, dumps, saved);
  }

  /** The outside world `ingest_stream` relies on: `json.loads`, `json.dumps`, and the
      generated ids and clock readings of the upsert for line `i`. */
  datatype Env = Env(loads: string -> Option<Json>, dumps: Json -> string, gen: nat -> Fresh)

  datatype Ingested = Ingested(result: Result<nat>, tables: Tables)

  /** One iteration of the `ingest_stream` loop, for the line at index `i`: after an
      exception nothing more happens; a blank line is skipped; any other line is decoded
      and upserted, and counted when that succeeds. */
  function IngestLine(before: Ingested, line: string, i: nat, env: Env): Ingested
  {
    var text := Strip(line);
    if before.result.Err? || |text| == 0 then before
    else
      match env.loads(text)
      case None => Ingested(Err("JSONDecodeError"), before.tables)
      case Some(j) =>
        if !j.JObj? then Ingested(Err("AttributeError: event has no attribute 'get'"), before.tables)
        else
          Counted(before.result.value, Upsert(before.tables, j.fields, env.gen(i), env.dumps))
  }

  /** The loop state after an upsert step `s`: the exception, or one more event counted. */
  function Counted(count: nat, s: Step): Ingested
  {
    if s.outcome.Err? then Ingested(Err(s.outcome.reason), s.tables) else Ingested(Ok(count + 1), s.tables)
  }

  /** The loop iteration for a non-blank line that decodes to a dict. */
  lemma IngestLineUpserts(before: Ingested, line: string, i: nat, env: Env, fields: map<string, Json>)
    requires before.result.Ok? && |Strip(line)| > 0 && env.loads(Strip(line)) == Some(JObj(fields))
    ensures IngestLine(before, line, i, env) == Counted(before.result.value, Upsert(before.tables, fields, env.gen(i), env.dumps))
  {
  }

  /** `ingest_stream` over the first `|lines|` lines: blank lines are skipped, every other
      line is decoded and upserted in order, and the first exception ends the stream with
      the tables as the earlier, committed events left them. */
  function Ingest(t: Tables, lines: seq<string>, env: Env): Ingested
  {
    if |lines| == 0 then Ingested(Ok(0), t)
    else IngestLine(Ingest(t, lines[..|lines| - 1], env), lines[|lines| - 1], |lines| - 1, env)
  }

  /** The number of lines that are not entirely white space. */
  function CountNonBlank(lines: seq<string>): nat
  {
    if |lines| == 0 then 0
    else CountNonBlank(lines[..|lines| - 1]) + if |Strip(lines[|lines| - 1])| == 0 then 0 else 1
  }

  /** The count `ingest_stream` returns is the number of non-blank lines. */
  lemma {:induction false} IngestCountsNonBlankLines(t: Tables, lines: seq<string>, env: Env)
    requires Ingest(t, lines, env).result.Ok?
    ensures Ingest(t, lines, env).result.value == CountNonBlank(lines)
  {
    if |lines| > 0 {
      var front := lines[..|lines| - 1];
      var before := Ingest(t, front, env);
      IngestLineCounts(before, lines[|lines| - 1], |lines| - 1, env);
      IngestCountsNonBlankLines(t, front, env);
    }
  }

  /** A loop iteration that does not raise counts its line exactly when it is not blank. */
  lemma IngestLineCounts(before: Ingested, line: string, i: nat, env: Env)
    requires IngestLine(before, line, i, env).result.Ok?
    ensures before.result.Ok?
    ensures IngestLine(before, line, i, env).result.value == before.result.value + if |Strip(line)| == 0 then 0 else 1
  {
  }

  /** Once a line raises, the later lines are not read and the tables stay as they were. */
  lemma {:induction false} IngestStopsAtFailure(t: Tables, lines: seq<string>, i: nat, env: Env)
    requires i <= |lines| && Ingest(t, lines[..i], env).result.Err?
    ensures Ingest(t, lines, env) == Ingest(t, lines[..i], env)
    decreases |lines| - i
  {
    if i < |lines| {
      assert lines[..i + 1][..i] == lines[..i];
      IngestStopsAtFailure(t, lines, i + 1, env);
    } else {
      assert lines[..i] == lines;
    }
  }

  /** One loop iteration keeps the schema's constraints. */
  lemma IngestLineKeepsConsistency(before: Ingested, line: string, i: nat, env: Env)
    requires Consistent(before.tables)
    ensures Consistent(IngestLine(before, line, i, env).tables)
  {
    var text := Strip(line);
    if before.result.Ok? && |text| > 0 && env.loads(text).Some? && env.loads(text).value.JObj? {
      var ev := env.loads(text).value.fields;
      IngestLineUpserts(before, line, i, env, ev);
      if Upsert(before.tables, ev, env.gen(i), env.dumps).outcome.Ok? {
        UpsertReplacesRun(before.tables, ev, env.gen(i), env.dumps);
      } else {
        UpsertFailureChangesNothing(before.tables, ev, env.gen(i), env.dumps);
      }
    }
  }

  /** Ingesting keeps the schema's constraints. */
  lemma {:induction false} IngestKeepsConsistency(t: Tables, lines: seq<string>, env: Env)
    requires Consistent(t)
    ensures Consistent(Ingest(t, lines, env).tables)
  {
    if |lines| > 0 {
      IngestKeepsConsistency(t, lines[..|lines| - 1], env);
      IngestLineKeepsConsistency(Ingest(t, lines[..|lines| - 1], env), lines[|lines| - 1], |lines| - 1, env);
    }
  }

  /** `upsert_run(con, event)` for a freshly decoded event dict, counted when it succeeds. */
  method UpsertEvent(db: Database, fields: map<string, Json>, i: nat, env: Env, count: nat) returns (r: Result<nat>)
    requires db.Valid()
    modifies db
    ensures db.Valid()
    ensures Ingested(r, db.Contents()) == Counted(count, Upsert(old(db.Contents()), fields, env.gen(i), env.dumps))
  {
    var event := new EventDict(fields);
    var u := UpsertRun(db, event, env.gen(i), env.dumps);
    if u.Err? {
      return Err(u.reason);
    }
    r := Ok(count + 1);
  }

  /** One pass of the `ingest_stream` loop body over `line`, with `count` events counted so far. */
  method IngestOne(db: Database, line: string, i: nat, env: Env, count: nat) returns (r: Result<nat>)
    requires db.Valid()
    modifies db
    ensures db.Valid()
    ensures Ingested(r, db.Contents()) == IngestLine(Ingested(Ok(count), old(db.Contents())), line, i, env)
  {
    ghost var before := Ingested(Ok(count), db.Contents());
    var text := Strip(line);
    if |text| == 0 {
      return Ok(count);
    }
    var decoded := env.loads(text);
    if decoded.None? {
      return Err("JSONDecodeError");
    }
    if !decoded.value.JObj? {
      return Err("AttributeError: event has no attribute 'get'");
    }
    IngestLineUpserts(before, line, i, env, decoded.value.fields);
    r := UpsertEvent(db, decoded.value.fields, i, env, count);
  }

  /** `ingest_stream(db, logdir, stream)`, without the NDJSON copy to `logdir`. */
  method IngestStream(db: Database, lines: seq<string>, env: Env) returns (r: Result<nat>)
    requires db.Valid()
    modifies db
    ensures db.Valid()
    ensures Ingested(r, db.Contents()) == Ingest(old(db.Contents()), lines, env)
  {
    ghost var t0 := db.Contents();
    var count := 0;
    var i := 0;
    while i < |lines|
      invariant 0 <= i <= |lines| && db.Valid()
      invariant Ingest(t0, lines[..i], env) == Ingested(Ok(count), db.Contents())
    {
      assert lines[..i + 1][..i] == lines[..i];
      var step := IngestOne(db, lines[i], i, env, count);
      if step.Err? {
        r := step;
        IngestStopsAtFailure(t0, lines, i + 1, env);
        return;
      }
      count := step.value;
      i := i + 1;
    }
    assert lines[..|lines|] == lines;
    r := Ok(count);
  }
}
