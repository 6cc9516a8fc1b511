// The labeling service of multinav/muse_labeler.py: `POST /api/label`, which applies one
// labeling action to the `runs` row named by `event_id` through an UPDATE statement, and
// `GET /api/next`, which picks the oldest row still waiting for a label.
module Labeler {
  import opened Common
  import opened PyJson
  import opened Sql
  import opened RunStore

  /** The change one UPDATE statement makes to a matching row. */
  datatype Edit = Keep | Junk | ToggleHallucination | ToggleActionable | Score(s: real)

  /** `CASE WHEN COALESCE(v, 0) = 1 THEN 0 ELSE 1 END`. */
  function Toggle(v: SqlValue): SqlValue
  {
    var c := if v.SqlNull? then SqlInt(0) else v;
    if SqlEq(c, SqlInt(1)) then SqlInt(0) else SqlInt(1)
  }

  /** The SET clause of each statement, with the column's affinity applied to what it stores. */
  function Apply(e: Edit, r: Run): Run
  {
    match e
    case Keep => r.(labelKept := SqlInt(1), labelQuality := SqlText("good"))
    case Junk => r.(labelKept := SqlInt(0), labelQuality := SqlText("bad"))
    case ToggleHallucination => r.(labelHallucination := Toggle(r.labelHallucination))
    case ToggleActionable => r.(labelActionable := Toggle(r.labelActionable))
    case Score(s) => r.(scoreOverall := RealAffinity(SqlReal(s)))
  }

  /** `UPDATE runs SET … WHERE event_id = ?`: every row whose key compares equal changes. */
  function UpdateWhere(runs: seq<Run>, key: SqlValue, e: Edit): seq<Run>
  {
    seq(|runs|, i requires 0 <= i < |runs| => if SqlEq(runs[i].eventId, key) then Apply(e, runs[i]) else runs[i])
  }

  /** The value `WHERE event_id = ?` compares with: the bound parameter under the column's
      TEXT affinity. */
  function KeyOf(eventId: Json): Result<SqlValue>
  {
    match Bind(eventId)
    case Err(msg) => Err(msg)
    case Ok(v) => Ok(TextAffinity(v))
  }

  /** `float(score)`, with the `try`/bare `except` turning every failure into `None`. The
      parsing of a string is a parameter. */
  function ToFloat(score: Json, parse: string -> Option<real>): Option<real>
  {
    match score
    case JNull => None
    case JBool(b) => Some(if b then 1.0 else 0.0)
    case JInt(i) => Some(i as real)
    case JFloat(f) => Some(f)
    case JStr(s) => parse(s)
    case JArr(_) => None
    case JObj(_) => None
  }

  /** What the if/elif chain on `action` decides: one statement to run, nothing to run, or the
      unknown-action answer. */
  datatype Command = Update(e: Edit) | Nothing | Unknown

  function CommandFor(action: Json, score: Json, parse: string -> Option<real>): Command
  {
    if action == JStr("keep") then Update(Keep)
    else if action == JStr("junk") then Update(Junk)
    else if action == JStr("toggle_hallucination") then Update(ToggleHallucination)
    else if action == JStr("toggle_actionable") then Update(ToggleActionable)
    else if action == JStr("score") then
      match ToFloat(score, parse)
      case None => Nothing
      case Some(s) => Update(Score(s))
    else Unknown
  }

  /** The HTTP answer: `{"ok": true}`, a 400 with `{"ok": false, "err": …}`, or the 500 an
      uncaught exception becomes. */
  datatype Reply = Done | Rejected(err: string) | Raised(reason: string)

  function Status(r: Reply): nat
  {
    match r
    case Done => 200
    case Rejected(_) => 400
    case Raised(_) => 500
  }

  /** The answer to one request and the `runs` table after it. */
  datatype Labelled = Labelled(reply: Reply, runs: seq<Run>)

  const MissingFields: string := "missing event_id/action"
  const UnknownAction: string := "unknown action"

  /** `api_label` on the decoded request body `data`. A failing statement changes nothing
      and is never committed. */
  function Label(data: Json, parse: string -> Option<real>, runs: seq<Run>): Labelled
  {
    if !data.JObj? then Labelled(Raised("AttributeError: object has no attribute 'get'"), runs)
    else
      var eventId := Get(data.fields, "event_id");
      var action := Get(data.fields, "action");
      if !Truthy(eventId) || !Truthy(action) then Labelled(Rejected(MissingFields), runs)
      else
        match CommandFor(action, Get(data.fields, "score"), parse)
        case Unknown => Labelled(Rejected(UnknownAction), runs)
        case Nothing => Labelled(Done, runs)
        case Update(e) =>
          match KeyOf(eventId)
          case Err(msg) => Labelled(Raised(msg), runs)
          case Ok(key) => Labelled(Done, UpdateWhere(runs, key, e))
  }

  /** The request names a row and an action, as the 400 guard demands. */
  predicate Named(data: Json)
  {
    data.JObj? && Truthy(Get(data.fields, "event_id")) && Truthy(Get(data.fields, "action"))
  }

  /** A missing or falsy `event_id` or `action` is answered with the 400 error, and only then;
      the table is left as it was. */
  lemma MissingFieldsRejected(data: Json, parse: string -> Option<real>, runs: seq<Run>)
    ensures Label(data, parse, runs).reply == Rejected(MissingFields) <==> data.JObj? && !Named(data)
    ensures data.JObj? && !Named(data) ==> Label(data, parse, runs).runs == runs
  {
  }

  /** An action outside the five is answered with the other 400 error, and only then; the
      table is left as it was. */
  lemma UnknownActionRejected(data: Json, parse: string -> Option<real>, runs: seq<Run>)
    ensures Label(data, parse, runs).reply == Rejected(UnknownAction) <==>
      Named(data) && Get(data.fields, "action") !in
        {JStr("keep"), JStr("junk"), JStr("toggle_hallucination"), JStr("toggle_actionable"), JStr("score")}
    ensures Label(data, parse, runs).reply == Rejected(UnknownAction) ==> Label(data, parse, runs).runs == runs
  {
  }

  /** Only a successful answer can come with a changed table. */
  lemma OnlySuccessChanges(data: Json, parse: string -> Option<real>, runs: seq<Run>)
    ensures Label(data, parse, runs).reply != Done ==> Label(data, parse, runs).runs == runs
    ensures |Label(data, parse, runs).runs| == |runs|
  {
  }

  /** With a stored key in TEXT affinity and distinct keys, at most one row matches. */
  lemma {:induction false} OneRowMatches(runs: seq<Run>, key: SqlValue, i: nat, j: nat)
    requires UniqueKeys(runs) && forall k :: 0 <= k < |runs| ==> !runs[k].eventId.SqlInt?
    requires !key.SqlInt? && key != SqlNull
    requires i < |runs| && j < |runs| && SqlEq(runs[i].eventId, key) && SqlEq(runs[j].eventId, key)
    ensures i == j
  {
    KeyEqualityIsSqlEquality(key, runs[i].eventId);
    KeyEqualityIsSqlEquality(key, runs[j].eventId);
  }

  /** A statement that runs: every matching row is edited, every other row is left as it was. */
  lemma LabelUpdatesMatches(data: Json, parse: string -> Option<real>, runs: seq<Run>, e: Edit, key: SqlValue)
    requires Named(data)
    requires CommandFor(Get(data.fields, "action"), Get(data.fields, "score"), parse) == Update(e)
    requires KeyOf(Get(data.fields, "event_id")) == Ok(key)
    ensures Label(data, parse, runs).reply == Done
    ensures |Label(data, parse, runs).runs| == |runs|
    ensures forall i :: 0 <= i < |runs| ==>
      Label(data, parse, runs).runs[i] == if SqlEq(runs[i].eventId, key) then Apply(e, runs[i]) else runs[i]
  {
  }

  /** `keep` marks the row kept and good, `junk` unkept and bad; neither touches another column. */
  lemma KeepAndJunkSetLabels(r: Run)
    ensures Apply(Keep, r).labelKept == SqlInt(1) && Apply(Keep, r).labelQuality == SqlText("good")
    ensures Apply(Junk, r).labelKept == SqlInt(0) && Apply(Junk, r).labelQuality == SqlText("bad")
    ensures Apply(Keep, r).(labelKept := r.labelKept, labelQuality := r.labelQuality) == r
    ensures Apply(Junk, r).(labelKept := r.labelKept, labelQuality := r.labelQuality) == r
  {
  }

  /** A toggle maps NULL and 0 to 1 and 1 to 0, always stores 0 or 1, and changes only its
      own column. */
  lemma TogglesFlip(r: Run)
    ensures Toggle(SqlNull) == SqlInt(1) && Toggle(SqlInt(0)) == SqlInt(1) && Toggle(SqlInt(1)) == SqlInt(0)
    ensures Toggle(r.labelHallucination) in {SqlInt(0), SqlInt(1)}
    ensures Apply(ToggleHallucination, r).labelHallucination == Toggle(r.labelHallucination)
    ensures Apply(ToggleHallucination, r).(labelHallucination := r.labelHallucination) == r
    ensures Apply(ToggleActionable, r).labelActionable == Toggle(r.labelActionable)
    ensures Apply(ToggleActionable, r).(labelActionable := r.labelActionable) == r
  {
  }

  /** A parsed score is stored in `score_overall` and nothing else changes. */
  lemma ScoreSetsOverall(r: Run, s: real)
    ensures Apply(Score(s), r).scoreOverall == SqlReal(s)
    ensures Apply(Score(s), r).(scoreOverall := r.scoreOverall) == r
  {
  }

  /** `score` with a value `float` cannot convert still answers ok and changes nothing. */
  lemma UnparsedScoreChangesNothing(data: Json, parse: string -> Option<real>, runs: seq<Run>)
    requires Named(data) && Get(data.fields, "action") == JStr("score")
    requires ToFloat(Get(data.fields, "score"), parse).None?
    ensures Label(data, parse, runs) == Labelled(Done, runs)
  {
  }

  /** No edit changes a row's key, session or timestamp. */
  lemma ApplyKeepsIdentity(e: Edit, r: Run)
    ensures Apply(e, r).eventId == r.eventId && Apply(e, r).sessionId == r.sessionId && Apply(e, r).ts == r.ts
  {
  }

  /** Labeling keeps the schema's constraints: keys and session references are untouched. */
  lemma LabelKeepsConsistency(data: Json, parse: string -> Option<real>, t: Tables)
    requires Consistent(t)
    ensures Consistent(Tables(t.sessions, Label(data, parse, t.runs).runs))
  {
    if Named(data) {
      var c := CommandFor(Get(data.fields, "action"), Get(data.fields, "score"), parse);
      var k := KeyOf(Get(data.fields, "event_id"));
      if c.Update? && k.Ok? {
        UpdateKeepsConsistency(t, k.value, c.e);
      }
    }
  }

  /** Repeating `keep` or `junk` with the same request changes nothing more. */
  lemma {:induction false} KeepAndJunkIdempotent(data: Json, parse: string -> Option<real>, runs: seq<Run>)
    requires Named(data) && Get(data.fields, "action") in {JStr("keep"), JStr("junk")}
    ensures Label(data, parse, Label(data, parse, runs).runs) == Label(data, parse, runs)
  {
    var once := Label(data, parse, runs);
    var twice := Label(data, parse, once.runs);
    if KeyOf(Get(data.fields, "event_id")).Ok? {
      var key := KeyOf(Get(data.fields, "event_id")).value;
      var e := if Get(data.fields, "action") == JStr("keep") then Keep else Junk;
      assert once.runs == UpdateWhere(runs, key, e);
      assert twice.runs == UpdateWhere(once.runs, key, e);
      assert |twice.runs| == |once.runs|;
      forall i | 0 <= i < |once.runs| ensures twice.runs[i] == once.runs[i] {
        ApplyKeepsIdentity(e, runs[i]);
      }
    }
  }

  /** Toggling twice restores a flag that held 0 or 1 on every matching row. */
  lemma {:induction false} ToggleTwiceRestores(data: Json, parse: string -> Option<real>, runs: seq<Run>, key: SqlValue)
    requires Named(data) && Get(data.fields, "action") in {JStr("toggle_hallucination"), JStr("toggle_actionable")}
    requires KeyOf(Get(data.fields, "event_id")) == Ok(key)
    requires forall i :: 0 <= i < |runs| && SqlEq(runs[i].eventId, key) ==>
      runs[i].labelHallucination in {SqlInt(0), SqlInt(1)} && runs[i].labelActionable in {SqlInt(0), SqlInt(1)}
    ensures Label(data, parse, Label(data, parse, runs).runs).runs == runs
  {
    var e := if Get(data.fields, "action") == JStr("toggle_hallucination") then ToggleHallucination else ToggleActionable;
    var once := Label(data, parse, runs).runs;
    var twice := Label(data, parse, once).runs;
    assert once == UpdateWhere(runs, key, e);
    assert twice == UpdateWhere(once, key, e);
    assert |twice| == |runs|;
    forall i | 0 <= i < |runs| ensures twice[i] == runs[i] {
      ApplyKeepsIdentity(e, runs[i]);
    }
  }

  /** A row `api_next` may offer: no quality label yet, and not kept. */
  predicate Eligible(r: Run)
  {
    r.labelQuality == SqlNull && (r.labelKept == SqlNull || SqlEq(r.labelKept, SqlInt(0)))
  }

  /** `WHERE … ORDER BY ts ASC LIMIT 1`: the index of the first eligible row (in table order)
      among those with the smallest `ts`. */
  function Oldest(runs: seq<Run>): Option<nat>
  {
    if |runs| == 0 then None
    else
      var last := |runs| - 1;
      var front := Oldest(runs[..last]);
      if !Eligible(runs[last]) then front
      else if front.Some? && front.value < last && SqlLe(runs[front.value].ts, runs[last].ts) then front
      else Some(last)
  }

  /** `Oldest` finds an eligible row exactly when there is one; its `ts` is no larger than that
      of any eligible row, and strictly smaller than that of every eligible row before it. */
  lemma {:induction false} OldestIsFirstMinimum(runs: seq<Run>)
    ensures Oldest(runs).None? <==> forall i :: 0 <= i < |runs| ==> !Eligible(runs[i])
    ensures Oldest(runs).Some? ==> Oldest(runs).value < |runs| && Eligible(runs[Oldest(runs).value])
    ensures Oldest(runs).Some? ==> forall j :: 0 <= j < |runs| && Eligible(runs[j]) ==> SqlLe(runs[Oldest(runs).value].ts, runs[j].ts)
    ensures Oldest(runs).Some? ==> forall j :: 0 <= j < Oldest(runs).value && Eligible(runs[j]) ==> !SqlLe(runs[j].ts, runs[Oldest(runs).value].ts)
  {
    if |runs| > 0 {
      var last := |runs| - 1;
      var front := runs[..last];
      OldestIsFirstMinimum(front);
      assert forall i :: 0 <= i < last ==> runs[i] == front[i];
      var p := Oldest(front);
      if Eligible(runs[last]) && !(p.Some? && SqlLe(runs[p.value].ts, runs[last].ts)) {
        if p.Some? {
          SqlLeTotal(runs[p.value].ts, runs[last].ts);
          forall j | 0 <= j < |runs| && Eligible(runs[j]) ensures SqlLe(runs[last].ts, runs[j].ts) {
            if j < last {
              SqlLeTransitive(runs[last].ts, runs[p.value].ts, runs[j].ts);
            } else {
              SqlLeTotal(runs[last].ts, runs[last].ts);
            }
          }
          forall j | 0 <= j < last && Eligible(runs[j]) ensures !SqlLe(runs[j].ts, runs[last].ts) {
            if SqlLe(runs[j].ts, runs[last].ts) {
              SqlLeTransitive(runs[p.value].ts, runs[j].ts, runs[last].ts);
            }
          }
        } else {
          SqlLeTotal(runs[last].ts, runs[last].ts);
        }
      } else if Eligible(runs[last]) {
        SqlLeTotal(runs[p.value].ts, runs[last].ts);
      }
    }
  }

  /** The columns `api_next` selects, by name, as `dict(row)` returns them. */
  function View(r: Run): (m: map<string, SqlValue>)
    ensures "event_id" in m && "ts" in m && m["event_id"] == r.eventId && m["ts"] == r.ts
  {
    map[
      "event_id" := r.eventId, "ts" := r.ts, "provider" := r.provider, "model_name" := r.modelName,
      "latency_ms" := r.latencyMs, "input_text" := r.inputText, "resp_text" := r.respText,
      "label_quality" := r.labelQuality, "label_kept" := r.labelKept, "score_overall" := r.scoreOverall]
  }

  /** `api_next`: the selected columns of the oldest eligible row, or `{}` when none is left. */
  function ApiNext(runs: seq<Run>): (r: map<string, SqlValue>)
    ensures r == map[] <==> forall i :: 0 <= i < |runs| ==> !Eligible(runs[i])
    ensures r != map[] ==> Oldest(runs).Some? && Oldest(runs).value < |runs| && r == View(runs[Oldest(runs).value])
  {
    OldestIsFirstMinimum(runs);
    match Oldest(runs)
    case None => map[]
    case Some(i) => View(runs[i])
  }

  /** After `keep` or `junk` the labeled row is no longer eligible, so `api_next` moves past it. */
  lemma {:induction false} LabeledRowLeavesQueue(data: Json, parse: string -> Option<real>, runs: seq<Run>, key: SqlValue)
    requires Named(data) && Get(data.fields, "action") in {JStr("keep"), JStr("junk")}
    requires KeyOf(Get(data.fields, "event_id")) == Ok(key)
    ensures forall i :: 0 <= i < |runs| && SqlEq(runs[i].eventId, key) ==> !Eligible(Label(data, parse, runs).runs[i])
    ensures ApiNext(Label(data, parse, runs).runs) != map[] ==> !SqlEq(ApiNext(Label(data, parse, runs).runs)["event_id"], key)
  {
    var e := if Get(data.fields, "action") == JStr("keep") then Keep else Junk;
    var after := Label(data, parse, runs).runs;
    assert after == UpdateWhere(runs, key, e);
    forall i | 0 <= i < |runs| && SqlEq(runs[i].eventId, key) ensures !Eligible(after[i]) {
      assert after[i] == Apply(e, runs[i]);
    }
    if ApiNext(after) != map[] {
      var n := Oldest(after).value;
      OldestIsFirstMinimum(after);
      ApplyKeepsIdentity(e, runs[n]);
      assert ApiNext(after)["event_id"] == after[n].eventId;
    }
  }

  /** `api_label` against the database: the if/elif chain of the handler, one UPDATE when the
      action calls for one, then the commit. */
  method ApiLabel(db: Database, data: Json, parse: string -> Option<real>) returns (reply: Reply)
    requires db.Valid()
    modifies db
    ensures db.Valid() && db.sessions == old(db.sessions)
    ensures Labelled(reply, db.runs) == Label(data, parse, old(db.runs))
  {
    if !data.JObj? {
      return Raised("AttributeError: object has no attribute 'get'");
    }
    var eventId := Get(data.fields, "event_id");
    var action := Get(data.fields, "action");
    var score := Get(data.fields, "score");
    if !Truthy(eventId) || !Truthy(action) {
      return Rejected(MissingFields);
    }
    if action == JStr("keep") {
      reply := Execute(db, eventId, Keep);
    } else if action == JStr("junk") {
      reply := Execute(db, eventId, Junk);
    } else if action == JStr("toggle_hallucination") {
      reply := Execute(db, eventId, ToggleHallucination);
    } else if action == JStr("toggle_actionable") {
      reply := Execute(db, eventId, ToggleActionable);
    } else if action == JStr("score") {
      var s := ToFloat(score, parse);
      if s.Some? {
        reply := Execute(db, eventId, Score(s.value));
      } else {
        reply := Done;
      }
    } else {
      return Rejected(UnknownAction);
    }
  }

  /** One `UPDATE … WHERE event_id = ?` with `eventId` bound: a parameter that cannot be bound
      raises before any row changes. */
  method Execute(db: Database, eventId: Json, e: Edit) returns (reply: Reply)
    requires db.Valid()
    modifies db
    ensures db.Valid() && db.sessions == old(db.sessions)
    ensures KeyOf(eventId).Err? ==> reply == Raised(KeyOf(eventId).reason) && db.runs == old(db.runs)
    ensures KeyOf(eventId).Ok? ==> reply == Done && db.runs == UpdateWhere(old(db.runs), KeyOf(eventId).value, e)
  {
    var key := KeyOf(eventId);
    if key.Err? {
      return Raised(key.reason);
    }
    UpdateKeepsConsistency(db.Contents(), key.value, e);
    db.runs := UpdateWhere(db.runs, key.value, e);
    reply := Done;
  }

  /** An UPDATE keeps every row's key and session, and so the schema's constraints. */
  lemma UpdateKeepsIdentity(runs: seq<Run>, key: SqlValue, e: Edit)
    ensures |UpdateWhere(runs, key, e)| == |runs|
    ensures forall i :: 0 <= i < |runs| ==>
      UpdateWhere(runs, key, e)[i].eventId == runs[i].eventId && UpdateWhere(runs, key, e)[i].sessionId == runs[i].sessionId
  {
    forall i | 0 <= i < |runs|
      ensures UpdateWhere(runs, key, e)[i].eventId == runs[i].eventId && UpdateWhere(runs, key, e)[i].sessionId == runs[i].sessionId
    {
      ApplyKeepsIdentity(e, runs[i]);
    }
  }

  lemma UpdateKeepsConsistency(t: Tables, key: SqlValue, e: Edit)
    requires Consistent(t)
    ensures Consistent(Tables(t.sessions, UpdateWhere(t.runs, key, e)))
  {
    UpdateKeepsIdentity(t.runs, key, e);
  }
}
