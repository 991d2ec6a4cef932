/**
 `EmbeddedDatabase`: the object that ties the catalog, the write-ahead log and the
 changefeed together, and what holds over every run of one open session.
 */
module Engine {
  import opened Text
  import opened Flatten
  import opened Native
  import opened Snapshot
  import opened NativeEngine
  import opened Wal
  import opened EventTable
  import opened Pipeline
  import C = Changefeed

  // ---------------------------------------------------------------- one session, as a value

  /** A character stands for one byte of a `std::string`. */
  function TextBytes(s: string): (b: Bytes)
    ensures |b| == |s|
  {
    seq(|s|, i requires 0 <= i < |s| => s[i] as int % 256)
  }

  /** The catalog, its file, the log records of this session and `status_.wal_lsn`. */
  datatype State = State(tables: Tables, file: Option<string>, log: seq<Record>, lsn: nat)

  /** `fileOpens` is whether the snapshot could be written during the call. */
  datatype Request = Request(sql: string, params: seq<string>, fileOpens: bool)

  datatype Stepped = Stepped(state: State, result: ExecResult, events: seq<C.Event>)

  const OPENING: Bytes := [0, 0, 0, 0, 0, 0, 0, 0]

  /** `open`: load the snapshot and log a no-op. */
  function Opened(file: Option<string>): State {
    State(Load(file), file, [Record(Noop, 1, OPENING)], 1)
  }

  function NextLsn(log: seq<Record>): nat {
    (|log| + 1) % LIMIT_64
  }

  /** `exec_parameterized` on an open database. */
  function ExecStep(s: State, r: Request): Stepped {
    var flat := FlattenEngine(r.sql);
    var o := Exec(s.tables, flat, r.params, r.fileOpens);
    var file := if r.fileOpens then FileAfter(s.file, s.tables, flat, r.params) else s.file;
    if o.result.affected == 0 then Stepped(State(o.tables, file, s.log, s.lsn), o.result, [])
    else
      var n, table := NextLsn(s.log), ExtractInsertTable(flat);
      Stepped(State(o.tables, file, s.log + [Record(HeapInsert, n, HeapInsertPayload(TextBytes(table), []))], n),
              o.result, [C.Event(n, table, C.Op.Insert, [])])
  }

  /** Everything a session has done: its state, its results and the events it published. */
  datatype Session = Session(state: State, results: seq<ExecResult>, events: seq<C.Event>)

  function Run(file: Option<string>, rs: seq<Request>): Session {
    if rs == [] then Session(Opened(file), [], [])
    else
      var before := Run(file, rs[..|rs| - 1]);
      var step := ExecStep(before.state, rs[|rs| - 1]);
      Session(step.state, before.results + [step.result], before.events + step.events)
  }

  function Affected(results: seq<ExecResult>): nat {
    if results == [] then 0 else Affected(results[..|results| - 1]) + results[|results| - 1].affected
  }

  /** Record `i` and event `i - 1` belong together. */
  predicate Paired(log: seq<Record>, events: seq<C.Event>, i: nat)
    requires 1 <= i < |log| && |log| == |events| + 1
  {
    var e := events[i - 1];
    && e.op.Insert? && e.payload == [] && e.lsn == log[i].lsn
    && log[i].kind == HeapInsert && log[i].payload == HeapInsertPayload(TextBytes(e.table), [])
  }

  predicate Consistent(s: Session) {
    var log, events := s.state.log, s.events;
    && |events| == Affected(s.results)
    && |log| == |events| + 1
    && log[0] == Record(Noop, 1, OPENING)
    && (forall i :: 0 <= i < |log| ==> log[i].lsn == (i + 1) % LIMIT_64)
    && (forall i :: 1 <= i < |log| ==> Paired(log, events, i))
    && s.state.lsn == log[|log| - 1].lsn
  }

  /** A statement that reported a row: its flattened text and its parameters. */
  datatype Sent = Sent(flat: string, params: seq<string>)

  /** The reported inserts of a run, in order. */
  function Reported(file: Option<string>, rs: seq<Request>): seq<Sent> {
    if rs == [] then []
    else
      var before, r := rs[..|rs| - 1], rs[|rs| - 1];
      Reported(file, before) +
      if ExecStep(Run(file, before).state, r).result.affected == 1 then [Sent(FlattenEngine(r.sql), r.params)] else []
  }

  /** The event of a reported insert: an insert that the catalog stored a row for, and the table cut from its own text. */
  predicate EventOf(e: C.Event, s: Sent) {
    InsertedRow(s.flat, s.params).Some? && e.table == ExtractInsertTable(s.flat)
  }

  predicate EventsOf(events: seq<C.Event>, sent: seq<Sent>) {
    |events| == |sent| && forall k :: 0 <= k < |events| ==> EventOf(events[k], sent[k])
  }

  /** No statement reports more than one affected row. */
  lemma AffectedIsZeroOrOne(tables: Tables, sql: string, params: seq<string>, fileOpens: bool)
    ensures Exec(tables, sql, params, fileOpens).result.affected <= 1
  {
    hide InsertedRow, Native.ExecSelect, TrimSql, Lower, StartsWith;
    var q := TrimSql(sql);
    TrimSqlOfTrimmed(q);
    if StartsWith(Lower(q), "select") {
      SelectOnlyTouches(tables, q, params);
    }
  }

  lemma StepKeepsConsistent(s: Session, r: Request)
    requires Consistent(s)
    ensures var step := ExecStep(s.state, r);
            Consistent(Session(step.state, s.results + [step.result], s.events + step.events))
  {
    hide Exec, FlattenEngine, FileAfter, ExtractInsertTable, HeapInsertPayload, TextBytes, ExecStep, Affected;
    var step := ExecStep(s.state, r);
    AffectedIsZeroOrOne(s.state.tables, FlattenEngine(r.sql), r.params, r.fileOpens);
    StepCases(s.state, r);
    AffectedOneMore(s.results, step.result);
    if step.result.affected == 0 {
      assert s.events + [] == s.events;
    } else {
      var table := step.events[0].table;
      LogOneMore(s, Record(HeapInsert, step.state.lsn, HeapInsertPayload(TextBytes(table), [])), step.events[0]);
    }
  }

  lemma AffectedOneMore(results: seq<ExecResult>, r: ExecResult)
    ensures Affected(results + [r]) == Affected(results) + r.affected
  {
    assert (results + [r])[..|results|] == results;
  }

  /** One more record with its event. */
  lemma LogOneMore(s: Session, r: Record, e: C.Event)
    requires Consistent(s) && r.lsn == e.lsn == NextLsn(s.state.log)
    requires e.op.Insert? && e.payload == [] && r.kind == HeapInsert && r.payload == HeapInsertPayload(TextBytes(e.table), [])
    ensures
      var log, events := s.state.log + [r], s.events + [e];
      && |log| == |events| + 1 && log[0] == Record(Noop, 1, OPENING)
      && (forall i :: 0 <= i < |log| ==> log[i].lsn == (i + 1) % LIMIT_64)
      && (forall i :: 1 <= i < |log| ==> Paired(log, events, i))
  {
    hide HeapInsertPayload, TextBytes, Affected;
    var log, events := s.state.log + [r], s.events + [e];
    forall i | 1 <= i < |log|
      ensures Paired(log, events, i)
    {
      if i < |s.state.log| {
        assert Paired(s.state.log, s.events, i);
        assert events[i - 1] == s.events[i - 1] && log[i] == s.state.log[i];
      }
    }
  }

  /** What a step that reports a row sent, and the event it published. */
  lemma StepReports(s: State, r: Request)
    ensures
      var step := ExecStep(s, r);
      if step.result.affected == 1 then |step.events| == 1 && EventOf(step.events[0], Sent(FlattenEngine(r.sql), r.params))
      else step.events == []
  {
    hide FlattenEngine, FileAfter, ExtractInsertTable, HeapInsertPayload, TextBytes, ExecStep, Exec, InsertedRow;
    StepCases(s, r);
    AffectedIsZeroOrOne(s.tables, FlattenEngine(r.sql), r.params, r.fileOpens);
    if Exec(s.tables, FlattenEngine(r.sql), r.params, r.fileOpens).result.affected == 1 {
      OnlyInsertsReport(s.tables, FlattenEngine(r.sql), r.params, r.fileOpens);
    }
  }

  /** A reported row was stored, in the table that the catalog cut from the text. */
  lemma OnlyInsertsReport(tables: Tables, sql: string, params: seq<string>, fileOpens: bool)
    requires Exec(tables, sql, params, fileOpens).result.affected == 1
    ensures InsertedRow(sql, params).Some?
    ensures Exec(tables, sql, params, fileOpens).tables ==
            Append(tables, InsertedRow(sql, params).value.0, InsertedRow(sql, params).value.1)
  {
    hide ParseInsert, BindRow, Native.ExecSelect, TrimSql, Lower, StartsWith, Append;
    var q := TrimSql(sql);
    TrimSqlOfTrimmed(q);
    if StartsWith(Lower(q), "select") {
      SelectOnlyTouches(tables, q, params);
    }
  }

  lemma EventsOneMore(events: seq<C.Event>, more: seq<C.Event>, sent: seq<Sent>, x: Sent)
    requires EventsOf(events, sent) && |more| == 1 && EventOf(more[0], x)
    ensures EventsOf(events + more, sent + [x])
  {
    hide EventOf;
  }

  /**
   The invariant of every run in one open session: the log is one no-op and then one
   heap insert for each insert that reported a row, numbered 1, 2, 3 and so on; event k
   carries the number of record k + 1 and the table cut from the text of the k-th
   reported insert, which the catalog stored a row for; `wal_lsn` is the last number;
   nothing else leaves a trace.
   */
  lemma {:induction false} EveryRunIsConsistent(file: Option<string>, rs: seq<Request>)
    ensures Consistent(Run(file, rs)) && EventsOf(Run(file, rs).events, Reported(file, rs))
  {
    hide ExecStep, Consistent, EventOf;
    if rs == [] {
      EmptyRunIsConsistent(file);
    } else {
      var before, r := Run(file, rs[..|rs| - 1]), rs[|rs| - 1];
      EveryRunIsConsistent(file, rs[..|rs| - 1]);
      StepKeepsConsistent(before, r);
      StepReports(before.state, r);
      var step := ExecStep(before.state, r);
      if step.result.affected == 1 {
        EventsOneMore(before.events, step.events, Reported(file, rs[..|rs| - 1]), Sent(FlattenEngine(r.sql), r.params));
      } else {
        assert before.events + [] == before.events;
      }
    }
  }

  lemma EmptyRunIsConsistent(file: Option<string>)
    ensures Consistent(Session(Opened(file), [], []))
  {
    assert Affected([]) == 0;
  }

  /**
   So in every run the k-th event names the table that the catalog wrote the k-th
   reported row to, wherever that statement's text has its keywords plainly in one case.
   */
  lemma EventsNameWrittenTables(file: Option<string>, rs: seq<Request>, k: nat)
    requires k < |Reported(file, rs)| && PlainInsert(Reported(file, rs)[k].flat)
    ensures
      var sent := Reported(file, rs)[k];
      && |Run(file, rs).events| == |Reported(file, rs)| && InsertedRow(sent.flat, sent.params).Some?
      && Run(file, rs).events[k].table == InsertedRow(sent.flat, sent.params).value.0
  {
    hide Run, Reported, ExtractInsertTable, InsertedRow, PlainInsert, Consistent;
    EveryRunIsConsistent(file, rs);
    var sent := Reported(file, rs)[k];
    assert EventOf(Run(file, rs).events[k], sent);
    PlainInsertIsNamed(sent.flat, sent.params);
  }

  /** Below 2^64 records the numbers are exactly 1 to n and events are strictly increasing. */
  lemma NumbersCountUp(file: Option<string>, rs: seq<Request>)
    requires |Run(file, rs).state.log| < LIMIT_64
    ensures var s := Run(file, rs);
            && (forall i :: 0 <= i < |s.state.log| ==> s.state.log[i].lsn == i + 1)
            && s.state.lsn == |s.state.log|
            && C.LsnsIncrease(s.events)
  {
    hide Run, Reported, EventsOf;
    EveryRunIsConsistent(file, rs);
    var s := Run(file, rs);
    forall i | 0 <= i < |s.events|
      ensures s.events[i].lsn == i + 2
    {
      assert Paired(s.state.log, s.events, i + 1);
    }
  }

  /** The log of a session decodes: what the reader of the segment gets back is the session's records. */
  lemma SegmentHoldsTheRun(file: Option<string>, rs: seq<Request>, base: Bytes, pads: seq<Padding>)
    requires Whole(base) && AllStorable(Run(file, rs).state.log) && |pads| == |Run(file, rs).state.log|
    ensures Records(base + Segment(Run(file, rs).state.log, pads)) == Records(base) + Run(file, rs).state.log
  {
    hide Run, Segment, Records, Leftover;
    var log := Run(file, rs).state.log;
    ReadConcat(base, Segment(log, pads));
    SegmentIsRead(log, pads, []);
    assert Segment(log, pads) + [] == Segment(log, pads);
    NoRecords();
    assert log + [] == log;
  }

  lemma NoRecords()
    ensures Records([]) == [] && Leftover([]) == []
  {
  }

  // ---------------------------------------------------------------- the snapshot against memory

  /** An insert stored its row but could not write the file, and none has written it since. */
  predicate Unsaved(file: Option<string>, rs: seq<Request>) {
    if rs == [] then false
    else
      var before, r := Run(file, rs[..|rs| - 1]).state, rs[|rs| - 1];
      if Stores(before.tables, r) then !r.fileOpens else Unsaved(file, rs[..|rs| - 1])
  }

  /** The request is an insert that gets as far as a row. */
  predicate Stores(tables: Tables, r: Request) {
    Exec(tables, FlattenEngine(r.sql), r.params, true).result.affected == 1
  }

  lemma {:induction false} DurableSoFar(before: Tables, after: Tables)
    requires Durable(after) && Behind(before, after) && before.Keys <= after.Keys
    ensures Durable(before)
  {
    forall t | t in before
      ensures '\n' !in t && (t == "" ==> before[t] == []) && DurableRows(before[t])
    {
      assert t in after && RowsOf(before, t) <= RowsOf(after, t);
      assert forall i :: 0 <= i < |before[t]| ==> before[t][i] == after[t][i];
    }
  }

  lemma StepGrows(s: State, r: Request)
    ensures var after := ExecStep(s, r).state;
            && Behind(s.tables, after.tables) && s.tables.Keys <= after.tables.Keys
            && after.tables == Exec(s.tables, FlattenEngine(r.sql), r.params, r.fileOpens).tables
            && after.file == if r.fileOpens then FileAfter(s.file, s.tables, FlattenEngine(r.sql), r.params) else s.file
  {
    hide FlattenEngine, FileAfter, ExtractInsertTable, HeapInsertPayload, InsertedRow, Native.ExecSelect, TrimSql, Lower, StartsWith;
    var sql := FlattenEngine(r.sql);
    var q := TrimSql(sql);
    TrimSqlOfTrimmed(q);
    if StartsWith(Lower(q), "select") {
      SelectOnlyTouches(s.tables, q, r.params);
    }
  }

  /** Whether the file opens does not change what is stored, only what is reported. */
  lemma StoringIgnoresFile(tables: Tables, r: Request)
    ensures
      var o := Exec(tables, FlattenEngine(r.sql), r.params, r.fileOpens);
      && o.tables == Exec(tables, FlattenEngine(r.sql), r.params, true).tables
      && o.result.affected == (if Stores(tables, r) && r.fileOpens then 1 else 0)
      && if Stores(tables, r) then exists t, row :: o.tables == Append(tables, t, row) else SameRows(o.tables, tables)
  {
    hide FlattenEngine, InsertedRow, Native.ExecSelect, TrimSql, Lower, StartsWith;
    var sql := FlattenEngine(r.sql);
    var q := TrimSql(sql);
    TrimSqlOfTrimmed(q);
    ExecChangesAtMostOneTable(tables, sql, r.params);
    if StartsWith(Lower(q), "select") {
      SelectOnlyTouches(tables, q, r.params);
    }
  }

  /** The rows the snapshot would give back are those in memory, or some are still to be saved. */
  ghost predicate FileTracks(file: Option<string>, tables: Tables, unsaved: bool) {
    Behind(Load(file), tables) && (SameRows(Load(file), tables) <==> !unsaved)
  }

  lemma StepKeepsTrack(s: State, r: Request, unsaved: bool)
    requires FileTracks(s.file, s.tables, unsaved) && Durable(ExecStep(s, r).state.tables)
    ensures var after := ExecStep(s, r).state;
            FileTracks(after.file, after.tables, if Stores(s.tables, r) then !r.fileOpens else unsaved)
  {
    hide ExecStep, Exec, FlattenEngine, Load, Save, Durable, Stores;
    StepGrows(s, r);
    StoringIgnoresFile(s.tables, r);
    var after := ExecStep(s, r).state;
    if Stores(s.tables, r) {
      var t, row :| after.tables == Append(s.tables, t, row);
      if r.fileOpens {
        SavedFile(s, r);
        assert SameRows(Load(after.file), after.tables) && Behind(Load(after.file), after.tables);
      } else {
        assert |RowsOf(after.tables, t)| == |RowsOf(s.tables, t)| + 1;
        assert RowsOf(Load(s.file), t) <= RowsOf(s.tables, t);
        assert !SameRows(Load(after.file), after.tables);
        BehindTransitive(Load(s.file), s.tables, after.tables);
      }
    } else {
    }
  }

  lemma SavedFile(s: State, r: Request)
    requires Stores(s.tables, r) && r.fileOpens && Durable(ExecStep(s, r).state.tables)
    ensures Load(ExecStep(s, r).state.file) == ExecStep(s, r).state.tables
  {
    hide Exec, FlattenEngine, Save, Durable, ExecStep, Replay;
    StepGrows(s, r);
    SnapshotRoundTrip(ExecStep(s, r).state.tables);
  }

  lemma {:induction false} RunTracks(file: Option<string>, rs: seq<Request>)
    requires Durable(Run(file, rs).state.tables)
    ensures var s := Run(file, rs).state; FileTracks(s.file, s.tables, Unsaved(file, rs))
    decreases |rs|
  {
    hide ExecStep, Stores, Durable, Load;
    if rs != [] {
      var before, r := rs[..|rs| - 1], rs[|rs| - 1];
      var s := Run(file, before).state;
      StepGrows(s, r);
      DurableSoFar(s.tables, ExecStep(s, r).state.tables);
      RunTracks(file, before);
      StepKeepsTrack(s, r, Unsaved(file, before));
    }
  }

  /**
   Closing and opening again: over any run whose tables are durable, the reopened
   catalog holds exactly the rows that were in memory if and only if no insert is
   left whose row was stored while the snapshot could not be written.
   */
  lemma ReopenRestoresRows(file: Option<string>, rs: seq<Request>)
    requires Durable(Run(file, rs).state.tables)
    ensures SameRows(Opened(Run(file, rs).state.file).tables, Run(file, rs).state.tables) <==> !Unsaved(file, rs)
  {
    hide Run, Unsaved, Load;
    RunTracks(file, rs);
  }

  /** One insert while the snapshot cannot be written: the row is in memory, and gone after closing and opening. */
  lemma UnwrittenRowIsLost()
    ensures
      var rs := [Request("INSERT INTO " + "t (a) VALUES (?)", ["1"], false)];
      && RowsOf(Run(None, rs).state.tables, "t") == [map["a" := "1"]]
      && RowsOf(Opened(Run(None, rs).state.file).tables, "t") == []
      && Run(None, rs).events == []
  {
    hide FlattenEngine, InsertedRow, FileAfter, ExtractInsertTable, HeapInsertPayload, TextBytes, ExecStep, Exec, Replay;
    var sql := "INSERT INTO " + "t (a) VALUES (?)";
    var r := Request(sql, ["1"], false);
    assert [r][..0] == [];
    OneColumnInsert();
    PlainInsertFlattens(sql);
    StepCases(Opened(None), r);
    InsertUnwritten(map[], "t (a) VALUES (?)", ["1"], ("t", map["a" := "1"]));
    assert [] + [map["a" := "1"]] == [map["a" := "1"]];
  }

  lemma PlainInsertFlattens(sql: string)
    requires sql == "INSERT INTO " + "t (a) VALUES (?)"
    ensures FlattenEngine(sql) == sql && TrimSql(sql) == sql
  {
    hide FlattenEngine, StripTail;
    assert '"' !in sql && '$' !in sql;
    assert sql[0] == 'I' && sql[|sql| - 1] == ')';
    PlainTextIsFixed(sql);
    SolidText(sql);
  }

  lemma InsertUnwritten(tables: Tables, rest: string, params: seq<string>, row: (string, Row))
    requires InsertedRow("INSERT INTO " + rest, params) == Some(row) && TrimSql("INSERT INTO " + rest) == "INSERT INTO " + rest
    ensures Exec(tables, "INSERT INTO " + rest, params, false) == Outcome(NOTHING, Append(tables, row.0, row.1))
  {
    hide InsertedRow, Native.ExecSelect, Append, TrimSql, Lower, FindFrom;
    IntoAtFront(rest);
  }

  // ---------------------------------------------------------------- the objects

  /** `NativeExecutor`: one heap insert is one log record and one published event. */
  class NativeExecutor {
    const wal: WalWriter
    const hub: C.Hub

    constructor (wal: WalWriter, hub: C.Hub)
      ensures this.wal == wal && this.hub == hub
    {
      this.wal := wal;
      this.hub := hub;
    }

    method Insert(table: string, row: Bytes) returns (lsn: nat, ghost padding: Padding)
      modifies wal`nextLsn, wal.segment`bytes, hub`pollQueue, hub`calls
      ensures lsn == old(wal.nextLsn) && wal.nextLsn == (lsn + 1) % LIMIT_64
      ensures wal.segment.bytes == old(wal.segment.bytes) +
              Frame(Record(HeapInsert, lsn, HeapInsertPayload(TextBytes(table), row)), padding)
      ensures var e := C.Event(lsn, table, C.Op.Insert, row);
              hub.pollQueue == old(hub.pollQueue) + [C.EventToJson(e)] &&
              hub.calls == old(hub.calls) + C.Calls(C.Matching(hub.subscriptions, table), e)
    {
      var payload := EncodeHeapInsert(TextBytes(table), row);
      lsn, padding := wal.Append(HeapInsert, payload);
      hub.OnWalAppend(lsn, C.Op.Insert, table, row);
    }
  }

  /** The calls that a list of events makes while the subscriptions stay as they are. */
  function CallsOf(subs: seq<C.Subscription>, events: seq<C.Event>): seq<C.Called> {
    if events == [] then [] else C.Calls(C.Matching(subs, events[0].table), events[0]) + CallsOf(subs, events[1..])
  }

  class EmbeddedDatabase {
    const snapshot: File
    const segment: SegmentFile
    const hub: C.Hub
    var isOpen: bool
    var walLsn: nat
    var catalog: NativeCatalog?
    var wal: WalWriter?
    var executor: NativeExecutor?
    /** The segment's bytes when it was opened, and this session's records and paddings. */
    ghost var base: Bytes
    ghost var log: seq<Record>
    ghost var pads: seq<Padding>

    constructor (snapshot: File, segment: SegmentFile, hub: C.Hub)
      ensures this.snapshot == snapshot && this.segment == segment && this.hub == hub
      ensures !isOpen && catalog == null && wal == null && executor == null && walLsn == 0
    {
      this.snapshot, this.segment, this.hub := snapshot, segment, hub;
      isOpen, walLsn, catalog, wal, executor := false, 0, null, null, null;
    }

    /** The open database: its parts are wired together and the segment holds this session's frames. */
    ghost predicate Open()
      reads this, catalog, wal, executor, segment
    {
      && isOpen && catalog != null && wal != null && executor != null
      && catalog.file == snapshot && wal.segment == segment
      && executor.wal == wal && executor.hub == hub
      && wal.nextLsn == NextLsn(log)
      && |pads| == |log| && segment.bytes == base + Segment(log, pads)
    }

    ghost function Current(): State
      reads this, catalog, wal, executor, segment, snapshot
      requires Open()
    {
      State(catalog.tables, snapshot.content, log, walLsn)
    }

    method OpenDatabase() returns (ok: bool)
      requires isOpen ==> Open()
      modifies this, segment
      ensures ok && Open()
      ensures old(isOpen) ==> Current() == old(Current()) && segment.bytes == old(segment.bytes)
      ensures !old(isOpen) ==> Current() == Opened(snapshot.content) && base == old(segment.bytes)
    {
      hide Load, Frame, Header, Segment, NextLsn;
      if isOpen {
        return true;
      }
      wal := new WalWriter(segment);
      executor := new NativeExecutor(wal, hub);
      catalog := new NativeCatalog(snapshot);
      catalog.LoadOrCreate();
      base := segment.bytes;
      var payload: Bytes := [0, 0, 0, 0, 0, 0, 0, 0];
      ghost var pad;
      walLsn, pad := wal.Append(Noop, payload);
      log, pads := [Record(Noop, 1, OPENING)], [pad];
      OneFrame(log[0], pad);
      AfterOne(log);
      isOpen := true;
      ok := true;
    }

    method Close()
      modifies this
      ensures !isOpen && walLsn == 0 && catalog == null && wal == null && executor == null
    {
      executor, catalog, wal := null, null, null;
      isOpen, walLsn := false, 0;
    }

    method Migrate() returns (ok: bool)
      requires isOpen ==> Open()
      modifies if isOpen then {catalog} else {}, snapshot`content
      ensures !isOpen ==> !ok && snapshot.content == old(snapshot.content)
      ensures isOpen ==> Open() && log == old(log)
      ensures isOpen && |RowsOf(old(catalog.tables), "schema_migrations")| > 0 ==> ok && Current() == old(Current())
      ensures isOpen && |RowsOf(old(catalog.tables), "schema_migrations")| == 0 ==>
        && ok == snapshot.writable && catalog.tables == Bootstrap()
        && snapshot.content == if ok then Some(Save(Bootstrap())) else old(snapshot.content)
    {
      if !isOpen {
        return false;
      }
      var n := catalog.TableCount("schema_migrations");
      if n.Some? && n.value > 0 {
        return true;
      }
      ok := catalog.ApplyBootstrapSchema();
    }

    /** Every call is one step of the session; what it publishes is what the step says. */
    method ExecParameterized(sql: string, params: seq<string>) returns (result: ExecResult)
      requires isOpen ==> Open()
      modifies this`walLsn, this`log, this`pads, snapshot`content, segment`bytes, hub`pollQueue, hub`calls
      modifies if isOpen then {catalog} else {}, if isOpen then {wal} else {}
      ensures !isOpen ==> result == NOTHING && hub.pollQueue == old(hub.pollQueue) && segment.bytes == old(segment.bytes)
      ensures isOpen ==> Open()
      ensures isOpen ==>
        var step := ExecStep(old(Current()), Request(sql, params, snapshot.writable));
        && Current() == step.state && result == step.result
        && hub.pollQueue == old(hub.pollQueue) + C.JsonLines(step.events)
        && hub.calls == old(hub.calls) + CallsOf(hub.subscriptions, step.events)
    {
      hide Exec, FlattenEngine, FileAfter, Save, HeapInsertPayload, TextBytes, Frame, ExtractInsertTable, Segment,
           ExecStep, C.EventToJson, C.Matching, C.Calls, CallsOf, C.JsonLines, Load;
      if !isOpen {
        return NOTHING;
      }
      StepCases(Current(), Request(sql, params, snapshot.writable));
      var flat := FlattenCatalogSql(sql);
      result := catalog.Exec(flat, params);
      if result.affected > 0 {
        var table := ExtractTable(flat);
        ghost var pad;
        walLsn, pad := executor.Insert(table, []);
        var r := Record(HeapInsert, walLsn, HeapInsertPayload(TextBytes(table), []));
        SegmentGrows(log, pads, r, pad);
        Assoc3(base, Segment(log, pads), Frame(r, pad));
        log, pads := log + [r], pads + [pad];
        OneEvent(hub.subscriptions, C.Event(walLsn, table, C.Op.Insert, []));
      } else {
        NoEvents(hub.subscriptions);
        assert hub.pollQueue + [] == hub.pollQueue && hub.calls + [] == hub.calls;
      }
    }
  }

  lemma AfterOne(log: seq<Record>)
    requires |log| == 1
    ensures NextLsn(log) == (1 + 1) % LIMIT_64
  {
  }

  lemma NoEvents(subs: seq<C.Subscription>)
    ensures CallsOf(subs, []) == [] && C.JsonLines([]) == []
  {
  }

  lemma StepCases(s: State, r: Request)
    ensures
      var flat := FlattenEngine(r.sql);
      var o := Exec(s.tables, flat, r.params, r.fileOpens);
      var file := if r.fileOpens then FileAfter(s.file, s.tables, flat, r.params) else s.file;
      var n, table := NextLsn(s.log), ExtractInsertTable(flat);
      ExecStep(s, r) ==
        if o.result.affected == 0 then Stepped(State(o.tables, file, s.log, s.lsn), o.result, [])
        else
          Stepped(State(o.tables, file, s.log + [Record(HeapInsert, n, HeapInsertPayload(TextBytes(table), []))], n),
                  o.result, [C.Event(n, table, C.Op.Insert, [])])
  {
    hide Exec, FlattenEngine, FileAfter, ExtractInsertTable, HeapInsertPayload, TextBytes;
  }

  lemma OneFrame(r: Record, pad: Padding)
    ensures Segment([r], [pad]) == Frame(r, pad)
  {
    hide Frame;
    assert [r][1..] == [] && [pad][1..] == [];
    assert Frame(r, pad) + [] == Frame(r, pad);
  }

  lemma OneEvent(subs: seq<C.Subscription>, e: C.Event)
    ensures CallsOf(subs, [e]) == C.Calls(C.Matching(subs, e.table), e)
    ensures C.JsonLines([e]) == [C.EventToJson(e)]
  {
    assert [e][1..] == [];
  }

  lemma {:induction false} SegmentGrows(rs: seq<Record>, pads: seq<Padding>, r: Record, pad: Padding)
    requires |rs| == |pads|
    ensures Segment(rs + [r], pads + [pad]) == Segment(rs, pads) + Frame(r, pad)
    decreases |rs|
  {
    hide Frame;
    if rs == [] {
      assert rs + [r] == [r] && pads + [pad] == [pad];
      OneFrame(r, pad);
      assert [] + Frame(r, pad) == Frame(r, pad);
    } else {
      assert (rs + [r])[1..] == rs[1..] + [r] && (pads + [pad])[1..] == pads[1..] + [pad];
      SegmentGrows(rs[1..], pads[1..], r, pad);
      Assoc3(Frame(rs[0], pads[0]), Segment(rs[1..], pads[1..]), Frame(r, pad));
    }
  }
}
