/** The event-replay loop: one transaction buffered in the loop's locals,
    reset on B, grown by I, flushed to the database as one statement on C. */
module Replay {
  import opened Events
  import opened Text
  import opened Coercion
  import opened Statement

  /** The loop's state: the table named by the latest insert, the rows buffered
      since the last reset, the comma-joined column names of the latest insert,
      and the number of committed transactions. */
  datatype Buffer = Buffer(schema: string, table: string, rows: seq<seq<Value>>, colList: string, txnCount: nat)

  /** The state `refresh` leaves behind; only the transaction count survives. */
  function Cleared(txnCount: nat): Buffer
  {
    Buffer("", "", [], "", txnCount)
  }

  /** One statement handed to the database. */
  datatype Call = Call(query: string, params: seq<Value>)

  /** Why the run stops: an undecodable line, a bad column, a refused statement. */
  datatype Fatal = DecodeFailed(raw: string) | BadColumn(error: ColumnError) | ExecFailed(call: Call)

  datatype Outcome = Continue | Abort(reason: Fatal)

  /** The library code and the database the loop calls: the text scanners,
      identifier quoting for `schema.table`, and which statements the
      database refuses. */
  datatype Env = Env(scan: Scanner, sanitize: (string, string) -> string, refuses: Call -> bool)

  /** What processing some lines does: the new state, the statements sent to
      the database, and whether the run goes on. */
  datatype Effect = Effect(after: Buffer, calls: seq<Call>, outcome: Outcome)

  predicate HasAction(line: Line, action: string)
  {
    line.Decoded? && line.stmt.action == action
  }

  /** K, and every action the dispatch has no case for. */
  predicate IsNoOp(line: Line)
  {
    line.Decoded? && line.stmt.action != "B" && line.stmt.action != "I" && line.stmt.action != "C"
  }

  /** The statement a commit sends for the buffered transaction. */
  function CommitCall(b: Buffer, env: Env): Call
  {
    Call(QueryText(env.sanitize(b.schema, b.table), b.colList, b.rows), Flatten(b.rows))
  }

  /** One input line through the dispatch on the event's top-level action:
      an undecodable line aborts without effect, B clears the buffer, K and
      any action without a case change nothing, and only C talks to the
      database (InsertStep and CommitStep say what I and C do). */
  function Next(b: Buffer, line: Line, env: Env): (e: Effect)
    ensures |e.calls| == (if HasAction(line, "C") then 1 else 0)
    ensures line.Malformed? ==> e == Effect(b, [], Abort(DecodeFailed(line.raw)))
    ensures IsNoOp(line) ==> e == Effect(b, [], Continue)
    ensures HasAction(line, "B") ==> e == Effect(Cleared(b.txnCount), [], Continue)
  {
    match line
    case Malformed(raw) => Effect(b, [], Abort(DecodeFailed(raw)))
    case Decoded(s) =>
      if s.action == "B" then Effect(Cleared(b.txnCount), [], Continue)
      else if s.action == "I" then
        var named := b.(schema := s.message.schema, table := s.message.table);
        match RowOf(s.message.columns, env.scan)
        case RowFailed(err) => Effect(named, [], Abort(BadColumn(err)))
        case Row(names, values) =>
          Effect(named.(rows := b.rows + [values], colList := Join(",", names)), [], Continue)
      else if s.action == "C" then
        var call := CommitCall(b, env);
        if env.refuses(call) then Effect(b, [call], Abort(ExecFailed(call)))
        else Effect(Cleared(b.txnCount + 1), [call], Continue)
      else Effect(b, [], Continue)
  }

  /** An I line names the table, then either appends one row, holding one
      value per recognised column, and records every column name; or, if a
      column fails, aborts without touching the rows or the column list. */
  lemma InsertStep(b: Buffer, line: Line, env: Env)
    requires HasAction(line, "I")
    ensures var e := Next(b, line, env); var m := line.stmt.message;
      && e.after.schema == m.schema && e.after.table == m.table
      && e.after.txnCount == b.txnCount
      && (e.outcome.Continue? <==> forall i :: 0 <= i < |m.columns| ==> !Coerce(m.columns[i], env.scan).Failed?)
      && (e.outcome.Continue? ==>
            && |e.after.rows| == |b.rows| + 1 && e.after.rows[..|b.rows|] == b.rows
            && |e.after.rows[|b.rows|]| == |RecognisedColumns(m.columns)|
            && e.after.colList == Join(",", Names(m.columns)))
      && (e.outcome.Abort? ==> e.after.rows == b.rows && e.after.colList == b.colList && e.outcome.reason.BadColumn?)
  {
    var cols := line.stmt.message.columns;
    RowSucceedsIff(cols, env.scan);
    if RowOf(cols, env.scan).Row? {
      RowContents(cols, env.scan);
    }
  }

  /** A C line sends exactly one statement, built from the buffer; if the
      database accepts it the buffer is cleared and the transaction counted,
      otherwise the run aborts with the buffer intact. */
  lemma CommitStep(b: Buffer, line: Line, env: Env)
    requires HasAction(line, "C")
    ensures var e := Next(b, line, env);
      && e.calls == [CommitCall(b, env)]
      && e.calls[0].params == Flatten(b.rows)
      && (e.outcome.Continue? <==> !env.refuses(e.calls[0]))
      && (e.outcome.Continue? ==> e.after == Cleared(b.txnCount + 1))
      && (e.outcome.Abort? ==> e.after == b)
  {
  }

  /** The lines in order, stopping at the first that aborts. */
  function Replay(b: Buffer, lines: seq<Line>, env: Env): Effect
    decreases |lines|
  {
    if lines == [] then Effect(b, [], Continue)
    else
      var e := Next(b, lines[0], env);
      if e.outcome.Abort? then e
      else
        var r := Replay(e.after, lines[1..], env);
        Effect(r.after, e.calls + r.calls, r.outcome)
  }

  /** Replaying the lines still to come from `b`, after the calls `done`,
      completes the whole run's effect `total`. */
  predicate Resumes(total: Effect, b: Buffer, rest: seq<Line>, done: seq<Call>, env: Env)
  {
    var r := Replay(b, rest, env);
    total == Effect(r.after, done + r.calls, r.outcome)
  }

  /** Advancing by one line keeps the run's effect: either line i stops the
      run, or what remains resumes from the next line. */
  lemma ReplayStep(total: Effect, b: Buffer, lines: seq<Line>, i: nat, done: seq<Call>, env: Env)
    requires i < |lines| && Resumes(total, b, lines[i..], done, env)
    ensures var e := Next(b, lines[i], env);
      && (e.outcome.Abort? ==> total == Effect(e.after, done + e.calls, e.outcome))
      && (!e.outcome.Abort? ==> Resumes(total, e.after, lines[i + 1..], done + e.calls, env))
  {
  }

  /** Continues an effect with more lines, unless it already aborted. */
  function AndThen(e: Effect, lines: seq<Line>, env: Env): Effect
  {
    if e.outcome.Abort? then e
    else
      var r := Replay(e.after, lines, env);
      Effect(r.after, e.calls + r.calls, r.outcome)
  }

  /** Replaying two stretches of input is replaying the first, then the second
      from where the first left off; an abort in the first ends it all. */
  lemma {:induction false} ReplayAppend(b: Buffer, xs: seq<Line>, ys: seq<Line>, env: Env)
    ensures Replay(b, xs + ys, env) == AndThen(Replay(b, xs, env), ys, env)
    decreases |xs|
  {
    if xs == [] {
      assert xs + ys == ys;
      assert [] + Replay(b, ys, env).calls == Replay(b, ys, env).calls;
    } else {
      assert (xs + ys)[0] == xs[0] && (xs + ys)[1..] == xs[1..] + ys;
      var e := Next(b, xs[0], env);
      if !e.outcome.Abort? {
        ReplayAppend(e.after, xs[1..], ys, env);
        var r1 := Replay(e.after, xs[1..], env);
        if !r1.outcome.Abort? {
          var r2 := Replay(r1.after, ys, env);
          assert e.calls + (r1.calls + r2.calls) == (e.calls + r1.calls) + r2.calls;
        }
      }
    }
  }

  /** A K line, or a line with an action the dispatch does not handle, can be
      removed from anywhere in the input without changing anything. */
  lemma KeepaliveTransparent(b: Buffer, xs: seq<Line>, k: Line, ys: seq<Line>, env: Env)
    requires IsNoOp(k)
    ensures Replay(b, xs + [k] + ys, env) == Replay(b, xs + ys, env)
  {
    assert xs + [k] + ys == xs + ([k] + ys);
    ReplayAppend(b, xs, [k] + ys, env);
    ReplayAppend(b, xs, ys, env);
    var e := Replay(b, xs, env);
    if !e.outcome.Abort? {
      assert ([k] + ys)[0] == k && ([k] + ys)[1..] == ys;
      assert [] + Replay(e.after, ys, env).calls == Replay(e.after, ys, env).calls;
    }
  }

  /** A B line forgets everything buffered before it: what follows depends
      only on the transaction count. */
  lemma BeginForgets(b1: Buffer, b2: Buffer, begin: Line, ys: seq<Line>, env: Env)
    requires HasAction(begin, "B") && b1.txnCount == b2.txnCount
    ensures Replay(b1, [begin] + ys, env) == Replay(b2, [begin] + ys, env)
  {
  }

  /** An insert line whose columns all coerce. */
  predicate CleanInsert(line: Line, env: Env)
  {
    HasAction(line, "I") && RowOf(line.stmt.message.columns, env.scan).Row?
  }

  function RowValues(line: Line, env: Env): seq<Value>
  {
    match line
    case Malformed(_) => []
    case Decoded(s) =>
      match RowOf(s.message.columns, env.scan)
      case Row(_, vs) => vs
      case RowFailed(_) => []
  }

  /** The rows a run of insert lines contributes, in arrival order. */
  function RowsOf(ins: seq<Line>, env: Env): seq<seq<Value>>
  {
    if ins == [] then [] else [RowValues(ins[0], env)] + RowsOf(ins[1..], env)
  }

  /** The message of the last of a run of lines; a message with no fields when
      there is none. */
  function LastMessage(ins: seq<Line>): Message
  {
    if ins == [] || ins[|ins| - 1].Malformed? then Message("", 0, "", "", []) else ins[|ins| - 1].stmt.message
  }

  /** An insert whose columns all coerce appends exactly its row, takes its
      table and column names, and sends nothing. */
  lemma CleanInsertStep(b: Buffer, line: Line, env: Env)
    requires CleanInsert(line, env)
    ensures var m := line.stmt.message;
      Next(b, line, env) ==
        Effect(Buffer(m.schema, m.table, b.rows + [RowValues(line, env)], Join(",", Names(m.columns)), b.txnCount),
               [], Continue)
  {
    RowContents(line.stmt.message.columns, env.scan);
  }

  /** Inserts only append: each adds one row after the existing ones, nothing
      is sent to the database, and the table and column list are those of the
      last insert, with no check against earlier ones. */
  lemma {:induction false} InsertsAppend(b: Buffer, ins: seq<Line>, env: Env)
    requires forall i :: 0 <= i < |ins| ==> CleanInsert(ins[i], env)
    ensures var e := Replay(b, ins, env);
      && e.outcome == Continue && e.calls == []
      && e.after.rows == b.rows + RowsOf(ins, env)
      && e.after.txnCount == b.txnCount
      && (ins == [] ==> e.after == b)
      && (ins != [] ==>
            var m := LastMessage(ins);
            e.after.schema == m.schema && e.after.table == m.table && e.after.colList == Join(",", Names(m.columns)))
    decreases |ins|
  {
    if ins != [] {
      CleanInsertStep(b, ins[0], env);
      var e := Next(b, ins[0], env);
      InsertsAppend(e.after, ins[1..], env);
      assert b.rows + [RowValues(ins[0], env)] + RowsOf(ins[1..], env) == b.rows + RowsOf(ins, env);
      if |ins| > 1 {
        assert LastMessage(ins[1..]) == LastMessage(ins);
      }
    }
  }

  /** A transaction B, inserts, C sends exactly one statement: its parameters
      are the inserted rows in arrival order, its text names the last insert's
      table and columns; if the database accepts it the state is reset and the
      count goes up by one. */
  lemma TransactionFlush(b: Buffer, begin: Line, ins: seq<Line>, commit: Line, env: Env)
    requires HasAction(begin, "B") && HasAction(commit, "C")
    requires forall i :: 0 <= i < |ins| ==> CleanInsert(ins[i], env)
    ensures var m := LastMessage(ins);
      var rows := RowsOf(ins, env);
      var call := Call(QueryText(env.sanitize(m.schema, m.table), Join(",", Names(m.columns)), rows), Flatten(rows));
      var e := Replay(b, [begin] + ins + [commit], env);
      && e.calls == [call]
      && (e.outcome == Continue <==> !env.refuses(call))
      && (e.outcome == Continue ==> e.after == Cleared(b.txnCount + 1))
  {
    assert [begin] + ins + [commit] == [begin] + (ins + [commit]);
    ReplayAppend(b, [begin], ins + [commit], env);
    var start := Cleared(b.txnCount);
    ReplayAppend(start, ins, [commit], env);
    InsertsAppend(start, ins, env);
    var mid := Replay(start, ins, env).after;
    assert ins == [] ==> mid == start && Names(LastMessage(ins).columns) == [];
    assert Replay(mid, [commit], env) == Next(mid, commit, env) by {
      assert [commit][1..] == [];
    }
    CommitStep(mid, commit, env);
  }

  /** A commit with nothing buffered still sends a statement: the bare header
      with no tuples and no parameters. */
  lemma EmptyCommitExecutes(b: Buffer, begin: Line, commit: Line, env: Env)
    requires HasAction(begin, "B") && HasAction(commit, "C")
    ensures Replay(b, [begin, commit], env).calls == [Call("insert into " + env.sanitize("", "") + " () values ", [])]
  {
    TransactionFlush(b, begin, [], commit, env);
    assert [begin] + [] + [commit] == [begin, commit];
    assert RowsOf([], env) == [] && Flatten<Value>([]) == [];
    assert LastMessage([]) == Message("", 0, "", "", []);
    assert Names([]) == [] && Join(",", []) == "";
    assert Tuples<Value>([]) == [];
    assert QueryText(env.sanitize("", ""), "", RowsOf([], env)) == "insert into " + env.sanitize("", "") + " () values ";
  }

  function Event(action: string, m: Message): Line
  {
    Decoded(Stmt(action, "", "", "", m))
  }

  const NoMessage: Message := Message("", 0, "", "", [])

  /** Two inserts of (id integer, name text) into s.t between B and C give
      one statement with two tuples numbered $1..$4 and the parameters
      1, "a", 2, "b" in that order. */
  lemma ExampleTransaction(env: Env)
    requires env.scan(PlainText, "a") && env.scan(PlainText, "b")
    ensures var lines := [Event("B", NoMessage)] + ExampleInserts() + [Event("C", NoMessage)];
      var call := Call(Header(env.sanitize("s", "t"), "id,name") + " ( $1, $2 ) " + "," + " ( $3, $4 ) ",
                       [Int32(1), Scanned(PlainText, "a"), Int32(2), Scanned(PlainText, "b")]);
      var e := Replay(Cleared(0), lines, env);
      && e.calls == [call]
      && (!env.refuses(call) ==> e.outcome == Continue && e.after == Cleared(1))
  {
    var ins := ExampleInserts();
    var begin, commit := Event("B", NoMessage), Event("C", NoMessage);
    ExampleRows(env);
    TransactionFlush(Cleared(0), begin, ins, commit, env);
    var rows := RowsOf(ins, env);
    var target := env.sanitize("s", "t");
    ExampleText(target, rows);
    var m := LastMessage(ins);
    assert m.schema == "s" && m.table == "t";
    assert Join(",", Names(m.columns)) == "id,name";
    var call := Call(QueryText(target, "id,name", rows), Flatten(rows));
    var e := Replay(Cleared(0), [begin] + ins + [commit], env);
    assert e.calls == [call];
    assert call.query == Header(target, "id,name") + " ( $1, $2 ) " + "," + " ( $3, $4 ) ";
    assert call.params == [Int32(1), Scanned(PlainText, "a"), Int32(2), Scanned(PlainText, "b")];
  }

  function ExampleInserts(): seq<Line>
  {
    [Event("I", Message("I", 0, "s", "t", IdName(1, "a"))), Event("I", Message("I", 0, "s", "t", IdName(2, "b")))]
  }

  lemma ExampleRows(env: Env)
    requires env.scan(PlainText, "a") && env.scan(PlainText, "b")
    ensures forall i :: 0 <= i < |ExampleInserts()| ==> CleanInsert(ExampleInserts()[i], env)
    ensures RowsOf(ExampleInserts(), env) == [[Int32(1), Scanned(PlainText, "a")], [Int32(2), Scanned(PlainText, "b")]]
    ensures LastMessage(ExampleInserts()) == Message("I", 0, "s", "t", IdName(2, "b"))
  {
    var ins := ExampleInserts();
    IdNameRow(1, "a", env.scan);
    IdNameRow(2, "b", env.scan);
    assert ins[1..] == [ins[1]] && ins[1..][1..] == [];
    assert RowsOf([ins[1]], env) == [RowValues(ins[1], env)];
  }

  lemma ExampleText<T>(target: string, rows: seq<seq<T>>)
    requires |rows| == 2 && |rows[0]| == 2 && |rows[1]| == 2
    ensures Join(",", Names(IdName(2, "b"))) == "id,name"
    ensures QueryText(target, "id,name", rows) == Header(target, "id,name") + " ( $1, $2 ) " + "," + " ( $3, $4 ) "
    ensures Flatten(rows) == rows[0] + rows[1]
  {
    assert Names(IdName(2, "b")) == ["id", "name"];
    JoinTwo(",", "id", "name");
    TwoPairsText(rows);
    JoinTwo(",", " ( $1, $2 ) ", " ( $3, $4 ) ");
  }

  /** The columns (id integer, name text) of the worked example. */
  function IdName(id: int, name: string): seq<Column>
  {
    [Column("id", "integer", Number(id)), Column("name", "text", Str(name))]
  }

  lemma IdNameRow(id: int, name: string, scan: Scanner)
    requires scan(PlainText, name)
    ensures RowOf(IdName(id, name), scan) == Row(["id", "name"], [Int32(id), Scanned(PlainText, name)])
  {
    var cols := IdName(id, name);
    assert Coerce(cols[0], scan) == Appended(Int32(id));
    assert Coerce(cols[1], scan) == Appended(Scanned(PlainText, name));
    assert cols[1..] == [cols[1]] && [cols[1]][1..] == [];
    assert RowOf(cols[1..], scan) == Row(["name"], [Scanned(PlainText, name)]);
  }

  /** A column whose type name the switch does not know keeps its name in the
      column list but loses its value: three names, two placeholders, and the
      text column's value lands in the second slot, the unknown column's. */
  lemma UnknownTagShiftsValues(env: Env)
    requires env.scan(PlainText, "a")
    ensures var cols := [Column("id", "integer", Number(1)), Column("tags", "text[]", Str("{x}")),
                         Column("name", "text", Str("a"))];
      var b := Next(Cleared(0), Event("I", Message("I", 0, "s", "t", cols)), env).after;
      && b.colList == "id,tags,name"
      && CommitCall(b, env) ==
           Call(Header(env.sanitize("s", "t"), "id,tags,name") + " ( $1, $2 ) ", [Int32(1), Scanned(PlainText, "a")])
  {
    var cols := [Column("id", "integer", Number(1)), Column("tags", "text[]", Str("{x}")),
                 Column("name", "text", Str("a"))];
    UnknownTagRow(cols, env.scan);
    var rows := [[Int32(1), Scanned(PlainText, "a")]];
    var e := Next(Cleared(0), Event("I", Message("I", 0, "s", "t", cols)), env);
    assert e.after == Buffer("s", "t", rows, Join(",", ["id", "tags", "name"]), 0);
    assert ["id", "tags", "name"][1..] == ["tags", "name"];
    JoinTwo(",", "tags", "name");
    assert Join(",", ["id", "tags", "name"]) == "id,tags,name";
    OnePairText(rows);
    assert Join(",", [" ( $1, $2 ) "]) == " ( $1, $2 ) ";
  }

  lemma UnknownTagRow(cols: seq<Column>, scan: Scanner)
    requires scan(PlainText, "a")
    requires cols == [Column("id", "integer", Number(1)), Column("tags", "text[]", Str("{x}")),
                      Column("name", "text", Str("a"))]
    ensures RowOf(cols, scan) == Row(["id", "tags", "name"], [Int32(1), Scanned(PlainText, "a")])
  {
    assert !Recognised("text[]") by {
      assert !HasPrefix("text[]", VarcharPrefix);
    }
    assert Coerce(cols[0], scan) == Appended(Int32(1));
    assert Coerce(cols[1], scan) == Dropped;
    assert Coerce(cols[2], scan) == Appended(Scanned(PlainText, "a"));
    assert cols[1..][1..] == [cols[2]] && [cols[2]][1..] == [];
    assert RowOf([cols[2]], scan) == Row(["name"], [Scanned(PlainText, "a")]);
    assert RowOf(cols[1..], scan) == Row(["tags", "name"], [Scanned(PlainText, "a")]);
  }

  /** Dispatch reads only the event's top-level action and the message's
      schema, table and columns; the ids, lsn, timestamp and the message's own
      action are never consulted. */
  lemma MetadataIgnored(b: Buffer, s1: Stmt, s2: Stmt, env: Env)
    requires s1.action == s2.action
    requires s1.message.schema == s2.message.schema && s1.message.table == s2.message.table
    requires s1.message.columns == s2.message.columns
    ensures Next(b, Decoded(s1), env) == Next(b, Decoded(s2), env)
  {
  }

  /** An insert line whose message lacks the optional fields names the empty
      table and appends an empty row. */
  lemma InsertWithoutOptionalFields(b: Buffer, s: Stmt, action: string, xid: int, env: Env)
    requires s.action == "I"
    requires s.message == MessageOf(MessageFields(action, xid, None, None, None))
    ensures Next(b, Decoded(s), env) ==
      Effect(Buffer("", "", b.rows + [[]], "", b.txnCount), [], Continue)
  {
  }

  /** The replay loop with its buffer in fields, where the program keeps it
      in locals of its main function. */
  class Replayer {
    var schema: string
    var table: string
    var rows: seq<seq<Value>>
    var colList: string
    var txnCount: nat
    /** Every statement handed to the database so far, in order. */
    ghost var sinkCalls: seq<Call>
    const env: Env

    function State(): Buffer
      reads this
    {
      Buffer(schema, table, rows, colList, txnCount)
    }

    constructor (env: Env)
      ensures State() == Cleared(0) && sinkCalls == [] && this.env == env
    {
      schema, table, rows, colList, txnCount := "", "", [], "", 0;
      sinkCalls := [];
      this.env := env;
    }

    /** The `refresh` closure. */
    method Refresh()
      modifies this
      ensures State() == Cleared(old(txnCount)) && sinkCalls == old(sinkCalls)
    {
      table := "";
      schema := "";
      rows := [];
      colList := "";
    }

    /** The database call: recorded, then accepted or refused. */
    method Exec(query: string, params: seq<Value>) returns (ok: bool)
      modifies this`sinkCalls
      ensures sinkCalls == old(sinkCalls) + [Call(query, params)]
      ensures ok == !env.refuses(Call(query, params))
    {
      sinkCalls := sinkCalls + [Call(query, params)];
      ok := !env.refuses(Call(query, params));
    }

    method Step(line: Line) returns (outcome: Outcome)
      modifies this
      ensures var e := Next(old(State()), line, env);
        State() == e.after && sinkCalls == old(sinkCalls) + e.calls && outcome == e.outcome
    {
      match line {
        case Malformed(raw) =>
          return Abort(DecodeFailed(raw));
        case Decoded(stmt) =>
          if stmt.action == "B" {
            Refresh();
          } else if stmt.action == "I" {
            schema := stmt.message.schema;
            table := stmt.message.table;
            var row := BuildRow(stmt.message.columns, env.scan);
            match row {
              case RowFailed(err) =>
                return Abort(BadColumn(err));
              case Row(names, values) =>
                rows := rows + [values];
                colList := Join(",", names);
            }
          } else if stmt.action == "C" {
            var query, params := Build(env.sanitize(schema, table), colList, rows);
            var ok := Exec(query, params);
            if !ok {
              return Abort(ExecFailed(Call(query, params)));
            }
            txnCount := txnCount + 1;
            Refresh();
          }
          outcome := Continue;
      }
    }

    /** One pass of the main loop: line i goes through the dispatch. If the
        run so far is `done` and replaying from line i would complete `total`,
        then afterwards either the run stopped with `total`, or the same holds
        from line i + 1. */
    method Advance(ghost total: Effect, lines: seq<Line>, i: nat, ghost done: seq<Call>)
      returns (outcome: Outcome, ghost done': seq<Call>)
      requires i < |lines| && Resumes(total, State(), lines[i..], done, env)
      modifies this
      ensures done' == done + Next(old(State()), lines[i], env).calls
      ensures sinkCalls == old(sinkCalls) + Next(old(State()), lines[i], env).calls
      ensures outcome.Abort? ==> total == Effect(State(), done', outcome)
      ensures outcome.Continue? ==> Resumes(total, State(), lines[i + 1..], done', env)
    {
      ReplayStep(total, State(), lines, i, done, env);
      ghost var e := Next(State(), lines[i], env);
      outcome := Step(lines[i]);
      done' := done + e.calls;
    }

    /** The main loop: every line in order until one aborts the run. */
    method Run(lines: seq<Line>) returns (outcome: Outcome)
      modifies this
      ensures var e := Replay(old(State()), lines, env);
        State() == e.after && sinkCalls == old(sinkCalls) + e.calls && outcome == e.outcome
    {
      ghost var total := Replay(State(), lines, env);
      ghost var done: seq<Call> := [];
      var i := 0;
      assert lines[0..] == lines;
      while i < |lines|
        invariant 0 <= i <= |lines|
        invariant sinkCalls == old(sinkCalls) + done
        invariant Resumes(total, State(), lines[i..], done, env)
      {
        outcome, done := Advance(total, lines, i, done);
        if outcome.Abort? {
          return;
        }
        i := i + 1;
      }
      assert lines[i..] == [];
      outcome := Continue;
    }
  }
}
