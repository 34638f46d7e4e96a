/** The per-column type dispatch of an insert event: a column's type name
    selects how its wire value becomes a typed query parameter. */
module Coercion {
  import opened Events
  import opened Text

  /** The text-backed parameter types; each parses its wire string with a
      library scanner that this model does not contain. */
  datatype TextKind = Timestamptz | Jsonb | Varchar | Date | PlainText | Inet | GenericText

  /** What a recognised type name asks of its wire value. */
  datatype Rule = AsInt32 | AsFloat64 | AsBool | AsText(kind: TextKind)

  /** A typed query parameter. */
  datatype Value = Int32(i: int) | Float64(x: int) | Bool(b: bool) | Scanned(kind: TextKind, raw: string)

  /** Why a column aborts the run: its wire value has the wrong JSON shape for
      its type (a failed type assertion), or the scanner rejected its text. */
  datatype ColumnError =
    | WrongShape(column: string, tag: string, value: Scalar)
    | Unparsable(column: string, tag: string, raw: string)

  datatype Coerced = Appended(value: Value) | Dropped | Failed(error: ColumnError)

  /** The library scanners: true when the text parses as the given kind. */
  type Scanner = (TextKind, string) -> bool

  const ExactTags: set<string> := {
    "integer", "double precision", "boolean", "timestamp with time zone", "jsonb",
    "date", "text", "inet", "iot_1.sensor_type"
  }

  const VarcharPrefix: string := "character varying"

  /** The type names the dispatch handles: nine exact names and every name
      starting with `character varying`. */
  predicate Recognised(tag: string)
  {
    tag in ExactTags || HasPrefix(tag, VarcharPrefix)
  }

  /** The type switch, case by case in the order the program tests them. */
  function Classify(tag: string): (r: Option<Rule>)
    ensures r.Some? <==> Recognised(tag)
    ensures r == Some(AsText(Varchar)) <==> HasPrefix(tag, VarcharPrefix)
    ensures r.Some? && r.value.AsText? && r.value.kind != Varchar ==> tag in ExactTags
  {
    if tag == "integer" then Some(AsInt32)
    else if tag == "double precision" then Some(AsFloat64)
    else if tag == "boolean" then Some(AsBool)
    else if tag == "timestamp with time zone" then
      assert tag[0] != VarcharPrefix[0];
      Some(AsText(Timestamptz))
    else if tag == "jsonb" then Some(AsText(Jsonb))
    else if HasPrefix(tag, VarcharPrefix) then Some(AsText(Varchar))
    else if tag == "date" then Some(AsText(Date))
    else if tag == "text" then Some(AsText(PlainText))
    else if tag == "inet" then Some(AsText(Inet))
    else if tag == "iot_1.sensor_type" then Some(AsText(GenericText))
    else None
  }

  /** The type assertion a rule makes on the wire value. */
  predicate Fits(rule: Rule, v: Scalar)
  {
    match rule
    case AsInt32 => v.Number?
    case AsFloat64 => v.Number?
    case AsBool => v.Boolean?
    case AsText(_) => v.Str?
  }

  /** The rule a typed value was produced by. */
  function RuleOf(v: Value): Rule
  {
    match v
    case Int32(_) => AsInt32
    case Float64(_) => AsFloat64
    case Bool(_) => AsBool
    case Scanned(k, _) => AsText(k)
  }

  /** The wire value a typed value carries. */
  function WireOf(v: Value): Scalar
  {
    match v
    case Int32(n) => Number(n)
    case Float64(x) => Number(x)
    case Bool(b) => Boolean(b)
    case Scanned(_, s) => Str(s)
  }

  /** One column through the type switch. */
  function Coerce(c: Column, scan: Scanner): (r: Coerced)
    ensures r.Dropped? <==> !Recognised(c.typeTag)
    ensures r.Appended? ==> Classify(c.typeTag) == Some(RuleOf(r.value)) && WireOf(r.value) == c.value
    ensures r.Failed? ==> r.error.column == c.name && r.error.tag == c.typeTag
    ensures (r.Failed? && r.error.WrongShape?) <==>
              Recognised(c.typeTag) && !Fits(Classify(c.typeTag).value, c.value)
    ensures (r.Failed? && r.error.Unparsable?) <==>
              && Recognised(c.typeTag)
              && Fits(Classify(c.typeTag).value, c.value)
              && Classify(c.typeTag).value.AsText?
              && !scan(Classify(c.typeTag).value.kind, c.value.s)
  {
    match Classify(c.typeTag)
    case None => Dropped
    case Some(rule) =>
      if !Fits(rule, c.value) then Failed(WrongShape(c.name, c.typeTag, c.value))
      else match rule
        case AsInt32 => Appended(Int32(c.value.n))
        case AsFloat64 => Appended(Float64(c.value.n))
        case AsBool => Appended(Bool(c.value.b))
        case AsText(kind) =>
          if scan(kind, c.value.s) then Appended(Scanned(kind, c.value.s))
          else Failed(Unparsable(c.name, c.typeTag, c.value.s))
  }

  /** The columns whose type name the switch recognises, in order. */
  function RecognisedColumns(cols: seq<Column>): (r: seq<Column>)
    ensures |r| <= |cols|
    ensures |r| == |cols| <==> forall i :: 0 <= i < |cols| ==> Recognised(cols[i].typeTag)
    ensures forall k :: 0 <= k < |r| ==> Recognised(r[k].typeTag)
  {
    if cols == [] then []
    else if Recognised(cols[0].typeTag) then [cols[0]] + RecognisedColumns(cols[1..])
    else RecognisedColumns(cols[1..])
  }

  function Names(cols: seq<Column>): seq<string>
  {
    seq(|cols|, i requires 0 <= i < |cols| => cols[i].name)
  }

  /** The outcome of the column loop of one insert event: every column's name,
      and the values of the recognised columns; or the first failing column. */
  datatype RowResult = Row(names: seq<string>, values: seq<Value>) | RowFailed(error: ColumnError)

  function Prepend(names: seq<string>, values: seq<Value>, r: RowResult): RowResult
  {
    match r
    case Row(ns, vs) => Row(names + ns, values + vs)
    case RowFailed(e) => r
  }

  /** One column's contribution in front of the rest of the loop: a failure
      ends it, otherwise the name is recorded and an appended value kept. */
  function Extend(name: string, c: Coerced, rest: RowResult): RowResult
  {
    match c
    case Failed(e) => RowFailed(e)
    case Dropped => Prepend([name], [], rest)
    case Appended(v) => Prepend([name], [v], rest)
  }

  /** The column loop as a function of the columns, first column first. */
  function RowOf(cols: seq<Column>, scan: Scanner): RowResult
  {
    if cols == [] then Row([], []) else Extend(cols[0].name, Coerce(cols[0], scan), RowOf(cols[1..], scan))
  }

  /** The loop completes exactly when no column fails, and then it has one
      name per column and one value per recognised column. */
  lemma {:induction false} RowSucceedsIff(cols: seq<Column>, scan: Scanner)
    ensures RowOf(cols, scan).Row? <==> forall i :: 0 <= i < |cols| ==> !Coerce(cols[i], scan).Failed?
    ensures RowOf(cols, scan).Row? ==>
      |RowOf(cols, scan).names| == |cols| && |RowOf(cols, scan).values| == |RecognisedColumns(cols)|
  {
    if cols != [] {
      RowSucceedsIff(cols[1..], scan);
      assert forall i :: 1 <= i < |cols| ==> cols[i] == cols[1..][i - 1];
    }
  }

  /** A successful row names every column, in order, and holds one value per
      recognised column, each carrying that column's wire value under that
      column's rule. Dropping an unrecognised column therefore leaves fewer
      values than names. */
  lemma {:induction false} RowContents(cols: seq<Column>, scan: Scanner)
    requires RowOf(cols, scan).Row?
    ensures RowOf(cols, scan).names == Names(cols)
    ensures var vs := RowOf(cols, scan).values; var kept := RecognisedColumns(cols);
      |vs| == |kept| &&
      forall k :: 0 <= k < |vs| ==>
        Coerce(kept[k], scan) == Appended(vs[k]) && WireOf(vs[k]) == kept[k].value
  {
    if cols != [] {
      var r := RowOf(cols, scan);
      var rest := RowOf(cols[1..], scan);
      var kept, kept' := RecognisedColumns(cols), RecognisedColumns(cols[1..]);
      var c := Coerce(cols[0], scan);
      assert !c.Failed? && rest.Row?;
      RowContents(cols[1..], scan);
      assert r.names == [cols[0].name] + rest.names;
      assert Names(cols) == [cols[0].name] + Names(cols[1..]);
      if c.Appended? {
        assert r.values == [c.value] + rest.values;
        assert kept == [cols[0]] + kept';
        forall k | 0 <= k < |r.values|
          ensures Coerce(kept[k], scan) == Appended(r.values[k]) && WireOf(r.values[k]) == kept[k].value
        {
          if k > 0 {
            assert r.values[k] == rest.values[k - 1] && kept[k] == kept'[k - 1];
          }
        }
      } else {
        assert r.values == rest.values && kept == kept';
      }
    }
  }

  /** A failed row reports the first column whose coercion fails. */
  lemma {:induction false} RowFailsAtFirstBadColumn(cols: seq<Column>, scan: Scanner)
    requires RowOf(cols, scan).RowFailed?
    ensures exists i :: 0 <= i < |cols| && Coerce(cols[i], scan) == Failed(RowOf(cols, scan).error)
                        && forall j :: 0 <= j < i ==> !Coerce(cols[j], scan).Failed?
  {
    if !Coerce(cols[0], scan).Failed? {
      RowFailsAtFirstBadColumn(cols[1..], scan);
      var i :| 0 <= i < |cols| - 1 && Coerce(cols[1..][i], scan) == Failed(RowOf(cols[1..], scan).error)
                && forall j :: 0 <= j < i ==> !Coerce(cols[1..][j], scan).Failed?;
      assert forall j :: 1 <= j < i + 1 ==> cols[j] == cols[1..][j - 1];
      assert Coerce(cols[i + 1], scan) == Failed(RowOf(cols, scan).error);
    } else {
      assert Coerce(cols[0], scan) == Failed(RowOf(cols, scan).error);
    }
  }

  lemma RowOfSuffix(cols: seq<Column>, i: nat, scan: Scanner)
    requires i < |cols|
    ensures RowOf(cols[i..], scan) == Extend(cols[i].name, Coerce(cols[i], scan), RowOf(cols[i + 1..], scan))
  {
  }

  /** What is already collected stays in front of one more column's contribution. */
  lemma PrependExtend(names: seq<string>, values: seq<Value>, name: string, c: Coerced, rest: RowResult)
    ensures c.Failed? ==> Prepend(names, values, Extend(name, c, rest)) == RowFailed(c.error)
    ensures c.Dropped? ==> Prepend(names, values, Extend(name, c, rest)) == Prepend(names + [name], values, rest)
    ensures c.Appended? ==>
      Prepend(names, values, Extend(name, c, rest)) == Prepend(names + [name], values + [c.value], rest)
  {
  }

  /** The column loop: records each name, then appends the value of a
      recognised column; the first failing column stops it. */
  method BuildRow(cols: seq<Column>, scan: Scanner) returns (r: RowResult)
    ensures r == RowOf(cols, scan)
  {
    var names: seq<string> := [];
    var values: seq<Value> := [];
    var i := 0;
    while i < |cols|
      invariant 0 <= i <= |cols|
      invariant RowOf(cols, scan) == Prepend(names, values, RowOf(cols[i..], scan))
    {
      var c := Coerce(cols[i], scan);
      RowOfSuffix(cols, i, scan);
      PrependExtend(names, values, cols[i].name, c, RowOf(cols[i + 1..], scan));
      if c.Failed? {
        return RowFailed(c.error);
      }
      names := names + [cols[i].name];
      if c.Appended? {
        values := values + [c.value];
      }
      i := i + 1;
    }
    assert cols[i..] == [];
    r := Row(names, values);
  }
}
