/** The commit-time statement builder: one multi-row parameterised INSERT
    and the flat, row-major parameter list that goes with it. */
module Statement {
  import opened Text

  /** The rows one after the other, the row-major order of the parameters. */
  function Flatten<T>(rows: seq<seq<T>>): seq<T>
  {
    if rows == [] then [] else Flatten(rows[..|rows| - 1]) + rows[|rows| - 1]
  }

  /** How many values precede row `i` in the flattened list. */
  function Offset<T>(rows: seq<seq<T>>, i: nat): nat
    requires i <= |rows|
  {
    |Flatten(rows[..i])|
  }

  /** The placeholder for the k-th parameter (counting from 1). */
  function Placeholder(k: nat): string
  {
    "$" + DecimalString(k)
  }

  /** The placeholders of one tuple of `width` values, numbered from `first`. */
  function Placeholders(first: nat, width: nat): seq<string>
  {
    seq(width, j requires 0 <= j < width => Placeholder(first + j))
  }

  function Tuple(first: nat, width: nat): string
  {
    " ( " + Join(", ", Placeholders(first, width)) + " ) "
  }

  /** One value tuple per row; row i's placeholders continue the numbering
      where the previous row's stopped. */
  function Tuples<T>(rows: seq<seq<T>>): seq<string>
  {
    seq(|rows|, i requires 0 <= i < |rows| => Tuple(Offset(rows, i) + 1, |rows[i]|))
  }

  function Header(target: string, columns: string): string
  {
    "insert into " + target + " (" + columns + ") values "
  }

  /** The statement text: the header, then the tuples separated by commas. */
  function QueryText<T>(target: string, columns: string, rows: seq<seq<T>>): string
  {
    Header(target, columns) + Join(",", Tuples(rows))
  }

  lemma {:induction false} FlattenAppend<T>(a: seq<seq<T>>, b: seq<seq<T>>)
    ensures Flatten(a + b) == Flatten(a) + Flatten(b)
    decreases |b|
  {
    if b == [] {
      assert a + b == a;
    } else {
      var b' := b[..|b| - 1];
      assert (a + b)[..|a + b| - 1] == a + b';
      FlattenAppend(a, b');
    }
  }

  /** The numbering runs without gaps: it starts at 0, each row advances it
      by the row's width, and after the last row it equals the parameter count. */
  lemma {:induction false} OffsetsAreConsecutive<T>(rows: seq<seq<T>>, i: nat)
    requires i < |rows|
    ensures Offset(rows, 0) == 0
    ensures Offset(rows, i + 1) == Offset(rows, i) + |rows[i]|
    ensures Offset(rows, |rows|) == |Flatten(rows)|
  {
    assert rows[..i + 1][..i] == rows[..i];
    assert rows[..|rows|] == rows;
  }

  /** Value j of row i is the parameter at position Offset(rows, i) + j of the
      flattened list, and it is exactly the position the placeholder written in
      that slot of tuple i names: `$k` binds the k-th parameter. */
  lemma {:induction false} PlaceholderBindsParameter<T>(rows: seq<seq<T>>, i: nat, j: nat)
    requires i < |rows| && j < |rows[i]|
    ensures var k := Offset(rows, i) + j;
      && k < |Flatten(rows)|
      && Flatten(rows)[k] == rows[i][j]
      && Tuples(rows)[i] == " ( " + Join(", ", Placeholders(Offset(rows, i) + 1, |rows[i]|)) + " ) "
      && Placeholders(Offset(rows, i) + 1, |rows[i]|)[j] == "$" + DecimalString(k + 1)
      && DecimalValue(DecimalString(k + 1)) == k + 1
  {
    var before, after := rows[..i], rows[i + 1..];
    assert rows == before + [rows[i]] + after;
    FlattenAppend(before + [rows[i]], after);
    FlattenAppend(before, [rows[i]]);
    assert [rows[i]][..0] == [];
    assert Placeholders(Offset(rows, i) + 1, |rows[i]|)[j] == Placeholder(Offset(rows, i) + 1 + j);
    DecimalRoundTrip(Offset(rows, i) + j + 1);
  }

  /** A batch of n rows of m values each has n tuples and n * m parameters. */
  lemma {:induction false} UniformBatch<T>(rows: seq<seq<T>>, m: nat)
    requires forall i :: 0 <= i < |rows| ==> |rows[i]| == m
    ensures |Tuples(rows)| == |rows|
    ensures |Flatten(rows)| == |rows| * m
  {
    if rows != [] {
      var init := rows[..|rows| - 1];
      UniformBatch(init, m);
      assert |Flatten(rows)| == |Flatten(init)| + m;
      assert |rows| * m == (|rows| - 1) * m + m;
    }
  }

  /** One pass of the outer loop extends the loop form of the tuple list by
      tuple i and, unless it is the last, its separator. */
  lemma TupleAppended(header: string, done: string, inner: string, tuples: seq<string>, i: nat, query: string)
    requires i < |tuples|
    requires done == header + JoinPrefix(",", tuples, i)
    requires tuples[i] == " ( " + inner + " ) "
    requires query == done + " ( " + inner + " ) " + (if i < |tuples| - 1 then "," else "")
    ensures query == header + JoinPrefix(",", tuples, i + 1)
  {
  }

  /** The inner loop of the builder: appends row's placeholders, numbered
      from `counter` and separated by ", ", to the text, and row's values to
      the parameters. */
  method AppendPlaceholders<T>(query: string, counter: nat, params: seq<T>, row: seq<T>)
    returns (query': string, counter': nat, params': seq<T>)
    ensures query' == query + Join(", ", Placeholders(counter, |row|))
    ensures counter' == counter + |row|
    ensures params' == params + row
  {
    ghost var phs := Placeholders(counter, |row|);
    query', counter', params' := query, counter, params;
    var j := 0;
    while j < |row|
      invariant 0 <= j <= |row|
      invariant params' == params + row[..j]
      invariant counter' == counter + j
      invariant query' == query + JoinPrefix(", ", phs, j)
    {
      assert phs[j] == Placeholder(counter');
      params' := params' + [row[j]];
      query' := query' + ("$" + DecimalString(counter'));
      counter' := counter' + 1;
      if j < |row| - 1 {
        query' := query' + ", ";
      }
      j := j + 1;
      assert row[..j] == row[..j - 1] + [row[j - 1]];
    }
    JoinPrefixComplete(", ", phs);
    assert row[..j] == row;
  }

  /** The commit-time builder: one tuple per row, placeholders numbered on
      from 1 across the rows, parameters collected in the same order. */
  method Build<T>(target: string, columns: string, rows: seq<seq<T>>) returns (query: string, params: seq<T>)
    ensures query == QueryText(target, columns, rows)
    ensures params == Flatten(rows)
  {
    query := Header(target, columns);
    var counter: nat := 1;
    params := [];
    var i := 0;
    while i < |rows|
      invariant 0 <= i <= |rows|
      invariant params == Flatten(rows[..i])
      invariant counter == |params| + 1
      invariant query == Header(target, columns) + JoinPrefix(",", Tuples(rows), i)
    {
      ghost var done := query;
      ghost var inner := Join(", ", Placeholders(counter, |rows[i]|));
      assert Tuples(rows)[i] == " ( " + inner + " ) ";
      query := query + " ( ";
      query, counter, params := AppendPlaceholders(query, counter, params, rows[i]);
      assert rows[..i + 1][..i] == rows[..i];
      query := query + " ) ";
      if i < |rows| - 1 {
        query := query + ",";
      }
      TupleAppended(Header(target, columns), done, inner, Tuples(rows), i, query);
      i := i + 1;
    }
    JoinPrefixComplete(",", Tuples(rows));
    assert rows[..i] == rows;
  }

  lemma SmallPlaceholders()
    ensures Placeholder(1) == "$1" && Placeholder(2) == "$2"
    ensures Placeholder(3) == "$3" && Placeholder(4) == "$4"
  {
  }

  lemma SmallTuples()
    ensures Tuple(1, 2) == " ( $1, $2 ) " && Tuple(3, 2) == " ( $3, $4 ) "
  {
  }

  lemma OnePairText<T>(rows: seq<seq<T>>)
    requires |rows| == 1 && |rows[0]| == 2
    ensures Tuples(rows) == [" ( $1, $2 ) "]
    ensures Flatten(rows) == rows[0]
  {
    assert rows[..0] == [];
    SmallTuples();
    assert Tuples(rows)[0] == Tuple(1, 2);
  }

  lemma TwoPairsText<T>(rows: seq<seq<T>>)
    requires |rows| == 2 && |rows[0]| == 2 && |rows[1]| == 2
    ensures Tuples(rows) == [" ( $1, $2 ) ", " ( $3, $4 ) "]
    ensures Flatten(rows) == rows[0] + rows[1]
  {
    OffsetsAreConsecutive(rows, 0);
    OffsetsAreConsecutive(rows, 1);
    assert rows[..2] == rows;
    SmallTuples();
    assert Tuples(rows)[0] == Tuple(1, 2);
    assert Tuples(rows)[1] == Tuple(3, 2);
  }
}
