/** String helpers the replay loop relies on: prefix test, joining with a
    separator, and the decimal rendering behind the `$%d` placeholders. */
module Text {

  /** `strings.HasPrefix`. */
  predicate HasPrefix(s: string, prefix: string)
  {
    |prefix| <= |s| && s[..|prefix|] == prefix
  }

  /** `strings.Join`: the parts in order, `sep` between neighbours, nothing
      before the first part or after the last. */
  function Join(sep: string, parts: seq<string>): string
  {
    if |parts| == 0 then ""
    else if |parts| == 1 then parts[0]
    else parts[0] + sep + Join(sep, parts[1..])
  }

  /** What a loop has emitted after visiting the first `j` parts when it writes
      each part followed by `sep` unless that part is the last one. */
  function JoinPrefix(sep: string, parts: seq<string>, j: nat): string
    requires j <= |parts|
  {
    if j == 0 then ""
    else JoinPrefix(sep, parts, j - 1) + parts[j - 1] + (if j < |parts| then sep else "")
  }

  lemma {:induction false} JoinSnoc(sep: string, parts: seq<string>, x: string)
    requires |parts| > 0
    ensures Join(sep, parts + [x]) == Join(sep, parts) + sep + x
  {
    if |parts| == 1 {
      assert parts + [x] == [parts[0], x];
      assert [parts[0], x][1..] == [x];
    } else {
      assert (parts + [x])[1..] == parts[1..] + [x];
      JoinSnoc(sep, parts[1..], x);
    }
  }

  /** After `j` parts the loop form holds the join of those parts, plus one
      pending separator when more parts follow. */
  lemma {:induction false} JoinPrefixIsJoin(sep: string, parts: seq<string>, j: nat)
    requires 0 < j <= |parts|
    ensures JoinPrefix(sep, parts, j) == Join(sep, parts[..j]) + (if j < |parts| then sep else "")
  {
    if j == 1 {
      assert parts[..1] == [parts[0]];
    } else {
      JoinPrefixIsJoin(sep, parts, j - 1);
      assert parts[..j] == parts[..j - 1] + [parts[j - 1]];
      JoinSnoc(sep, parts[..j - 1], parts[j - 1]);
    }
  }

  /** Once every part is visited, the loop form is exactly `strings.Join`:
      no trailing separator. */
  lemma JoinPrefixComplete(sep: string, parts: seq<string>)
    ensures JoinPrefix(sep, parts, |parts|) == Join(sep, parts)
  {
    if |parts| > 0 {
      JoinPrefixIsJoin(sep, parts, |parts|);
      assert parts[..|parts|] == parts;
    }
  }

  lemma JoinTwo(sep: string, a: string, b: string)
    ensures Join(sep, [a, b]) == a + sep + b
  {
  }

  predicate IsDigit(c: char)
  {
    '0' <= c <= '9'
  }

  function DigitChar(d: nat): (c: char)
    requires d < 10
    ensures IsDigit(c)
  {
    ('0' as int + d) as char
  }

  function DigitValue(c: char): nat
  {
    if IsDigit(c) then (c as int - '0' as int) as nat else 0
  }

  /** The `%d` rendering of a non-negative integer: most significant digit
      first, no leading zero. */
  function DecimalString(n: nat): (s: string)
    ensures |s| > 0
    ensures forall i :: 0 <= i < |s| ==> IsDigit(s[i])
    ensures s[0] == '0' ==> n == 0
    decreases n
  {
    if n < 10 then [DigitChar(n)] else DecimalString(n / 10) + [DigitChar(n % 10)]
  }

  /** Reads a string of decimal digits back as a number. */
  function DecimalValue(s: string): nat
  {
    if s == [] then 0 else DecimalValue(s[..|s| - 1]) * 10 + DigitValue(s[|s| - 1])
  }

  /** Reading the rendered digits gives the number back, so distinct
      placeholders carry distinct numbers. */
  lemma {:induction false} DecimalRoundTrip(n: nat)
    ensures DecimalValue(DecimalString(n)) == n
    decreases n
  {
    var s := DecimalString(n);
    if n < 10 {
      assert s[..0] == [];
    } else {
      DecimalRoundTrip(n / 10);
      assert s[..|s| - 1] == DecimalString(n / 10);
    }
  }

  lemma DecimalInjective(m: nat, n: nat)
    requires DecimalString(m) == DecimalString(n)
    ensures m == n
  {
    DecimalRoundTrip(m);
    DecimalRoundTrip(n);
  }
}
