// SQLite values as the sqlite3 module binds them, the column affinities of the `runs` and
// `sessions` tables (multinav/muse_log.py), and SQLite's comparison rules for `=` and
// `ORDER BY`.
module Sql {
  import opened Common
  import opened PyJson

  /** A stored SQLite value. BLOBs never occur: no Python value here binds to one. */
  datatype SqlValue = SqlNull | SqlInt(i: int) | SqlReal(r: real) | SqlText(t: string)

  const MinInt64: int := -0x8000_0000_0000_0000
  const MaxInt64: int := 0x7fff_ffff_ffff_ffff

  /** How the sqlite3 module binds a Python value as a statement parameter: `bool` is an
      `int`, an `int` must fit in 64 bits, and lists and dicts are refused. */
  function Bind(v: Json): (r: Result<SqlValue>)
    ensures r.Err? <==> v.JArr? || v.JObj? || (v.JInt? && !(MinInt64 <= v.i <= MaxInt64))
    ensures r.Ok? && r.value == SqlNull <==> v == JNull
    ensures v.JBool? ==> r == Ok(SqlInt(if v.b then 1 else 0))
    ensures v.JInt? && r.Ok? ==> r.value == SqlInt(v.i)
    ensures v.JFloat? ==> r == Ok(SqlReal(v.f))
    ensures v.JStr? ==> r == Ok(SqlText(v.s))
  {
    match v
    case JNull => Ok(SqlNull)
    case JBool(b) => Ok(SqlInt(if b then 1 else 0))
    case JInt(i) =>
      if MinInt64 <= i <= MaxInt64 then Ok(SqlInt(i)) else Err("Python int too large to convert to SQLite INTEGER")
    case JFloat(f) => Ok(SqlReal(f))
    case JStr(s) => Ok(SqlText(s))
    case JArr(_) => Err("Error binding parameter: type 'list' is not supported")
    case JObj(_) => Err("Error binding parameter: type 'dict' is not supported")
  }

  /** Binding a whole parameter tuple: it fails when any one parameter fails. */
  function BindAll(vs: seq<Json>): (r: Result<seq<SqlValue>>)
    ensures r.Ok? ==> |r.value| == |vs|
  {
    if |vs| == 0 then Ok([])
    else
      match BindAll(vs[..|vs| - 1])
      case Err(e) => Err(e)
      case Ok(front) =>
        match Bind(vs[|vs| - 1])
        case Err(e) => Err(e)
        case Ok(last) => Ok(front + [last])
  }

  /** The tuple binds when every parameter binds, to the parameters' own bound values. */
  lemma {:induction false} BindAllBinds(vs: seq<Json>)
    ensures BindAll(vs).Ok? <==> forall i :: 0 <= i < |vs| ==> Bind(vs[i]).Ok?
    ensures BindAll(vs).Ok? ==> forall i :: 0 <= i < |vs| ==> Bind(vs[i]) == Ok(BindAll(vs).value[i])
  {
    if |vs| > 0 {
      var front := vs[..|vs| - 1];
      BindAllBinds(front);
      assert forall i :: 0 <= i < |front| ==> vs[i] == front[i];
    }
  }

  /** The decimal digits of a natural number. */
  function Digits(n: nat): (r: string)
    ensures |r| > 0 && forall i :: 0 <= i < |r| ==> '0' <= r[i] <= '9'
  {
    if n < 10 then ['0' + (n % 10) as char] else Digits(n / 10) + ['0' + (n % 10) as char]
  }

  /** The number a string of decimal digits spells. */
  function DigitsValue(s: string): nat
    requires forall i :: 0 <= i < |s| ==> '0' <= s[i] <= '9'
  {
    if |s| == 0 then 0 else DigitsValue(s[..|s| - 1]) * 10 + (s[|s| - 1] - '0') as int
  }

  lemma {:induction false} DigitsRoundTrip(n: nat)
    ensures DigitsValue(Digits(n)) == n
  {
    if n >= 10 {
      DigitsRoundTrip(n / 10);
      var s := Digits(n);
      assert s[..|s| - 1] == Digits(n / 10);
    }
  }

  /** SQLite's text form of an integer, `%lld`. */
  function Decimal(i: int): (r: string)
    ensures |r| > 0
    ensures i >= 0 ==> r == Digits(i)
    ensures i < 0 ==> r == "-" + Digits(-i)
  {
    if i < 0 then "-" + Digits(-i) else Digits(i)
  }

  /** Different integers have different text forms, so TEXT affinity keeps integer keys apart. */
  lemma DecimalInjective(i: int, j: int)
    requires Decimal(i) == Decimal(j)
    ensures i == j
  {
    SignMark(i);
    SignMark(j);
    if i < 0 {
      DigitsInjective(-i, -j);
    } else {
      DigitsInjective(i, j);
    }
  }

  lemma DigitsInjective(m: nat, n: nat)
    requires Digits(m) == Digits(n)
    ensures m == n
  {
    var s := Digits(m);
    DigitsRoundTrip(m);
    DigitsRoundTrip(n);
    assert m == DigitsValue(s) == n;
  }

  /** The text form starts with a minus sign exactly for a negative number, and the digits
      of its magnitude follow. */
  lemma SignMark(i: int)
    ensures |Decimal(i)| > 0 && (Decimal(i)[0] == '-' <==> i < 0)
    ensures i < 0 ==> Decimal(i)[1..] == Digits(-i)
  {
    if i < 0 {
      assert ("-" + Digits(-i))[1..] == Digits(-i);
    } else {
      assert '0' <= Digits(i)[0] <= '9';
    }
  }

  /** TEXT affinity: an integer is stored as its decimal text. */
  function TextAffinity(v: SqlValue): (r: SqlValue)
    ensures !r.SqlInt?
    ensures r.SqlNull? <==> v.SqlNull?
  {
    if v.SqlInt? then SqlText(Decimal(v.i)) else v
  }

  /** REAL affinity: an integer is stored as a real. */
  function RealAffinity(v: SqlValue): (r: SqlValue)
    ensures !r.SqlInt?
    ensures v.SqlInt? ==> r == SqlReal(v.i as real)
    ensures !v.SqlInt? ==> r == v
  {
    if v.SqlInt? then SqlReal(v.i as real) else v
  }

  /** INTEGER affinity: a real without fractional part that fits in 64 bits is stored as an integer. */
  function IntegerAffinity(v: SqlValue): (r: SqlValue)
    ensures r.SqlReal? ==> r == v
    ensures v.SqlReal? && r.SqlInt? ==> r.i as real == v.r
    ensures !v.SqlReal? ==> r == v
    ensures v.SqlReal? && v.r.Floor as real == v.r && MinInt64 <= v.r.Floor <= MaxInt64 ==> r.SqlInt?
  {
    if v.SqlReal? && v.r.Floor as real == v.r && MinInt64 <= v.r.Floor <= MaxInt64 then SqlInt(v.r.Floor) else v
  }

  /** The storage classes in SQLite's sort order: NULL, then numbers, then text. */
  function Rank(v: SqlValue): nat
  {
    match v
    case SqlNull => 0
    case SqlInt(_) => 1
    case SqlReal(_) => 1
    case SqlText(_) => 2
  }

  function Numeric(v: SqlValue): real
    requires v.SqlInt? || v.SqlReal?
  {
    if v.SqlInt? then v.i as real else v.r
  }

  /** `a = b`: NULL equals nothing, numbers compare by value, text character by character. */
  predicate SqlEq(a: SqlValue, b: SqlValue)
  {
    && Rank(a) == Rank(b) && Rank(a) != 0
    && (if Rank(a) == 1 then Numeric(a) == Numeric(b) else a.t == b.t)
  }

  /** For stored keys (never NULL, never an integer after TEXT affinity) `=` is plain equality. */
  lemma KeyEqualityIsSqlEquality(a: SqlValue, b: SqlValue)
    requires !a.SqlInt? && !b.SqlInt? && a != SqlNull
    ensures SqlEq(a, b) <==> a == b
  {
  }

  /** Text in code point order, as the BINARY collation compares UTF-8. */
  predicate LexLe(s: string, t: string)
  {
    |s| == 0 || (|t| > 0 && (s[0] < t[0] || (s[0] == t[0] && LexLe(s[1..], t[1..]))))
  }

  /** `a <= b` in `ORDER BY` order. */
  predicate SqlLe(a: SqlValue, b: SqlValue)
  {
    if Rank(a) != Rank(b) then Rank(a) < Rank(b)
    else if Rank(a) == 0 then true
    else if Rank(a) == 1 then Numeric(a) <= Numeric(b)
    else LexLe(a.t, b.t)
  }

  lemma {:induction false} LexLeTotal(s: string, t: string)
    ensures LexLe(s, t) || LexLe(t, s)
  {
    if |s| > 0 && |t| > 0 && s[0] == t[0] {
      LexLeTotal(s[1..], t[1..]);
    }
  }

  lemma {:induction false} LexLeTransitive(s: string, t: string, u: string)
    requires LexLe(s, t) && LexLe(t, u)
    ensures LexLe(s, u)
  {
    if |s| > 0 && s[0] == t[0] && t[0] == u[0] {
      LexLeTransitive(s[1..], t[1..], u[1..]);
    }
  }

  lemma SqlLeTotal(a: SqlValue, b: SqlValue)
    ensures SqlLe(a, b) || SqlLe(b, a)
  {
    if a.SqlText? && b.SqlText? {
      LexLeTotal(a.t, b.t);
    }
  }

  lemma SqlLeTransitive(a: SqlValue, b: SqlValue, c: SqlValue)
    requires SqlLe(a, b) && SqlLe(b, c)
    ensures SqlLe(a, c)
  {
    if a.SqlText? && b.SqlText? && c.SqlText? {
      LexLeTransitive(a.t, b.t, c.t);
    }
  }
}
