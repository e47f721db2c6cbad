/** Query::buildInsertBatch() and the literals it writes, and MySQL's rules for reading them
    back (with backslash escapes, the default SQL mode). */
module SqlBatches {
  import opened Numerals
  import opened Wrappers

  datatype Value = Null | Bool(b: bool) | Int(n: int) | Uint(u: nat) | Str(s: string) | Blob(s: string)

  type Row = map<string, Value>

  // ---------------------------------------------------------------- writing

  function EscapeChar(c: char): string {
    if c == '\\' then "\\\\"
    else if c == '\'' then "\\'"
    else if c == '\"' then "\\\""
    else if c == '\0' then "\\0"
    else if c == '\n' then "\\n"
    else if c == '\r' then "\\r"
    else if c == '\U{1a}' then "\\Z"
    else [c]
  }

  function Escape(s: string): string {
    if s == "" then "" else Escape(s[..|s| - 1]) + EscapeChar(s[|s| - 1])
  }

  method MysqlEscape(s: string) returns (out: string)
    ensures out == Escape(s)
  {
    out := "";
    for i := 0 to |s|
      invariant out == Escape(s[..i])
    {
      assert s[..i + 1][..i] == s[..i];
      match s[i]
      case '\\' => out := out + "\\\\";
      case '\'' => out := out + "\\'";
      case '\"' => out := out + "\\\"";
      case '\0' => out := out + "\\0";
      case '\n' => out := out + "\\n";
      case '\r' => out := out + "\\r";
      case '\U{1a}' => out := out + "\\Z";
      case c => out := out + [c];
    }
    assert s[..|s|] == s;
  }

  function Decimal(n: int): string {
    if n < 0 then "-" + Numeral(-n, 10) else Numeral(n, 10)
  }

  /** Value::toSql(), floats aside. */
  function ToSql(v: Value): string {
    match v
    case Null => "NULL"
    case Bool(b) => if b then "1" else "0"
    case Int(n) => Decimal(n)
    case Uint(u) => Decimal(u)
    case Str(s) => "'" + Escape(s) + "'"
    case Blob(s) => "'" + Escape(s) + "'"
  }

  function CellSql(row: Row, key: string): string {
    if key in row then ToSql(row[key]) else "NULL"
  }

  function Commas(parts: seq<string>): string {
    if parts == [] then "" else if |parts| == 1 then parts[0] else parts[0] + "," + Commas(parts[1..])
  }

  function Cells(order: seq<string>, row: Row): (r: seq<string>)
    ensures |r| == |order|
  {
    seq(|order|, i requires 0 <= i < |order| => CellSql(row, order[i]))
  }

  function Tuple(order: seq<string>, row: Row): string { "(" + Commas(Cells(order, row)) + ")" }

  function Tuples(order: seq<string>, rows: seq<Row>): (r: seq<string>)
    ensures |r| == |rows|
  {
    seq(|rows|, i requires 0 <= i < |rows| => Tuple(order, rows[i]))
  }

  function BatchSql(table: string, order: seq<string>, rows: seq<Row>): string {
    "INSERT INTO " + table + " (" + Commas(order) + ") VALUES " + Commas(Tuples(order, rows))
  }

  /** The order in which std::map yields the fields of a row: each once, increasing. */
  ghost predicate IsOrder(order: seq<string>, row: Row) {
    && (forall i, j :: 0 <= i < j < |order| ==> Before(order[i], order[j]))
    && (forall k :: k in row <==> k in order)
  }

  predicate Before(a: string, b: string) {
    b != "" && (a == "" || a[0] < b[0] || (a[0] == b[0] && Before(a[1..], b[1..])))
  }

  lemma {:induction false} CommasAppend(parts: seq<string>, x: string)
    ensures Commas(parts + [x]) == if parts == [] then x else Commas(parts) + "," + x
  {
    if |parts| > 1 {
      CommasAppend(parts[1..], x);
      assert (parts + [x])[1..] == parts[1..] + [x];
      assert parts[0] + "," + (Commas(parts[1..]) + "," + x) == parts[0] + "," + Commas(parts[1..]) + "," + x;
    } else if |parts| == 1 {
      assert (parts + [x])[1..] == [x];
    }
  }

  lemma CommasNext(parts: seq<string>, i: nat)
    requires i < |parts|
    ensures Commas(parts[..i + 1]) == if i == 0 then parts[0] else Commas(parts[..i]) + "," + parts[i]
  {
    CommasAppend(parts[..i], parts[i]);
    assert parts[..i + 1] == parts[..i] + [parts[i]];
  }

  class Query {
    const m_table: string
    var m_lastSql: string

    constructor (table: string)
      ensures m_table == table && m_lastSql == ""
    {
      m_table, m_lastSql := table, "";
    }

    static method Fields(order: seq<string>) returns (fields: string)
      ensures fields == Commas(order)
    {
      fields := "";
      assert order[..0] == [];
      for i := 0 to |order|
        invariant fields == Commas(order[..i])
      {
        CommasNext(order, i);
        if i > 0 {
          fields := fields + ",";
        }
        fields := fields + order[i];
      }
      assert order[..|order|] == order;
    }

    static method RowValues(order: seq<string>, row: Row) returns (sql: string)
      ensures sql == Tuple(order, row)
    {
      sql := "";
      ghost var cells := Cells(order, row);
      assert cells[..0] == [];
      for i := 0 to |order|
        invariant sql == Commas(cells[..i])
      {
        CommasNext(cells, i);
        if i > 0 {
          sql := sql + ",";
        }
        sql := sql + if order[i] in row then ToSql(row[order[i]]) else "NULL";
      }
      assert cells[..|order|] == cells;
      sql := "(" + sql + ")";
    }

    /** `order` is how rows[0] iterates.  Nothing is built from no rows. */
    method BuildInsertBatch(rows: seq<Row>, order: seq<string>) returns (sql: string)
      requires rows != [] ==> IsOrder(order, rows[0])
      modifies this`m_lastSql
      ensures sql == if rows == [] then "" else BatchSql(m_table, order, rows)
      ensures m_lastSql == if rows == [] then old(m_lastSql) else sql
    {
      if rows == [] {
        return "";
      }
      var fields := Fields(order);
      var values := "";
      ghost var tuples := Tuples(order, rows);
      assert tuples[..0] == [];
      for r := 0 to |rows|
        invariant values == Commas(tuples[..r])
      {
        CommasNext(tuples, r);
        if r > 0 {
          values := values + ",";
        }
        var row := RowValues(order, rows[r]);
        values := values + row;
      }
      assert tuples[..|rows|] == tuples;
      sql := "INSERT INTO " + m_table + " (" + fields + ") VALUES " + values;
      m_lastSql := sql;
    }
  }

  // ---------------------------------------------------------------- reading

  datatype Parsed<T> = Parsed(value: T, rest: string) | Bad

  datatype Literal = NullLiteral | Number(n: int) | Text(s: string)

  /** What a backslash and the character after it stand for in a MySQL string. */
  function Unescaped(c: char): string {
    if c == '0' then "\0"
    else if c == 'b' then "\U{8}"
    else if c == 'n' then "\n"
    else if c == 'r' then "\r"
    else if c == 't' then "\t"
    else if c == 'Z' then "\U{1a}"
    else if c == '%' || c == '_' then ['\\', c]
    else [c]
  }

  function Prepend(front: string, p: Parsed<string>): Parsed<string> {
    match p
    case Parsed(s, rest) => Parsed(front + s, rest)
    case Bad => Bad
  }

  /** A string literal after its opening quote; a doubled quote is a quote. */
  function ReadString(t: string): (r: Parsed<string>)
    ensures r.Parsed? ==> |r.rest| < |t|
  {
    if t == "" then Bad
    else if t[0] == '\'' then
      if |t| > 1 && t[1] == '\'' then Prepend("'", ReadString(t[2..])) else Parsed("", t[1..])
    else if t[0] == '\\' then
      if |t| > 1 then Prepend(Unescaped(t[1]), ReadString(t[2..])) else Bad
    else Prepend([t[0]], ReadString(t[1..]))
  }

  predicate IsDecimal(c: char) { '0' <= c <= '9' }

  /** Digits as far as they go; acc is the number in hand. */
  function ReadDigits(t: string, acc: nat): (r: (nat, string))
    ensures |r.1| <= |t|
  {
    if t != "" && IsDecimal(t[0]) then ReadDigits(t[1..], 10 * acc + ValueOf(t[0])) else (acc, t)
  }

  function ReadNumber(t: string): (r: Parsed<int>)
    ensures r.Parsed? ==> |r.rest| < |t|
  {
    if t != "" && IsDecimal(t[0]) then
      var (n, rest) := ReadDigits(t[1..], ValueOf(t[0]));
      Parsed(n, rest)
    else if |t| > 1 && t[0] == '-' && IsDecimal(t[1]) then
      var (n, rest) := ReadDigits(t[2..], ValueOf(t[1]));
      Parsed(0 - n, rest)
    else Bad
  }

  function ReadLiteral(t: string): (r: Parsed<Literal>)
    ensures r.Parsed? ==> |r.rest| < |t|
  {
    if |t| >= 4 && t[..4] == "NULL" then Parsed(NullLiteral, t[4..])
    else if t != "" && t[0] == '\'' then
      (match ReadString(t[1..])
       case Parsed(s, rest) => Parsed(Text(s), rest)
       case Bad => Bad)
    else
      match ReadNumber(t)
      case Parsed(n, rest) => Parsed(Number(n), rest)
      case Bad => Bad
  }

  /** Literals up to the closing parenthesis. */
  function ReadLiterals(t: string): (r: Parsed<seq<Literal>>)
    ensures r.Parsed? ==> |r.rest| < |t|
    decreases |t|
  {
    match ReadLiteral(t)
    case Bad => Bad
    case Parsed(l, rest) =>
      if rest == "" then Bad
      else if rest[0] == ')' then Parsed([l], rest[1..])
      else if rest[0] == ',' then
        match ReadLiterals(rest[1..])
        case Parsed(ls, rest) => Parsed([l] + ls, rest)
        case Bad => Bad
      else Bad
  }

  function ReadTuple(t: string): (r: Parsed<seq<Literal>>)
    ensures r.Parsed? ==> |r.rest| < |t|
  {
    if t == "" || t[0] != '(' then Bad
    else if |t| > 1 && t[1] == ')' then Parsed([], t[2..])
    else ReadLiterals(t[1..])
  }

  /** The list after VALUES, to the end of the statement. */
  function ReadTuples(t: string): Parsed<seq<seq<Literal>>>
    decreases |t|
  {
    match ReadTuple(t)
    case Bad => Bad
    case Parsed(row, rest) =>
      if rest == "" then Parsed([row], "")
      else if rest[0] == ',' then
        match ReadTuples(rest[1..])
        case Parsed(rows, rest) => Parsed([row] + rows, rest)
        case Bad => Bad
      else Bad
  }

  // ---------------------------------------------------------------- written and read back

  /** What a value means as a literal: booleans are the numbers 1 and 0. */
  function Meaning(v: Value): Literal {
    match v
    case Null => NullLiteral
    case Bool(b) => Number(if b then 1 else 0)
    case Int(n) => Number(n)
    case Uint(u) => Number(u)
    case Str(s) => Text(s)
    case Blob(s) => Text(s)
  }

  function CellMeaning(row: Row, key: string): Literal {
    if key in row then Meaning(row[key]) else NullLiteral
  }

  /** One escaped character comes back as itself. */
  lemma EscapedCharRead(c: char, t: string)
    ensures ReadString(EscapeChar(c) + t) == Prepend([c], ReadString(t))
  {
    var e := EscapeChar(c);
    if |e| == 2 {
      assert (e + t)[0] == '\\' && (e + t)[1] == e[1] && (e + t)[2..] == t;
    } else {
      assert (e + t)[0] == c && (e + t)[1..] == t;
    }
  }

  lemma EscapeLast(s: string, c: char, t: string)
    ensures Escape(s + [c]) + t == Escape(s) + (EscapeChar(c) + t)
  {
    assert (s + [c])[..|s|] == s;
  }

  lemma PrependTwice(s: string, c: char, p: Parsed<string>)
    ensures Prepend(s, Prepend([c], p)) == Prepend(s + [c], p)
  {
    if p.Parsed? {
      assert s + ([c] + p.value) == s + [c] + p.value;
    }
  }

  lemma PrependNothing(p: Parsed<string>)
    ensures Prepend("", p) == p
  {
    if p.Parsed? {
      assert "" + p.value == p.value;
    }
  }

  /** An escaped string is read back whole, wherever its quotes, backslashes and control
      characters are, and the reader goes on right after it. */
  lemma {:induction false} EscapedRead(s: string, t: string)
    ensures ReadString(Escape(s) + t) == Prepend(s, ReadString(t))
    decreases |s|
  {
    if s == "" {
      assert Escape(s) + t == t;
      PrependNothing(ReadString(t));
    } else {
      var front, c := s[..|s| - 1], s[|s| - 1];
      assert s == front + [c];
      EscapeLast(front, c, t);
      EscapedRead(front, EscapeChar(c) + t);
      EscapedCharRead(c, t);
      PrependTwice(front, c, ReadString(t));
    }
  }

  /** Up to the closing quote, which is not followed by another one. */
  lemma QuotedRead(s: string, t: string)
    requires Separated(t)
    ensures ReadString(Escape(s) + ("'" + t)) == Parsed(s, t)
  {
    EscapedRead(s, "'" + t);
    ClosingQuote(t);
    assert s + "" == s;
  }

  lemma ClosingQuote(t: string)
    requires Separated(t)
    ensures ReadString("'" + t) == Parsed("", t)
  {
    assert ("'" + t)[1..] == t;
  }

  /** Texts that cannot be taken for a continuation of the literal before them. */
  predicate Separated(t: string) { t != "" && (t[0] == ',' || t[0] == ')') }

  lemma {:induction false} DigitsRoundTrip(s: string, t: string, acc: nat)
    requires Separated(t) && forall i :: 0 <= i < |s| ==> IsDecimal(s[i])
    ensures ReadDigits(s + t, acc) == (ReadDigits(s, acc).0, t)
  {
    if s != "" {
      assert (s + t)[1..] == s[1..] + t;
      DigitsRoundTrip(s[1..], t, 10 * acc + ValueOf(s[0]));
    } else {
      assert s + t == t;
    }
  }

  lemma {:induction false} DigitsAppend(s: string, c: char, acc: nat)
    requires IsDecimal(c) && forall i :: 0 <= i < |s| ==> IsDecimal(s[i])
    ensures ReadDigits(s + [c], acc).0 == 10 * ReadDigits(s, acc).0 + ValueOf(c)
  {
    if s != "" {
      assert (s + [c])[1..] == s[1..] + [c];
      DigitsAppend(s[1..], c, 10 * acc + ValueOf(s[0]));
    } else {
      assert ([c])[1..] == "";
    }
  }

  lemma {:induction false} NumeralRead(n: nat)
    ensures forall i :: 0 <= i < |Numeral(n, 10)| ==> IsDecimal(Numeral(n, 10)[i])
    ensures ReadDigits(Numeral(n, 10), 0).0 == n
  {
    if n < 10 {
      DigitValue(n);
      assert Numeral(n, 10)[1..] == "";
    } else {
      NumeralRead(n / 10);
      DigitValue(n % 10);
      DigitsAppend(Numeral(n / 10, 10), Digit(n % 10), 0);
    }
  }

  /** A numeral starts with a digit; the rest continues the number. */
  lemma NumeralRoundTrip(m: nat, t: string)
    requires Separated(t)
    ensures var s := Numeral(m, 10) + t;
            IsDecimal(s[0]) && ReadDigits(s[1..], ValueOf(s[0])) == (m, t)
  {
    var s := Numeral(m, 10);
    NumeralRead(m);
    DigitsRoundTrip(s, t, 0);
  }

  lemma NumberRoundTrip(n: int, t: string)
    requires Separated(t)
    ensures ReadNumber(Decimal(n) + t) == Parsed(n, t)
  {
    if n < 0 {
      NumeralRoundTrip(-n, t);
      MinusFirst(Numeral(-n, 10), t);
    } else {
      NumeralRoundTrip(n, t);
    }
  }

  lemma MinusFirst(s: string, t: string)
    requires s != ""
    ensures var all := "-" + s + t; all[0] == '-' && all[1] == (s + t)[0] && all[2..] == (s + t)[1..]
  {
  }

  /** Every literal toSql() writes is read back as what the value means, with the text after
      it untouched. */
  lemma LiteralRoundTrip(v: Value, t: string)
    requires Separated(t)
    ensures ReadLiteral(ToSql(v) + t) == Parsed(Meaning(v), t)
  {
    match v
    case Null => assert ("NULL" + t)[..4] == "NULL" && ("NULL" + t)[4..] == t;
    case Bool(b) => IntegerRoundTrip(if b then 1 else 0, t);
    case Int(n) => IntegerRoundTrip(n, t);
    case Uint(u) => IntegerRoundTrip(u, t);
    case Str(s) => TextRoundTrip(s, t);
    case Blob(s) => TextRoundTrip(s, t);
  }

  lemma IntegerRoundTrip(n: int, t: string)
    requires Separated(t)
    ensures ReadLiteral(Decimal(n) + t) == Parsed(Number(n), t)
    ensures n == 0 || n == 1 ==> Decimal(n) == (if n == 1 then "1" else "0")
  {
    NumberRoundTrip(n, t);
    var all := Decimal(n) + t;
    NumeralRead(if n < 0 then -n else n);
    assert all[0] == Decimal(n)[0] && all[0] != 'N' && all[0] != '\'';
    assert |all| >= 4 ==> all[..4][0] == all[0] && all[..4] != "NULL";
  }

  lemma TextRoundTrip(s: string, t: string)
    requires Separated(t)
    ensures ReadLiteral("'" + Escape(s) + "'" + t) == Parsed(Text(s), t)
  {
    QuotedRead(s, t);
    QuoteFirst(Escape(s), t);
  }

  lemma QuoteFirst(e: string, t: string)
    ensures var all := "'" + e + "'" + t;
            all[0] == '\'' && all[1..] == e + ("'" + t) && (|all| >= 4 ==> all[..4] != "NULL")
  {
    var all := "'" + e + "'" + t;
    assert |all| >= 4 ==> all[..4][0] == all[0];
  }

  lemma CellRoundTrip(row: Row, key: string, t: string)
    requires Separated(t)
    ensures ReadLiteral(CellSql(row, key) + t) == Parsed(CellMeaning(row, key), t)
    ensures CellSql(row, key) != "" && CellSql(row, key)[0] != ')'
  {
    if key in row {
      LiteralRoundTrip(row[key], t);
      LiteralFirst(row[key]);
    } else {
      LiteralRoundTrip(Null, t);
    }
  }

  lemma LiteralFirst(v: Value)
    ensures ToSql(v) != "" && ToSql(v)[0] != ')'
  {
    match v
    case Int(n) => NumeralRead(if n < 0 then -n else n);
    case Uint(u) => NumeralRead(u);
    case Null =>
    case Bool(_) =>
    case Str(_) =>
    case Blob(_) =>
  }

  function Meanings(order: seq<string>, row: Row): (r: seq<Literal>)
    ensures |r| == |order|
  {
    seq(|order|, i requires 0 <= i < |order| => CellMeaning(row, order[i]))
  }

  function Table(order: seq<string>, rows: seq<Row>): (r: seq<seq<Literal>>)
    ensures |r| == |rows|
  {
    seq(|rows|, i requires 0 <= i < |rows| => Meanings(order, rows[i]))
  }

  /** Commas() cut after its first part, with a tail. */
  lemma CommasFirst(parts: seq<string>, t: string)
    requires parts != []
    ensures Commas(parts) + t == parts[0] + if |parts| == 1 then t else "," + (Commas(parts[1..]) + t)
  {
    if |parts| > 1 {
      var rest := Commas(parts[1..]);
      Reassociate(parts[0] + ",", rest, t);
      Reassociate(parts[0], ",", rest + t);
    }
  }

  lemma CellsFirst(order: seq<string>, row: Row, t: string)
    requires order != []
    ensures Commas(Cells(order, row)) + t ==
            CellSql(row, order[0]) + if |order| == 1 then t else "," + (Commas(Cells(order[1..], row)) + t)
    ensures Meanings(order, row) == [CellMeaning(row, order[0])] + Meanings(order[1..], row)
  {
    CommasFirst(Cells(order, row), t);
    assert Cells(order, row)[1..] == Cells(order[1..], row);
  }

  /** One literal with others after it. */
  lemma LiteralsNext(text: string, l: Literal, next: string, ls: seq<Literal>, t: string)
    requires ReadLiteral(text) == Parsed(l, "," + next) && ReadLiterals(next) == Parsed(ls, t)
    ensures ReadLiterals(text) == Parsed([l] + ls, t)
  {
    assert ("," + next)[0] == ',' && ("," + next)[1..] == next;
  }

  lemma LastLiteral(text: string, l: Literal, t: string)
    requires ReadLiteral(text) == Parsed(l, ")" + t)
    ensures ReadLiterals(text) == Parsed([l], t)
  {
    assert (")" + t)[0] == ')' && (")" + t)[1..] == t;
  }

  lemma {:induction false} LiteralsRoundTrip(order: seq<string>, row: Row, t: string)
    requires order != []
    ensures ReadLiterals(Commas(Cells(order, row)) + (")" + t)) == Parsed(Meanings(order, row), t)
    decreases |order|
  {
    var close := ")" + t;
    var all, l := Commas(Cells(order, row)) + close, CellMeaning(row, order[0]);
    CellsFirst(order, row, close);
    if |order| == 1 {
      CellRoundTrip(row, order[0], close);
      LastLiteral(all, l, t);
      assert Meanings(order, row) == [l];
    } else {
      var next := Commas(Cells(order[1..], row)) + close;
      CellRoundTrip(row, order[0], "," + next);
      LiteralsRoundTrip(order[1..], row, t);
      LiteralsNext(all, l, next, Meanings(order[1..], row), t);
    }
  }

  lemma TupleRoundTrip(order: seq<string>, row: Row, t: string)
    ensures ReadTuple(Tuple(order, row) + t) == Parsed(Meanings(order, row), t)
  {
    var cells, close := Cells(order, row), ")" + t;
    var body := Commas(cells) + close;
    assert Tuple(order, row) + t == "(" + body && ("(" + body)[1..] == body;
    if order == [] {
      assert body == close && ("(" + close)[2..] == t && Meanings(order, row) == [];
    } else {
      CommasFirst(cells, close);
      CellRoundTrip(row, order[0], close);
      assert body[0] == cells[0][0] != ')';
      LiteralsRoundTrip(order, row, t);
    }
  }

  lemma TuplesFirst(order: seq<string>, rows: seq<Row>)
    requires rows != []
    ensures Commas(Tuples(order, rows)) ==
            Tuple(order, rows[0]) + if |rows| == 1 then "" else "," + Commas(Tuples(order, rows[1..]))
    ensures Table(order, rows) == [Meanings(order, rows[0])] + Table(order, rows[1..])
  {
    var tuples := Tuples(order, rows);
    CommasFirst(tuples, "");
    assert Commas(tuples) + "" == Commas(tuples);
    if |rows| > 1 {
      assert tuples[1..] == Tuples(order, rows[1..]);
      assert Commas(tuples[1..]) + "" == Commas(tuples[1..]);
    }
  }

  /** One tuple with others after it. */
  lemma TuplesNext(text: string, row: seq<Literal>, next: string, rows: seq<seq<Literal>>)
    requires ReadTuple(text) == Parsed(row, "," + next) && ReadTuples(next) == Parsed(rows, "")
    ensures ReadTuples(text) == Parsed([row] + rows, "")
  {
    assert ("," + next)[0] == ',' && ("," + next)[1..] == next;
  }

  /** Batch round trip: MySQL reads the list after VALUES back as the table of the rows by the
      first row's columns, with NULL where a row lacks a column and nothing of what it has
      besides, whatever characters the strings contain. */
  lemma {:induction false} BatchRoundTrip(order: seq<string>, rows: seq<Row>)
    requires rows != []
    ensures ReadTuples(Commas(Tuples(order, rows))) == Parsed(Table(order, rows), "")
    decreases |rows|
  {
    TuplesFirst(order, rows);
    if |rows| == 1 {
      TupleRoundTrip(order, rows[0], "");
      assert Table(order, rows) == [Meanings(order, rows[0])];
    } else {
      var next := Commas(Tuples(order, rows[1..]));
      TupleRoundTrip(order, rows[0], "," + next);
      BatchRoundTrip(order, rows[1..]);
      TuplesNext(Commas(Tuples(order, rows)), Meanings(order, rows[0]), next, Table(order, rows[1..]));
    }
  }
}
