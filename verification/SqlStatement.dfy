/** The whole INSERT statement, read back: table, columns and rows. */
module SqlStatements {
  import opened SqlBatches
  import opened Wrappers

  predicate IsMark(c: char) { c == ' ' || c == ',' || c == '(' || c == ')' }

  /** A name that needs no quotes for its extent to be clear. */
  predicate Plain(name: string) { name != "" && forall i :: 0 <= i < |name| ==> !IsMark(name[i]) }

  /** The characters up to the next mark, and the rest. */
  function UpToMark(t: string): (r: (string, string))
    ensures |r.1| <= |t|
  {
    if t == "" || IsMark(t[0]) then ("", t)
    else var (w, rest) := UpToMark(t[1..]); ([t[0]] + w, rest)
  }

  function After(prefix: string, t: string): Option<string> {
    if prefix <= t then Some(t[|prefix|..]) else None
  }

  /** A column list after its opening parenthesis. */
  function ReadColumns(t: string): Parsed<seq<string>>
    decreases |t|
  {
    var (w, rest) := UpToMark(t);
    if w == "" then if rest != "" && rest[0] == ')' then Parsed([], rest[1..]) else Bad
    else if rest == "" then Bad
    else if rest[0] == ')' then Parsed([w], rest[1..])
    else if rest[0] == ',' then
      match ReadColumns(rest[1..])
      case Parsed(ws, rest) => if ws == [] then Bad else Parsed([w] + ws, rest)
      case Bad => Bad
    else Bad
  }

  datatype Insert = Insert(table: string, columns: seq<string>, rows: seq<seq<Literal>>) | NoInsert

  function ReadInsert(t: string): Insert {
    match After("INSERT INTO ", t)
    case None => NoInsert
    case Some(t) =>
      var (table, rest) := UpToMark(t);
      match After(" (", rest)
      case None => NoInsert
      case Some(t) =>
        match ReadColumns(t)
        case Bad => NoInsert
        case Parsed(columns, rest) =>
          match After(" VALUES ", rest)
          case None => NoInsert
          case Some(t) =>
            match ReadTuples(t)
            case Bad => NoInsert
            case Parsed(rows, rest) => if rest == "" then Insert(table, columns, rows) else NoInsert
  }

  lemma AfterPrefix(prefix: string, t: string)
    ensures After(prefix, prefix + t) == Some(t)
  {
    assert (prefix + t)[..|prefix|] == prefix && (prefix + t)[|prefix|..] == t;
  }

  lemma {:induction false} PlainUpToMark(name: string, t: string)
    requires forall i :: 0 <= i < |name| ==> !IsMark(name[i])
    requires t != "" && IsMark(t[0])
    ensures UpToMark(name + t) == (name, t)
  {
    var text := name + t;
    if name == "" {
      assert text == t;
    } else {
      assert text[0] == name[0] && text[1..] == name[1..] + t;
      PlainUpToMark(name[1..], t);
      assert UpToMark(text[1..]) == (name[1..], t);
      assert [text[0]] + name[1..] == name;
    }
  }

  /** One column with others after it. */
  lemma ColumnsNext(text: string, w: string, next: string, ws: seq<string>, t: string)
    requires UpToMark(text) == (w, "," + next) && w != "" && ws != [] && ReadColumns(next) == Parsed(ws, t)
    ensures ReadColumns(text) == Parsed([w] + ws, t)
  {
    assert ("," + next)[0] == ',' && ("," + next)[1..] == next;
  }

  lemma LastColumn(text: string, w: string, t: string)
    requires UpToMark(text) == (w, ")" + t)
    ensures ReadColumns(text) == Parsed(if w == "" then [] else [w], t)
  {
    assert (")" + t)[0] == ')' && (")" + t)[1..] == t;
  }

  lemma AtMostOneColumn(order: seq<string>, t: string)
    requires |order| <= 1 && forall i :: 0 <= i < |order| ==> Plain(order[i])
    ensures ReadColumns(Commas(order) + (")" + t)) == Parsed(order, t)
  {
    var close := ")" + t;
    var w := if order == [] then "" else order[0];
    assert Commas(order) == w && order == if w == "" then [] else [w];
    PlainUpToMark(w, close);
    LastColumn(w + close, w, t);
  }

  lemma {:induction false} ColumnsReadBack(order: seq<string>, t: string)
    requires forall i :: 0 <= i < |order| ==> Plain(order[i])
    ensures ReadColumns(Commas(order) + (")" + t)) == Parsed(order, t)
    decreases |order|
  {
    if |order| <= 1 {
      AtMostOneColumn(order, t);
    } else {
      var w, ws := order[0], order[1..];
      var more := Commas(ws) + (")" + t);
      CommasFirst(order, ")" + t);
      PlainUpToMark(w, "," + more);
      ColumnsReadBack(ws, t);
      ColumnsNext(w + ("," + more), w, more, ws, t);
      assert [w] + ws == order;
    }
  }

  /** Read back, the statement names the table, the first row's columns in order, and the table of
      the rows by these columns. */
  lemma StatementRoundTrip(table: string, order: seq<string>, rows: seq<Row>)
    requires rows != [] && Plain(table) && forall i :: 0 <= i < |order| ==> Plain(order[i])
    ensures ReadInsert(BatchSql(table, order, rows)) == Insert(table, order, Table(order, rows))
  {
    var values := Commas(Tuples(order, rows));
    var afterColumns := " VALUES " + values;
    var columns := Commas(order) + (")" + afterColumns);
    var afterTable := " (" + columns;
    StatementParts(table, order, rows);
    AfterPrefix("INSERT INTO ", table + afterTable);
    assert afterTable[0] == ' ';
    PlainUpToMark(table, afterTable);
    AfterPrefix(" (", columns);
    ColumnsReadBack(order, afterColumns);
    AfterPrefix(" VALUES ", values);
    BatchRoundTrip(order, rows);
  }

  lemma StatementParts(table: string, order: seq<string>, rows: seq<Row>)
    ensures BatchSql(table, order, rows) ==
            "INSERT INTO " + (table + (" (" + (Commas(order) + (")" + (" VALUES " + Commas(Tuples(order, rows)))))))
  {
    var columns, values := Commas(order), Commas(Tuples(order, rows));
    assert ") VALUES " == ")" + " VALUES ";
    Reassociate(")", " VALUES ", values);
    Reassociate(columns, ") VALUES ", values);
    Reassociate(" (", columns, ") VALUES " + values);
    Reassociate(table, " (", columns + (") VALUES " + values));
    Reassociate("INSERT INTO ", table, " (" + (columns + (") VALUES " + values)));
    Reassociate("INSERT INTO " + table, " (", columns + (") VALUES " + values));
    Reassociate("INSERT INTO " + table + " (", columns, ") VALUES " + values);
    Reassociate("INSERT INTO " + table + " (" + columns, ") VALUES ", values);
  }
}
