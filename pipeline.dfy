/**
 * One run of the analysis page: the uploaded table is loaded into a fresh
 * in-memory SQLite database under the name `data`; a non-empty question is
 * turned into SQL by the language model, the cleaned-up SQL is executed as
 * it is, and the fetched rows are sent back to the model for an
 * explanation. Any exception in those steps ends the run with one error
 * box. The language model and the SQL engine are given as functions; the
 * page is a log of what was shown and what was requested, in order.
 */
module Pipeline {
  import opened Strings
  import Translator
  import Columns

  /** The name of the one table the uploaded data is stored under. */
  const TableName: string := "data"

  /** What the page writes in front of an exception's text. */
  const ErrorPrefix: string := "Error: "

  /** How many rows of the upload the preview shows. */
  const PreviewRows: nat := 2

  /** One cell. Real and binary cells are kept as their text. */
  datatype Value = Null | Integer(i: int) | Text(s: string) | Other(repr: string)

  type Row = seq<Value>

  /** A table: column names and rows, both in order. */
  datatype Table = Table(columns: seq<string>, rows: seq<Row>)

  /** What a stage returns: a value, or the text of the exception it raised. */
  datatype Attempt<T> = Ok(value: T) | Raised(message: string)

  datatype Option<T> = None | Some(value: T)

  /** The two requests sent to the language model. Only what each embeds is
      kept: the SQL request carries the question, the table name and the
      rendered column list; the explanation request carries the question and
      the fetched rows, and not the SQL. */
  datatype Prompt =
    | SqlPrompt(question: string, table: string, columns: string)
    | ExplainPrompt(question: string, rows: seq<Row>)

  /** What a cursor yields: the column names of its description and the
      fetched rows. */
  datatype Fetched = Fetched(description: seq<string>, rows: seq<Row>)

  /** The outside world, as functions: the language model answers a prompt
      with text; the SQL engine runs a statement against the tables and
      yields a cursor's result. Either may raise. */
  datatype Services = Services(
    generate: Prompt -> Attempt<string>,
    execute: (map<string, Table>, string) -> Attempt<Fetched>)

  /** A request to the outside world. */
  datatype Call = Generate(prompt: Prompt) | Execute(sql: string)

  /** What the page shows. */
  datatype Widget =
    | UploadHint
    | Preview(head: Table)
    | Loaded
    | GeneratedSql(sql: string)
    | ResultTable(columns: seq<string>, rows: seq<Row>)
    | NoRows
    | Explanation(text: string)
    | ErrorBox(message: string)

  /** The page's log: shown widgets and requests, interleaved as they happen. */
  datatype Event = Show(widget: Widget) | Request(call: Call)

  /** The first rows of a table, as `df.head(n)` gives them. */
  function Head(t: Table, n: nat): (h: Table)
    ensures h.columns == t.columns
    ensures |h.rows| == if |t.rows| < n then |t.rows| else n
    ensures h.rows <= t.rows
  {
    Table(t.columns, if |t.rows| < n then t.rows else t.rows[..n])
  }

  /** Whether a request returns normally. */
  predicate Succeeds(tables: map<string, Table>, svc: Services, c: Call) {
    match c
    case Generate(p) => svc.generate(p).Ok?
    case Execute(sql) => svc.execute(tables, sql).Ok?
  }

  /** The text of the exception a failing request raised. */
  function RaisedMessage(tables: map<string, Table>, svc: Services, c: Call): string
    requires !Succeeds(tables, svc, c)
  {
    match c
    case Generate(p) => svc.generate(p).message
    case Execute(sql) => svc.execute(tables, sql).message
  }

  predicate IsError(e: Event) {
    e.Show? && e.widget.ErrorBox?
  }

  /** The log of one question against `tables`, whose upload has the column
      names `columns`: the body of the page's `try` block with its `except`
      branch. The first stage asks for SQL and cleans up the reply. */
  function Ask(tables: map<string, Table>, columns: seq<string>, question: string, svc: Services): (log: seq<Event>)
    ensures log == [] <==> question == ""
    ensures |log| <= 6
    ensures question != "" ==>
      && log[0] == Request(Generate(SqlPrompt(question, TableName, Columns.JoinColumns(columns))))
      && log[|log| - 1].Show?
  {
    if question == "" then []
    else
      var prompt := SqlPrompt(question, TableName, Columns.JoinColumns(columns));
      [Request(Generate(prompt))] +
      match svc.generate(prompt)
      case Raised(e) => [Show(ErrorBox(ErrorPrefix + e))]
      case Ok(reply) => Executed(tables, question, Translator.NormalizeSql(reply), svc)
  }

  /** The log from the moment the query `sql` is known: it is shown, then
      executed. */
  function Executed(tables: map<string, Table>, question: string, sql: string, svc: Services): (log: seq<Event>)
    ensures 3 <= |log| <= 5
    ensures log[0] == Show(GeneratedSql(sql)) && log[1] == Request(Execute(sql))
    ensures |log| == 3 <==> svc.execute(tables, sql).Raised?
    ensures log[|log| - 1].Show?
  {
    [Show(GeneratedSql(sql)), Request(Execute(sql))] +
    match svc.execute(tables, sql)
    case Raised(e) => [Show(ErrorBox(ErrorPrefix + e))]
    case Ok(fetched) => Explained(question, fetched, svc)
  }

  /** The log after a successful execution: the rows, or a note that there
      are none, then the explanation request and its answer. */
  function Explained(question: string, fetched: Fetched, svc: Services): (log: seq<Event>)
    ensures |log| == 3
    ensures log[0] == Show(NoRows) <==> fetched.rows == []
    ensures log[1] == Request(Generate(ExplainPrompt(question, fetched.rows)))
    ensures log[2].Show?
    ensures log[2].widget.ErrorBox? <==> svc.generate(ExplainPrompt(question, fetched.rows)).Raised?
  {
    var result := if fetched.rows != [] then ResultTable(fetched.description, fetched.rows) else NoRows;
    var explain := ExplainPrompt(question, fetched.rows);
    var last := match svc.generate(explain)
      case Raised(e) => ErrorBox(ErrorPrefix + e)
      case Ok(text) => Explanation(text);
    [Show(result), Request(Generate(explain)), Show(last)]
  }

  lemma ExecutedRaised(tables: map<string, Table>, question: string, sql: string, svc: Services, e: string)
    requires svc.execute(tables, sql) == Raised(e)
    ensures Executed(tables, question, sql, svc)
      == [Show(GeneratedSql(sql)), Request(Execute(sql)), Show(ErrorBox(ErrorPrefix + e))]
  {
  }

  lemma ExecutedOk(tables: map<string, Table>, question: string, sql: string, svc: Services, fetched: Fetched)
    requires svc.execute(tables, sql) == Ok(fetched)
    ensures var tail := Explained(question, fetched, svc);
      && |tail| == 3
      && tail[1] == Request(Generate(ExplainPrompt(question, fetched.rows)))
      && (svc.generate(ExplainPrompt(question, fetched.rows)).Raised? ==>
            tail[2] == Show(ErrorBox(ErrorPrefix + svc.generate(ExplainPrompt(question, fetched.rows)).message)))
      && (svc.generate(ExplainPrompt(question, fetched.rows)).Ok? ==>
            tail[2] == Show(Explanation(svc.generate(ExplainPrompt(question, fetched.rows)).value)))
      && Executed(tables, question, sql, svc)
         == [Show(GeneratedSql(sql)), Request(Execute(sql)), tail[0], tail[1], tail[2]]
  {
    var tail := Explained(question, fetched, svc);
    assert Executed(tables, question, sql, svc) == [Show(GeneratedSql(sql)), Request(Execute(sql))] + tail;
  }

  /** A non-empty question leads to one of three logs: the SQL request
      raised; or the query was shown and its execution raised; or the query
      was shown and executed and the explanation stage ran. */
  lemma AskCases(tables: map<string, Table>, columns: seq<string>, question: string, svc: Services)
    requires question != ""
    ensures var prompt := SqlPrompt(question, TableName, Columns.JoinColumns(columns));
      var log := Ask(tables, columns, question, svc);
      match svc.generate(prompt)
      case Raised(e) => log == [Request(Generate(prompt)), Show(ErrorBox(ErrorPrefix + e))]
      case Ok(reply) =>
        var sql := Translator.NormalizeSql(reply);
        match svc.execute(tables, sql)
        case Raised(e) =>
          log == [Request(Generate(prompt)), Show(GeneratedSql(sql)), Request(Execute(sql)),
                  Show(ErrorBox(ErrorPrefix + e))]
        case Ok(fetched) =>
          var tail := Explained(question, fetched, svc);
          && |tail| == 3
          && tail[1] == Request(Generate(ExplainPrompt(question, fetched.rows)))
          && (tail[2].Show? && (tail[2].widget.ErrorBox? <==> svc.generate(tail[1].call.prompt).Raised?))
          && (tail[2].widget.ErrorBox? ==> tail[2].widget.message == ErrorPrefix + svc.generate(tail[1].call.prompt).message)
          && (tail[2].widget.Explanation? || tail[2].widget.ErrorBox?)
          && !IsError(tail[0])
          && log == [Request(Generate(prompt)), Show(GeneratedSql(sql)), Request(Execute(sql)),
                     tail[0], tail[1], tail[2]]
  {
    var log := Ask(tables, columns, question, svc);
    var prompt := SqlPrompt(question, TableName, Columns.JoinColumns(columns));
    match svc.generate(prompt)
    case Raised(e) =>
    case Ok(reply) =>
      var sql := Translator.NormalizeSql(reply);
      match svc.execute(tables, sql)
      case Raised(e) =>
        ExecutedRaised(tables, question, sql, svc, e);
      case Ok(fetched) =>
        ExecutedOk(tables, question, sql, svc, fetched);
  }

  /** Requests and shown widgets alternate, starting with a request: every
      request is answered by exactly one thing on the page, and nothing is
      shown without a request before it. */
  lemma Alternates(tables: map<string, Table>, columns: seq<string>, question: string, svc: Services)
    ensures var log := Ask(tables, columns, question, svc);
      && |log| % 2 == 0 && |log| <= 6
      && (forall i :: 0 <= i < |log| ==> (log[i].Request? <==> i % 2 == 0))
  {
    var log := Ask(tables, columns, question, svc);
    if question != "" {
      AskCases(tables, columns, question, svc);
      assert |log| == 2 || |log| == 4 || |log| == 6;
      forall i | 0 <= i < |log|
        ensures log[i].Request? <==> i % 2 == 0
      {
      }
    }
  }

  /** The stages run in order and each runs only if the one before it
      returned normally: every request except the last succeeded. */
  lemma ShortCircuit(tables: map<string, Table>, columns: seq<string>, question: string, svc: Services)
    ensures var log := Ask(tables, columns, question, svc);
      forall i, j :: 0 <= i < j < |log| && log[i].Request? && log[j].Request? ==>
        Succeeds(tables, svc, log[i].call)
  {
    if question != "" {
      AskCases(tables, columns, question, svc);
    }
  }

  /** A non-empty question ends in exactly one of an explanation and an
      error box, and no error box is shown before the last entry. */
  lemma SingleOutcome(tables: map<string, Table>, columns: seq<string>, question: string, svc: Services)
    requires question != ""
    ensures var log := Ask(tables, columns, question, svc);
      && |log| >= 2
      && log[|log| - 1].Show?
      && (log[|log| - 1].widget.Explanation? || log[|log| - 1].widget.ErrorBox?)
      && (forall i :: 0 <= i < |log| - 1 ==> !IsError(log[i]))
  {
    AskCases(tables, columns, question, svc);
  }

  /** The error box is shown exactly when the last request raised (by
      `ShortCircuit`, the only one that can have): it follows that request
      and carries its message after `Error: `. */
  lemma ErrorWhenRaised(tables: map<string, Table>, columns: seq<string>, question: string, svc: Services)
    requires question != ""
    ensures var log := Ask(tables, columns, question, svc);
      && |log| >= 2
      && log[|log| - 2].Request?
      && (IsError(log[|log| - 1]) <==> !Succeeds(tables, svc, log[|log| - 2].call))
      && (IsError(log[|log| - 1]) ==>
            log[|log| - 1].widget.message == ErrorPrefix + RaisedMessage(tables, svc, log[|log| - 2].call))
  {
    AskCases(tables, columns, question, svc);
  }

  /** The first request is the SQL prompt, carrying the question, the table
      name `data` and the column names joined in order; when no name
      contains the separator, cutting the list gives the names back. */
  lemma PromptCarriesSchema(tables: map<string, Table>, columns: seq<string>, question: string, svc: Services)
    requires question != ""
    ensures var log := Ask(tables, columns, question, svc);
      |log| > 0 && log[0] == Request(Generate(SqlPrompt(question, TableName, Columns.JoinColumns(columns))))
    ensures |columns| > 0 && (forall i :: 0 <= i < |columns| ==> Columns.NoSeparator(columns[i])) ==>
      Columns.SplitColumns(Columns.JoinColumns(columns)) == columns
  {
    if |columns| > 0 && (forall i :: 0 <= i < |columns| ==> Columns.NoSeparator(columns[i])) {
      Columns.SplitJoin(columns);
    }
  }

  /** Nothing stands between the model's reply and the engine: the cleaned-up
      text is shown and then executed whatever it is, and stays on the page
      if execution raises. */
  lemma NoGuard(tables: map<string, Table>, columns: seq<string>, question: string, svc: Services, reply: string)
    requires question != ""
    requires svc.generate(SqlPrompt(question, TableName, Columns.JoinColumns(columns))) == Ok(reply)
    ensures var log := Ask(tables, columns, question, svc);
      && |log| >= 4
      && log[1] == Show(GeneratedSql(Translator.NormalizeSql(reply)))
      && log[2] == Request(Execute(Translator.NormalizeSql(reply)))
      && (svc.execute(tables, Translator.NormalizeSql(reply)).Raised? ==> |log| == 4)
  {
  }

  /** After a successful execution the result table, with the column names
      of the cursor's description, is shown only when rows came back; an
      explanation of the rows is requested either way. */
  lemma ExplainsEvenWithoutRows(tables: map<string, Table>, columns: seq<string>, question: string, svc: Services, reply: string, fetched: Fetched)
    requires question != ""
    requires svc.generate(SqlPrompt(question, TableName, Columns.JoinColumns(columns))) == Ok(reply)
    requires svc.execute(tables, Translator.NormalizeSql(reply)) == Ok(fetched)
    ensures var log := Ask(tables, columns, question, svc);
      && |log| == 6
      && (fetched.rows != [] ==> log[3] == Show(ResultTable(fetched.description, fetched.rows)))
      && (fetched.rows == [] ==> log[3] == Show(NoRows))
      && log[4] == Request(Generate(ExplainPrompt(question, fetched.rows)))
      && (svc.generate(ExplainPrompt(question, fetched.rows)).Ok? ==>
            log[5] == Show(Explanation(svc.generate(ExplainPrompt(question, fetched.rows)).value)))
  {
  }

  /** An in-memory SQLite connection: its tables by name. */
  class Connection {
    var tables: map<string, Table>

    /** `sqlite3.connect(":memory:")`: a new, empty database. */
    constructor ()
      ensures tables == map[]
    {
      tables := map[];
    }

    /** `to_sql(name, if_exists="replace")`: the table of that name is
        replaced as a whole; the others stay. */
    method ReplaceTable(name: string, t: Table)
      modifies this
      ensures tables == old(tables)[name := t]
      ensures name in tables && tables[name] == t
      ensures forall other :: other != name && other in old(tables) ==> other in tables && tables[other] == old(tables)[other]
    {
      tables := tables[name := t];
    }
  }

  /** The page: its connection (none before an upload) and its log. */
  class App {
    var conn: Connection?
    var log: seq<Event>

    constructor ()
      ensures conn == null && log == []
    {
      conn := null;
      log := [];
    }

    /** One run of the page script with the uploaded table, if any, and the
        question typed so far. */
    method Run(upload: Option<Table>, question: string, svc: Services)
      modifies this
      ensures upload.None? ==> conn == old(conn) && log == old(log) + [Show(UploadHint)]
      ensures upload.Some? ==>
        && conn != null && fresh(conn)
        && conn.tables == map[TableName := upload.value]
        && log == old(log) + [Show(Preview(Head(upload.value, PreviewRows))), Show(Loaded)]
                  + Ask(conn.tables, upload.value.columns, question, svc)
    {
      if upload.None? {
        log := log + [Show(UploadHint)];
        return;
      }
      var df := upload.value;
      log := log + [Show(Preview(Head(df, PreviewRows)))];
      var c := new Connection();
      c.ReplaceTable(TableName, df);
      conn := c;
      log := log + [Show(Loaded)];
      AskQuestion(df.columns, question, svc);
    }

    /** The question-answering block: the statements of the `try` block in
        order, leaving at the first exception with one error box. */
    method AskQuestion(columns: seq<string>, question: string, svc: Services)
      requires conn != null
      modifies this`log
      ensures log == old(log) + Ask(conn.tables, columns, question, svc)
    {
      if question == "" {
        return;
      }
      var prompt := SqlPrompt(question, TableName, Columns.JoinColumns(columns));
      log := log + [Request(Generate(prompt))];
      var reply := svc.generate(prompt);
      if reply.Raised? {
        log := log + [Show(ErrorBox(ErrorPrefix + reply.message))];
        return;
      }
      var sql := Translator.NormalizeSql(reply.value);
      RunQuery(question, sql, svc);
    }

    /** The statements from the moment the query is known: show it, execute
        it, and go on to the explanation if it returned. */
    method RunQuery(question: string, sql: string, svc: Services)
      requires conn != null
      modifies this`log
      ensures log == old(log) + Executed(conn.tables, question, sql, svc)
    {
      log := log + [Show(GeneratedSql(sql))];
      log := log + [Request(Execute(sql))];
      var result := svc.execute(conn.tables, sql);
      if result.Raised? {
        log := log + [Show(ErrorBox(ErrorPrefix + result.message))];
        return;
      }
      ExplainRows(question, result.value, svc);
    }

    /** The statements after a successful execution: show the rows (or say
        there are none) and ask for their explanation. */
    method ExplainRows(question: string, fetched: Fetched, svc: Services)
      modifies this`log
      ensures log == old(log) + Explained(question, fetched, svc)
    {
      var rows := fetched.rows;
      if rows != [] {
        log := log + [Show(ResultTable(fetched.description, rows))];
      } else {
        log := log + [Show(NoRows)];
      }
      var explain := ExplainPrompt(question, rows);
      log := log + [Request(Generate(explain))];
      var explanation := svc.generate(explain);
      if explanation.Raised? {
        log := log + [Show(ErrorBox(ErrorPrefix + explanation.message))];
        return;
      }
      log := log + [Show(Explanation(explanation.value))];
    }
  }
}
