# AI SQL analysis page, modelled in Dafny

`ai_sql_app.py` is a single-page Streamlit app. The user uploads a CSV file.
The page previews its first two rows and loads it into a fresh in-memory
SQLite database as the table `data`. The user then types a question in plain
English, and the page runs three stages:

1. It asks the Gemini language model for one SQL query. The prompt carries
   the question, the table name and the column names joined with `", "`.
   It then cleans up the reply.
2. It shows the cleaned-up query and executes it on the database. It shows
   the rows as a table, or a note that there are none.
3. It sends the question and the rows back to the model and shows the
   explanation it returns.

Any exception in these stages ends the run with one `Error: <message>` box.

The project has four modules:

- `Strings` models Python's `str.strip()`, `str.startswith` and
  `str.replace(p, "")` on `seq<char>`:
  - whitespace is exactly the code points `str.isspace` accepts;
  - `replace` is the leftmost, non-overlapping, left-to-right deletion of
    the pattern.
- `Translator` models the clean-up of the model's reply, quirks included:
  - `sql` is deleted anywhere in a fenced reply, not only as the language
    tag;
  - the deletion is case-sensitive;
  - the clean-up is not idempotent.
- `Columns` models the rendered column list and a reference splitter.
  When no column name contains `", "`, joining followed by splitting gives
  the names back.
- `Pipeline` models one run of the page:
  - a `Connection` class holds the in-memory database;
  - an `App` class holds the page's log of shown widgets and requests to
    the outside world, interleaved in the order they happen;
  - the methods `App.AskQuestion`, `App.RunQuery` and `App.ExplainRows` run
    the question block step by step, one stage each. Their postconditions
    tie them to the functions `Ask`, `Executed` and `Explained`, which state
    each stage's whole log;
  - the lemmas about `Ask` state the short-circuit, single-error and
    no-guard properties.

The language model and the SQL engine are parameters: the `Services`
datatype holds two functions. Each returns a value or the text of the
exception it raised.

## Behaviour worth knowing

- Nothing checks the query between the model and the database. The
  cleaned-up reply goes to `conn.execute` whatever it says
  (`Pipeline.NoGuard`).
- A failure does not clear the page:
  - the SQL is shown before it is executed;
  - the result table is shown before the explanation is requested;
  - so an error box can appear below the SQL or the result table
    (`Pipeline.NoGuard`, `Pipeline.ErrorWhenRaised`).
- The error text is `Error: ` followed by the exception's message. It does
  not say which stage failed.
- The explanation request carries the question and the rows, but not the
  executed SQL (the `ExplainPrompt` case of `Pipeline.Prompt`).
- All fetched rows are sent for explanation; none are capped or summarised.
- The column list in the SQL prompt is ambiguous. One column named `a, b`
  renders exactly like two columns `a` and `b` (`Columns.JoinAmbiguous`).

## Model

| member | source | states |
|---|---|---|
| Strings.IsSpace | ai_sql_app.py:57 | the whitespace `strip()` removes; among ASCII characters it is exactly space, tab, line feed, vertical tab, form feed, carriage return and the separators 0x1C-0x1F |
| Strings.Strip | ai_sql_app.py:57 | `str.strip()`: the result has no whitespace at either end, is no longer than the input, and leaves a string without edge whitespace unchanged |
| Strings.TrimStartDrops | ai_sql_app.py:57 | the leading part `strip()` removes is all whitespace, and what remains is the rest of the text unchanged |
| Strings.TrimEndDrops | ai_sql_app.py:57 | the trailing part `strip()` removes is all whitespace, and what remains is the start of the text unchanged |
| Strings.StripKeeps | ai_sql_app.py:57 | stripping removes only whitespace: every other character survives, in order |
| Strings.StripAround | ai_sql_app.py:57 | whitespace around a string with no edge whitespace is exactly what `strip()` removes |
| Strings.StartsWithAt | ai_sql_app.py:60 | `startswith(p)` holds exactly when the text is at least as long as `p` and agrees with it position by position |
| Strings.DeleteAll | ai_sql_app.py:61 | `replace(p, "")` never lengthens the text |
| Strings.DeleteAllKeeps | ai_sql_app.py:61 | `replace(p, "")` removes only characters of `p`: every other character survives, in order |
| Strings.DeleteAllAbsent | ai_sql_app.py:61 | `replace(p, "")` leaves a string in which `p` never occurs unchanged |
| Strings.DeleteAllCopies | ai_sql_app.py:61 | a stretch holding no first character of `p` is copied unchanged, whatever follows it |
| Translator.NormalizeSql | ai_sql_app.py:57-63 | the query made from the reply never has whitespace at either end and is never longer than the reply |
| Translator.NormalizeUnfenced | ai_sql_app.py:57-63 | a reply that does not start with a fence after stripping is only stripped: all non-whitespace is kept, lower-case `sql` included, and a second clean-up changes nothing |
| Translator.NormalizeKeepsPlain | ai_sql_app.py:57-63 | in every case, only whitespace, backticks and the letters `s`, `q`, `l` are deleted; every other character survives in order, so upper-case `SELECT` and `SQL` are never touched |
| Translator.FencedBlock | ai_sql_app.py:60-61 | one fenced block whose body has no backtick yields the body with every `sql` deleted, stripped |
| Translator.FencedQuery | ai_sql_app.py:57-63 | a block fenced and tagged `sql` around a query with no backtick, no lower-case `sql` and no edge whitespace yields exactly the query |
| Translator.FencedQueryExample | ai_sql_app.py:57-63 | the reply "```sql\nSELECT 1\n```" yields `SELECT 1` |
| Translator.FencedScoreExample | ai_sql_app.py:57-61 | "```sql\nSELECT AVG(score) FROM data\n```" yields `SELECT AVG(score) FROM data`: a lower-case `s` outside `sql` is kept |
| Translator.FencedQueryLosesSql | ai_sql_app.py:61 | when neither `front` nor `back` holds a backtick or a lower-case `s`, an `sql` between them is deleted along with the tag: the reply tagged `sql` with body `front + "sql" + back` comes back as `front + back`, stripped |
| Translator.FencedQueryLosesSqlExample | ai_sql_app.py:61 | a fenced `SELECT mysql_id FROM data` comes back as `SELECT my_id FROM data` |
| Translator.FencedUpperCaseTag | ai_sql_app.py:61 | the deletion is case-sensitive: for any non-empty query with no backtick, no lower-case `sql` and no edge whitespace, an upper-case `SQL` tag stays at the head of the query |
| Translator.FencedUpperCaseTagExample | ai_sql_app.py:61 | "```SQL\nSELECT 1\n```" yields `SQL\nSELECT 1` |
| Translator.FencedUpperScoreExample | ai_sql_app.py:61 | "```SQL\nSELECT AVG(score) FROM data\n```" yields `SQL\nSELECT AVG(score) FROM data`: the tag and the lower-case `s` both stay |
| Translator.NotIdempotent | ai_sql_app.py:60-61 | the clean-up is not idempotent: "`````sql`" yields "```", which a second clean-up turns into the empty string |
| Columns.JoinColumns | ai_sql_app.py:128 | `", ".join(names)` begins with the first name and ends with the last |
| Columns.SplitColumns | ai_sql_app.py:128 | the reference splitter: its pieces always join back to the text and never contain the separator |
| Columns.SplitJoin | ai_sql_app.py:128 | when no name contains `", "`, splitting the joined list gives back every name, in order: the prompt preserves the column count and order |
| Columns.JoinLength | ai_sql_app.py:128 | the joined list is as long as the names together plus two characters per separator |
| Columns.JoinAmbiguous | ai_sql_app.py:128 | one name `a + ", " + b` and the two names `a`, `b` render to the same list |
| Pipeline.Head | ai_sql_app.py:112 | `df.head(n)` keeps the columns and the first `min(n, rows)` rows |
| Pipeline.Ask | ai_sql_app.py:122-151 | the log of one question is empty exactly when the question is empty, has at most six entries, and otherwise starts with the SQL request carrying the question, `data` and the joined column names, and ends with something shown |
| Pipeline.Executed | ai_sql_app.py:131-151 | once the query is known: it is shown, then executed as it is; the log ends after three entries exactly when execution raised, and always ends with something shown |
| Pipeline.Explained | ai_sql_app.py:138-151 | after execution: three entries; the no-rows note exactly when no rows came back; the explanation request carries the question and all the rows; an error box last exactly when that request raised |
| Pipeline.Alternates | ai_sql_app.py:122-151 | the log of one question has at most six entries and alternates request and shown widget, starting with a request: every request is answered by exactly one thing on the page |
| Pipeline.ShortCircuit | ai_sql_app.py:123-151 | every request except the last one returned normally: a stage runs only after the one before it succeeded |
| Pipeline.SingleOutcome | ai_sql_app.py:123-151 | a non-empty question ends in exactly one explanation or one error box, and no error box appears before the last entry |
| Pipeline.ErrorWhenRaised | ai_sql_app.py:150-151 | the error box appears exactly when the last request raised; it follows that request and reads `Error: ` plus its message |
| Pipeline.PromptCarriesSchema | ai_sql_app.py:128-129 | the first request is the SQL prompt carrying the question, the table name `data` and the joined column names; when no column name contains `", "`, the names can be read back from it |
| Pipeline.NoGuard | ai_sql_app.py:129-135 | the cleaned-up reply is shown and then executed exactly as it is; if execution raises, the query stays on the page above the error |
| Pipeline.ExplainsEvenWithoutRows | ai_sql_app.py:135-148 | after a successful execution, the table with the cursor's column names appears only when rows came back, otherwise the no-rows note. The explanation of the rows is requested either way and shown when it returns |
| Pipeline.Connection.constructor | ai_sql_app.py:115 | `sqlite3.connect(":memory:")` gives an empty database |
| Pipeline.Connection.ReplaceTable | ai_sql_app.py:116 | `to_sql(..., if_exists="replace")` replaces the named table as a whole and keeps the others |
| Pipeline.App.Run | ai_sql_app.py:106-154 | with no upload, only the upload hint is shown. With an upload: the preview of two rows, then a fresh database holding exactly `data`, then the success note, then the question's log as `Ask` states it |
| Pipeline.App.AskQuestion | ai_sql_app.py:122-151 | the question block appends exactly the log `Ask` states, against the connection's tables |
| Pipeline.App.RunQuery | ai_sql_app.py:131-151 | from the moment the query is known: it is shown, executed on the connection's tables, and either an error box follows or the explanation stage runs, as `Executed` states |
| Pipeline.App.ExplainRows | ai_sql_app.py:138-151 | after execution: the rows or the no-rows note, the explanation request, then the explanation or the error box |

## Left out

- The page's layout, headings, styling and the text-input and file-upload
  widgets are not modelled. Each shown item is one `Widget`.
- The Gemini client, `genai.configure`, the API key read from `st.secrets`
  and `get_model` are not modelled. A failure while building the client
  (line 125) is not a separate case; the model treats the client as always
  available.
- The wording of the two prompts is not modelled. A `Prompt` keeps only
  what each one embeds.
- CSV parsing (`pd.read_csv`) is not modelled. `App.Run` receives the
  parsed table. A parse error at line 109 is outside the `try` block and
  would stop the script; the model has no such path.
- A failing `df.to_sql` (line 116) is not modelled: `Connection.ReplaceTable`
  always succeeds. SQLite rejects, for example, two column names that differ
  only in case as duplicates. The call is outside the `try` block, so it would
  stop the script.
- SQLite's query semantics are not modelled. Execution is the `execute`
  function of `Services`, applied to the connection's tables.
- Any change an executed statement makes to the database is not modelled.
  The script builds a fresh database on every rerun, so such a change never
  reaches a later question.
- The rendering of rows in the explanation prompt (Python's `str` of a list
  of tuples) is not modelled. The request carries the rows themselves.
- Streamlit's rerun loop is not modelled. `App.Run` is one run of the
  script.
- Strings.DeleteAll: defined for a non-empty pattern only. The two patterns
  used, the fence and `sql`, are non-empty, and Python's behaviour for an
  empty pattern is never reached.
