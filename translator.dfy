/**
 * The text clean-up that `ask_gemini_for_sql` applies to the language
 * model's reply before the reply is used as a SQL query. The reply is
 * stripped; if it then starts with a code-fence marker, every fence marker
 * and then every lower-case `sql` is deleted and the text is stripped again.
 * Nothing parses, checks or rewrites the query beyond that.
 */
module Translator {
  import opened Strings

  /** The code-fence marker of Markdown. */
  const Fence: string := "```"

  /** The language tag the clean-up deletes; case-sensitive. */
  const Tag: string := "sql"

  /** The query string made from the model's raw reply `text`. It never has
      whitespace at either end and is never longer than the reply. */
  function NormalizeSql(text: string): (sql: string)
    ensures NoEdgeSpace(sql)
    ensures |sql| <= |text|
  {
    var t := Strip(text);
    if StartsWith(t, Fence) then Strip(DeleteAll(DeleteAll(t, Fence), Tag)) else t
  }

  /** A character that none of the clean-up's steps can delete: not
      whitespace, not a backtick and not one of the letters of `sql`. */
  predicate Plain(c: char) {
    !IsSpace(c) && c != '`' && c != 's' && c != 'q' && c != 'l'
  }

  predicate NotSpace(c: char) {
    !IsSpace(c)
  }

  /** When the stripped reply does not start with a fence, the query is the
      stripped reply: every character that is not whitespace is kept, lower-
      case `sql` included, and cleaning the query again changes nothing. */
  lemma NormalizeUnfenced(text: string)
    requires !StartsWith(Strip(text), Fence)
    ensures NormalizeSql(text) == Strip(text)
    ensures Filter(NormalizeSql(text), NotSpace) == Filter(text, NotSpace)
    ensures NormalizeSql(NormalizeSql(text)) == NormalizeSql(text)
  {
    StripKeeps(text, NotSpace);
  }

  /** When the stripped reply starts with a fence, the query is what is left
      after deleting every fence marker, then every lower-case `sql`, then
      stripping. */
  lemma NormalizeFenced(text: string)
    requires StartsWith(Strip(text), Fence)
    ensures NormalizeSql(text) == Strip(DeleteAll(DeleteAll(Strip(text), Fence), Tag))
  {
  }

  /** In every case the clean-up deletes only whitespace, backticks and the
      letters `s`, `q`, `l`: all other characters survive, in order. In
      particular upper-case `SELECT` and `SQL` are never touched. */
  lemma NormalizeKeepsPlain(text: string)
    ensures Filter(NormalizeSql(text), Plain) == Filter(text, Plain)
  {
    var t := Strip(text);
    StripKeeps(text, Plain);
    if StartsWith(t, Fence) {
      var u := DeleteAll(t, Fence);
      var v := DeleteAll(u, Tag);
      DeleteAllKeeps(t, Fence, Plain);
      DeleteAllKeeps(u, Tag, Plain);
      StripKeeps(v, Plain);
    }
  }

  /** A reply that is one fenced block whose body holds no backtick yields
      the body with every lower-case `sql` deleted, stripped: the deletion is
      not limited to a language tag right after the opening fence. */
  lemma FencedBlock(body: string)
    requires Lacks(body, '`')
    ensures NormalizeSql(Fence + body + Fence) == Strip(DeleteAll(body, Tag))
  {
    var x := Fence + body + Fence;
    FencedBlockUnfolds(body, x);
    FencesDeleted(body);
  }

  lemma FencedBlockUnfolds(body: string, x: string)
    requires x == Fence + body + Fence
    ensures NormalizeSql(x) == Strip(DeleteAll(DeleteAll(x, Fence), Tag))
  {
    assert x[0] == '`' && x[|x| - 1] == '`';
    StripAround([], x, []);
    assert [] + x + [] == x;
    assert x[..3] == Fence;
    NormalizeFenced(x);
  }

  lemma FencesDeleted(body: string)
    requires Lacks(body, '`')
    ensures DeleteAll(Fence + body + Fence, Fence) == body
  {
    assert Fence + body + Fence == Fence + (body + Fence);
    DeleteAllFront(Fence, body + Fence);
    DeleteAllCopies(body, Fence, Fence);
    DeleteAllFront(Fence, []);
    assert Fence + [] == Fence;
    assert body + [] == body;
  }

  /** Deleting `sql` from a tag followed by text without an `s` leaves the
      text. */
  lemma TagDeleted(rest: string)
    requires Lacks(rest, 's')
    ensures DeleteAll(Tag + rest, Tag) == rest
  {
    DeleteAllFront(Tag, rest);
    DeleteAllCopies(rest, [], Tag);
    assert rest + [] == rest;
  }

  /** The steps of a reply laid out as fence, `head`, newline, `q`, newline,
      fence: first the fences go. */
  lemma FencedLines(head: string, q: string, reply: string)
    requires Lacks(head, '`') && Lacks(q, '`')
    requires reply == Fence + head + "\n" + q + "\n" + Fence
    ensures NormalizeSql(reply) == Strip(DeleteAll(head + "\n" + q + "\n", Tag))
  {
    var body := head + "\n" + q + "\n";
    assert reply == Fence + body + Fence;
    assert Lacks(body, '`');
    FencedBlock(body);
  }

  lemma StripLines(q: string)
    requires NoEdgeSpace(q)
    ensures Strip("\n" + q + "\n") == q
  {
    StripAround("\n", q, "\n");
  }

  /** The reply the prompt most often gets back, a fenced block tagged `sql`
      around a query with no backtick and no lower-case `sql` in it, yields
      exactly the query. */
  lemma FencedQuery(q: string, reply: string)
    requires Lacks(q, '`') && (forall i :: !OccursAt(q, Tag, i)) && NoEdgeSpace(q)
    requires reply == Fence + Tag + "\n" + q + "\n" + Fence
    ensures NormalizeSql(reply) == q
  {
    FencedLines(Tag, q, reply);
    TagLineDeleted(q);
    StripLines(q);
  }

  lemma TagLineDeleted(q: string)
    requires forall i :: !OccursAt(q, Tag, i)
    ensures DeleteAll(Tag + "\n" + q + "\n", Tag) == "\n" + q + "\n"
  {
    var w := "\n" + q + "\n";
    assert Tag + "\n" + q + "\n" == Tag + w;
    DeleteAllFront(Tag, w);
    forall i | OccursAt(w, Tag, i)
      ensures false
    {
      TagInside(q, i);
    }
    DeleteAllAbsent(w, Tag);
  }

  /** An `sql` in a line is an `sql` in the line's text: the newlines around
      it are no letters of the tag. */
  lemma TagInside(q: string, i: int)
    requires OccursAt("\n" + q + "\n", Tag, i)
    ensures OccursAt(q, Tag, i - 1)
  {
    var w := "\n" + q + "\n";
    TagLetters(w, i);
    assert 1 <= i && i + 3 <= |w| - 1;
    assert q[i - 1..i + 2] == w[i..i + 3];
  }

  /** An `sql` found at `i` spells out its three letters there. */
  lemma TagLetters(s: string, i: int)
    requires OccursAt(s, Tag, i)
    ensures s[i] == 's' && s[i + 1] == 'q' && s[i + 2] == 'l'
  {
    assert s[i..i + 3] == Tag;
    assert s[i] == s[i..i + 3][0];
    assert s[i + 1] == s[i..i + 3][1];
    assert s[i + 2] == s[i..i + 3][2];
  }

  /** A text missing one of the letters of `sql` holds no `sql`. */
  lemma NoTag(q: string)
    requires Lacks(q, 's') || Lacks(q, 'q') || Lacks(q, 'l')
    ensures forall i :: !OccursAt(q, Tag, i)
  {
    forall i | OccursAt(q, Tag, i)
      ensures false
    {
      TagLetters(q, i);
    }
  }

  lemma FencedQueryExample(reply: string)
    requires reply == "```sql\nSELECT 1\n```"
    ensures NormalizeSql(reply) == "SELECT 1"
  {
    var q := "SELECT 1";
    assert Lacks(q, '`') && Lacks(q, 's');
    NoTag(q);
    assert reply == Fence + Tag + "\n" + q + "\n" + Fence;
    FencedQuery(q, reply);
  }

  /** A query with a lower-case `s` but no `sql` also comes back unchanged
      from the reply "```sql\nSELECT AVG(score) FROM data\n```". */
  lemma FencedScoreExample(q: string, reply: string)
    requires q == "SELECT AVG(score) FROM data"
    requires reply == Fence + Tag + "\n" + q + "\n" + Fence
    ensures NormalizeSql(reply) == "SELECT AVG(score) FROM data"
  {
    ScoreLacks(q);
    NoTag(q);
    FencedQuery(q, reply);
  }

  lemma ScoreLacks(q: string)
    requires q == "SELECT AVG(score) FROM data"
    ensures Lacks(q, '`') && Lacks(q, 'q') && NoEdgeSpace(q)
  {
  }

  /** A lower-case `sql` anywhere in the body is deleted along with the tag:
      the body `front + "sql" + back` comes back as `front + back`,
      stripped. */
  lemma FencedQueryLosesSql(front: string, back: string, reply: string)
    requires Lacks(front, '`') && Lacks(front, 's') && Lacks(back, '`') && Lacks(back, 's')
    requires reply == Fence + Tag + front + Tag + back + Fence
    ensures NormalizeSql(reply) == Strip(front + back)
  {
    var body := Tag + front + Tag + back;
    InnerTagShape(front, back, reply);
    FencedBlock(body);
    TagsDeleted(front, back);
  }

  lemma InnerTagShape(front: string, back: string, reply: string)
    requires Lacks(front, '`') && Lacks(back, '`')
    requires reply == Fence + Tag + front + Tag + back + Fence
    ensures reply == Fence + (Tag + front + Tag + back) + Fence
    ensures Lacks(Tag + front + Tag + back, '`')
  {
  }

  lemma TagsDeleted(front: string, back: string)
    requires Lacks(front, 's') && Lacks(back, 's')
    ensures DeleteAll(Tag + front + Tag + back, Tag) == front + back
  {
    assert Tag + front + Tag + back == Tag + (front + (Tag + back));
    DeleteAllFront(Tag, front + (Tag + back));
    DeleteAllCopies(front, Tag + back, Tag);
    TagDeleted(back);
  }

  lemma FencedQueryLosesSqlExample(reply: string)
    requires reply == "```sql\nSELECT mysql_id FROM data\n```"
    ensures NormalizeSql(reply) == "SELECT my_id FROM data"
  {
    var front, back := "\nSELECT my", "_id FROM data\n";
    MysqlReplyShape(front, back, reply);
    MysqlLacks(front, back);
    FencedQueryLosesSql(front, back, reply);
    MysqlStripped(front, back);
  }

  lemma MysqlReplyShape(front: string, back: string, reply: string)
    requires front == "\nSELECT my" && back == "_id FROM data\n"
    requires reply == "```sql\nSELECT mysql_id FROM data\n```"
    ensures reply == Fence + Tag + front + Tag + back + Fence
  {
  }

  lemma MysqlLacks(front: string, back: string)
    requires front == "\nSELECT my" && back == "_id FROM data\n"
    ensures Lacks(front, '`') && Lacks(front, 's') && Lacks(back, '`') && Lacks(back, 's')
  {
  }

  lemma MysqlStripped(front: string, back: string)
    requires front == "\nSELECT my" && back == "_id FROM data\n"
    ensures Strip(front + back) == "SELECT my_id FROM data"
  {
    assert front + back == "\n" + "SELECT my_id FROM data" + "\n";
    StripLines("SELECT my_id FROM data");
  }

  /** The tag deletion is case-sensitive: an upper-case tag stays at the
      head of any query without a backtick or a lower-case `sql`. */
  lemma FencedUpperCaseTag(q: string, reply: string)
    requires q != [] && Lacks(q, '`') && (forall i :: !OccursAt(q, Tag, i)) && NoEdgeSpace(q)
    requires reply == Fence + "SQL" + "\n" + q + "\n" + Fence
    ensures NormalizeSql(reply) == "SQL\n" + q
  {
    FencedLines("SQL", q, reply);
    UpperTagKept(q);
  }

  lemma UpperTagKept(q: string)
    requires q != [] && (forall i :: !OccursAt(q, Tag, i)) && NoEdgeSpace(q)
    ensures Strip(DeleteAll("SQL" + "\n" + q + "\n", Tag)) == "SQL\n" + q
  {
    var body := "SQL\n" + q + "\n";
    assert "SQL" + "\n" + q + "\n" == body;
    UpperBodyKept(q);
    assert body == [] + ("SQL\n" + q) + "\n";
    assert ("SQL\n" + q)[0] == 'S';
    assert ("SQL\n" + q)[|"SQL\n" + q| - 1] == q[|q| - 1];
    StripAround([], "SQL\n" + q, "\n");
  }

  /** Deleting `sql` leaves the upper-case tag line and the query alone. */
  lemma UpperBodyKept(q: string)
    requires forall i :: !OccursAt(q, Tag, i)
    ensures DeleteAll("SQL\n" + q + "\n", Tag) == "SQL\n" + q + "\n"
  {
    var body := "SQL\n" + q + "\n";
    forall i | OccursAt(body, Tag, i)
      ensures false
    {
      UpperInside(q, i);
    }
    DeleteAllAbsent(body, Tag);
  }

  /** An `sql` after the upper-case tag line is an `sql` in the query: none
      of `S`, `Q`, `L` and the newlines is a letter of the tag. */
  lemma UpperInside(q: string, i: int)
    requires OccursAt("SQL\n" + q + "\n", Tag, i)
    ensures OccursAt(q, Tag, i - 4)
  {
    var w := "SQL\n" + q + "\n";
    TagLetters(w, i);
    assert w[0] == 'S' && w[1] == 'Q' && w[2] == 'L' && w[3] == '\n';
    assert w[|w| - 1] == '\n';
    assert 4 <= i && i + 3 <= |w| - 1;
    assert q[i - 4..i - 1] == w[i..i + 3];
  }

  lemma FencedUpperCaseTagExample(reply: string)
    requires reply == "```SQL\nSELECT 1\n```"
    ensures NormalizeSql(reply) == "SQL\nSELECT 1"
  {
    var q := "SELECT 1";
    UpperReplyShape(q, reply);
    NoTag(q);
    FencedUpperCaseTag(q, reply);
  }

  /** The upper-case tag also stays on a query with a lower-case `s`. */
  lemma FencedUpperScoreExample(q: string, reply: string)
    requires q == "SELECT AVG(score) FROM data"
    requires reply == Fence + "SQL" + "\n" + q + "\n" + Fence
    ensures NormalizeSql(reply) == "SQL\n" + q
  {
    ScoreLacks(q);
    NoTag(q);
    FencedUpperCaseTag(q, reply);
  }

  lemma UpperReplyShape(q: string, reply: string)
    requires q == "SELECT 1"
    requires reply == "```SQL\nSELECT 1\n```"
    ensures q != [] && Lacks(q, '`') && Lacks(q, 's') && NoEdgeSpace(q)
    ensures reply == Fence + "SQL" + "\n" + q + "\n" + Fence
    ensures "SQL\n" + q == "SQL\nSELECT 1"
  {
  }

  /** The clean-up is not idempotent: deleting `sql` after the fences can
      join backticks into a new fence, which a second pass deletes. */
  lemma NotIdempotent(reply: string)
    requires reply == "`````sql`"
    ensures NormalizeSql(reply) == "```"
    ensures NormalizeSql(NormalizeSql(reply)) == ""
  {
    TagJoinsFence(reply);
    EmptyFence();
  }

  lemma TagJoinsFence(reply: string)
    requires reply == "`````sql`"
    ensures NormalizeSql(reply) == Fence
  {
    var rest := "``sql`";
    assert reply == Fence + rest;
    StripAround([], reply, []);
    assert [] + reply + [] == reply;
    assert reply[..3] == Fence;
    NormalizeFenced(reply);
    DeleteAllFront(Fence, rest);
    FenceRemainder(rest);
    StripAround([], Fence, []);
    assert [] + Fence + [] == Fence;
  }

  lemma FenceRemainder(rest: string)
    requires rest == "``sql`"
    ensures DeleteAll(rest, Fence) == rest
    ensures DeleteAll(rest, Tag) == Fence
  {
    assert rest[2] == 's' && rest[..3] != Fence;
    DeleteAllSkip(rest, Fence);
    assert rest[1..] == "`sql`" && rest[1..][..3] != Fence;
    DeleteAllSkip(rest[1..], Fence);
    assert rest[1..][1..] == "sql" + "`";
    assert Lacks("sql", '`');
    DeleteAllCopies("sql", "`", Fence);
    assert rest == "``" + (Tag + "`");
    assert Lacks("``", 's');
    DeleteAllCopies("``", Tag + "`", Tag);
    DeleteAllFront(Tag, "`");
  }

  lemma EmptyFence()
    ensures NormalizeSql(Fence) == ""
  {
    StripAround([], Fence, []);
    assert [] + Fence + [] == Fence;
    DeleteAllFront(Fence, []);
    assert Fence + [] == Fence;
  }
}
