/**
 * The comments service's table (database.go):
 * `comments(id SERIAL PRIMARY KEY, news_id INT NOT NULL, parent_id INT DEFAULT NULL, content TEXT NOT NULL)`,
 * without foreign keys, so any news_id and parent_id is accepted. Rows are
 * kept in insertion order together with the SERIAL sequence's next value.
 * `fault` stands for a failure of the database connection.
 */
module CommentStore {
  import opened Wrappers

  /** models.go's Comment: a missing ParentID (a nil pointer) is None. */
  datatype Comment = Comment(id: int, newsId: int, parentId: Option<int>, content: string)

  /** sql.NullInt64, the form in which a nullable column is scanned. */
  datatype NullInt64 = NullInt64(int64: int, valid: bool)

  /** A stored row: parent_id is NULL or a value. */
  datatype CommentRow = CommentRow(id: int, newsId: int, parentId: NullInt64, content: string)

  datatype DbError = InsertFailed | QueryFailed

  const MinInt4: int := -0x8000_0000
  const MaxInt4: int := 0x7FFF_FFFF

  /** Values PostgreSQL accepts for an INT column (or a parameter compared with one). */
  predicate InInt4(v: int) { MinInt4 <= v <= MaxInt4 }

  /** How the driver binds a *int parameter: nil becomes NULL. */
  function ToColumn(p: Option<int>): (n: NullInt64)
    ensures n.valid <==> p.Some?
    ensures p.Some? ==> n.int64 == p.value
  {
    match p
    case None => NullInt64(0, false)
    case Some(v) => NullInt64(v, true)
  }

  /** The scan loop's mapping back: a valid value becomes a pointer to it, NULL becomes nil. */
  function FromColumn(n: NullInt64): (p: Option<int>)
    ensures p.Some? <==> n.valid
    ensures p.Some? ==> p.value == n.int64
  {
    if n.valid then Some(n.int64) else None
  }

  /** Storing an optional parent and reading it back gives the same optional parent. */
  lemma ParentRoundTrip(p: Option<int>)
    ensures FromColumn(ToColumn(p)) == p
  {
  }

  /** The comment a stored row is read back as. */
  function ToComment(row: CommentRow): Comment
  {
    Comment(row.id, row.newsId, FromColumn(row.parentId), row.content)
  }

  /** A parameter the INT column accepts: news_id and, when present, parent_id within 32 bits. */
  predicate Insertable(c: Comment)
  {
    InInt4(c.newsId) && (c.parentId.Some? ==> InInt4(c.parentId.value))
  }

  /** The rows of news item k, read back as comments, in table order. */
  function CommentsOf(rows: seq<CommentRow>, k: int): (cs: seq<Comment>)
    ensures |cs| <= |rows|
    ensures forall c :: c in cs ==> c.newsId == k
  {
    if rows == [] then []
    else if rows[0].newsId == k then [ToComment(rows[0])] + CommentsOf(rows[1..], k)
    else CommentsOf(rows[1..], k)
  }

  /** A comment is listed for news item k iff some stored row of k reads back as it. */
  lemma {:induction false} CommentsOfMembers(rows: seq<CommentRow>, k: int, c: Comment)
    ensures c in CommentsOf(rows, k) <==> exists i :: 0 <= i < |rows| && rows[i].newsId == k && ToComment(rows[i]) == c
  {
    if rows != [] {
      CommentsOfMembers(rows[1..], k, c);
      if i :| 0 <= i < |rows[1..]| && rows[1..][i].newsId == k && ToComment(rows[1..][i]) == c {
        assert rows[i + 1] == rows[1..][i];
      }
      if i :| 1 <= i < |rows| && rows[i].newsId == k && ToComment(rows[i]) == c {
        assert rows[1..][i - 1] == rows[i];
      }
    }
  }

  /** Every row id appears once and lies below the sequence's next value. */
  predicate TableInvariant(rows: seq<CommentRow>, nextId: int)
  {
    && (forall i, j :: 0 <= i < j < |rows| ==> rows[i].id != rows[j].id)
    && (forall i :: 0 <= i < |rows| ==> rows[i].id < nextId)
  }

  class CommentTable {
    var rows: seq<CommentRow>
    var nextId: int

    ghost predicate Valid()
      reads this
    {
      TableInvariant(rows, nextId)
    }

    /** InitDB's CREATE TABLE IF NOT EXISTS keeps whatever the table already holds. */
    constructor Open(existing: seq<CommentRow>, next: int)
      requires TableInvariant(existing, next)
      ensures Valid() && rows == existing && nextId == next
    {
      rows := existing;
      nextId := next;
    }

    /**
     * SaveComment: INSERT ... RETURNING id. On success exactly one row is
     * appended, carrying the comment's news id, parent (NULL when absent)
     * and content and a new id, which is returned. On an error the result
     * is (0, error) and the table is unchanged.
     */
    method SaveComment(c: Comment, fault: bool) returns (id: int, err: Option<DbError>)
      requires Valid()
      modifies this
      ensures Valid()
      ensures err.Some? <==> fault || !Insertable(c)
      ensures err.Some? ==> id == 0 && rows == old(rows) && nextId == old(nextId)
      ensures err.None? ==>
        && id == old(nextId) && nextId == old(nextId) + 1
        && rows == old(rows) + [CommentRow(id, c.newsId, ToColumn(c.parentId), c.content)]
        && forall i :: 0 <= i < |old(rows)| ==> old(rows)[i].id != id
    {
      if fault || !Insertable(c) {
        return 0, Some(InsertFailed);
      }
      id := nextId;
      nextId := nextId + 1;
      rows := rows + [CommentRow(id, c.newsId, ToColumn(c.parentId), c.content)];
      err := None;
    }

    /**
     * GetCommentsByNewsID: the rows.Next() loop over `WHERE news_id = $1`.
     * The query has no ORDER BY, so only the multiset of comments is
     * promised: every stored comment of that news item, and no other.
     */
    method GetCommentsByNewsID(newsId: int, fault: bool) returns (r: Result<seq<Comment>, DbError>)
      ensures r.Err? <==> fault || !InInt4(newsId)
      ensures r.Ok? ==> multiset(r.value) == multiset(CommentsOf(rows, newsId))
      ensures r.Ok? ==> forall c :: c in r.value ==> c.newsId == newsId
    {
      if fault || !InInt4(newsId) {
        return Err(QueryFailed);
      }
      var comments: seq<Comment> := [];
      var i := 0;
      while i < |rows|
        invariant 0 <= i <= |rows|
        invariant comments + CommentsOf(rows[i..], newsId) == CommentsOf(rows, newsId)
        invariant forall c :: c in comments ==> c.newsId == newsId
      {
        assert rows[i..][1..] == rows[i + 1..];
        var row := rows[i];
        if row.newsId == newsId {
          var comment := Comment(row.id, row.newsId, None, row.content);
          if row.parentId.valid {
            comment := comment.(parentId := Some(row.parentId.int64));
          }
          comments := comments + [comment];
        }
        i := i + 1;
      }
      assert rows[i..] == [];
      r := Ok(comments);
    }
  }

  /**
   * A comment saved into a table and then listed for its news item comes
   * back with the assigned id and with its parent, present or absent,
   * unchanged.
   */
  method SaveThenList(existing: seq<CommentRow>, next: int, c: Comment) returns (id: int, listed: seq<Comment>)
    requires TableInvariant(existing, next) && Insertable(c)
    ensures c.(id := id) in listed
    ensures forall x :: x in listed ==> x.newsId == c.newsId
  {
    var table := new CommentTable.Open(existing, next);
    var err;
    id, err := table.SaveComment(c, false);
    var r := table.GetCommentsByNewsID(c.newsId, false);
    var last := |table.rows| - 1;
    assert ToComment(table.rows[last]) == c.(id := id);
    CommentsOfMembers(table.rows, c.newsId, c.(id := id));
    assert c.(id := id) in multiset(r.value);
    listed := r.value;
  }
}
