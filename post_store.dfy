/**
 * The news aggregator's post store (pkg/storage): a PostgreSQL table
 * `posts(id SERIAL PRIMARY KEY, title, content, pub_time BIGINT, link UNIQUE)`
 * modelled as a sequence of rows in insertion order, plus the SERIAL
 * sequence's next value. Saving parses the feed's publication date and
 * inserts; a batch runs in one transaction; queries are functions of the
 * table.
 */
module PostStore {
  import opened Wrappers
  import opened Strings
  import opened SqlLike

  /** rss.Post as the feed reader produces it: the date is still text. */
  datatype Post = Post(id: int, title: string, content: string, pubDate: string, link: string)

  /** A row of the posts table; pub_time holds Unix seconds. */
  datatype Row = Row(id: int, title: string, content: string, pubTime: int, link: string)

  /**
   * time.Parse(layout, value) followed by Unix(): Unix seconds, or None when
   * the value does not fit the layout. Date parsing itself is not modelled.
   */
  type TimeParser = (string, string) -> Option<int>

  const RFC1123Z := "Mon, 02 Jan 2006 15:04:05 -0700"
  const RFC1123 := "Mon, 02 Jan 2006 15:04:05 MST"

  /** The layouts tried, in this order. */
  const TimeFormats: seq<string> :=
    [RFC1123Z, RFC1123, "Mon, 2 Jan 2006 15:04:05 -0700", "Mon, 2 Jan 2006 15:04:05 MST"]

  /** The errors the store's methods return. */
  datatype StoreError =
    | CouldNotParseTime          // "couldn't parse publication time"
    | CouldNotInsert             // "couldn't insert post": the UNIQUE link constraint or a driver failure
    | CouldNotBegin              // "could not begin transaction"
    | CouldNotCommit             // tx.Commit() failed
    | CouldNotSavePost(cause: StoreError)  // SavePosts wrapping the failing post's error
    | CouldNotGetPosts           // a rejected SELECT (negative LIMIT or OFFSET)
    | CouldNotGetPost            // a rejected point lookup (an id outside the INTEGER column type)

  const MinInt4: int := -0x8000_0000
  const MaxInt4: int := 0x7FFF_FFFF

  /** Values PostgreSQL accepts for an INTEGER (SERIAL) column. */
  predicate InInt4(v: int) { MinInt4 <= v <= MaxInt4 }

  // ---------------------------------------------------------------------
  // Publication-time parsing

  /** The value of the first layout that parses, or None when none does. */
  function FirstParse(parse: TimeParser, formats: seq<string>, value: string): Option<int>
  {
    if formats == [] then None
    else if parse(formats[0], value).Some? then parse(formats[0], value)
    else FirstParse(parse, formats[1..], value)
  }

  /** FirstParse fails iff every layout fails, and otherwise yields the first layout's success. */
  lemma {:induction false} FirstParseSpec(parse: TimeParser, formats: seq<string>, value: string)
    ensures FirstParse(parse, formats, value).None? <==>
              forall i :: 0 <= i < |formats| ==> parse(formats[i], value).None?
    ensures FirstParse(parse, formats, value).Some? ==>
              exists i :: 0 <= i < |formats| && parse(formats[i], value) == FirstParse(parse, formats, value) &&
                forall j :: 0 <= j < i ==> parse(formats[j], value).None?
  {
    if formats != [] {
      FirstParseSpec(parse, formats[1..], value);
      if parse(formats[0], value).None? {
        if FirstParse(parse, formats, value).Some? {
          var i :| 0 <= i < |formats[1..]| && parse(formats[1..][i], value) == FirstParse(parse, formats, value) &&
                   forall j :: 0 <= j < i ==> parse(formats[1..][j], value).None?;
          assert parse(formats[i + 1], value) == FirstParse(parse, formats, value);
          assert forall j :: 0 <= j < i + 1 ==> parse(formats[j], value).None? by {
            forall j | 0 <= j < i + 1 ensures parse(formats[j], value).None? {
              if j > 0 { assert formats[j] == formats[1..][j - 1]; }
            }
          }
        } else {
          assert forall i :: 0 <= i < |formats| ==> parse(formats[i], value).None? by {
            forall i | 0 <= i < |formats| ensures parse(formats[i], value).None? {
              if i > 0 { assert formats[i] == formats[1..][i - 1]; }
            }
          }
        }
      } else {
        assert parse(formats[0], value) == FirstParse(parse, formats, value);
      }
    }
  }

  /**
   * The layout loop of SavePost and SavePostTx: try each layout in turn and
   * stop at the first that parses.
   */
  method ParsePubTime(parse: TimeParser, pubDate: string) returns (t: Option<int>)
    ensures t == FirstParse(parse, TimeFormats, pubDate)
    ensures t.None? <==> forall i :: 0 <= i < |TimeFormats| ==> parse(TimeFormats[i], pubDate).None?
  {
    FirstParseSpec(parse, TimeFormats, pubDate);
    t := None;
    var k := 0;
    while k < |TimeFormats|
      invariant 0 <= k <= |TimeFormats|
      invariant t.None?
      invariant FirstParse(parse, TimeFormats, pubDate) == FirstParse(parse, TimeFormats[k..], pubDate)
    {
      t := parse(TimeFormats[k], pubDate);
      if t.Some? {
        return;
      }
      assert TimeFormats[k..][1..] == TimeFormats[k + 1..];
      k := k + 1;
    }
  }

  // ---------------------------------------------------------------------
  // The table and its constraints

  /** The UNIQUE index on link already holds this link. */
  predicate LinkTaken(rows: seq<Row>, link: string)
  {
    exists i :: 0 <= i < |rows| && rows[i].link == link
  }

  predicate IdTaken(rows: seq<Row>, id: int)
  {
    exists i :: 0 <= i < |rows| && rows[i].id == id
  }

  /**
   * What the schema and the SERIAL sequence guarantee: links are unique,
   * ids grow in insertion order (hence are unique) and lie below the
   * sequence's next value.
   */
  predicate TableInvariant(rows: seq<Row>, nextId: int)
  {
    && (forall i, j :: 0 <= i < j < |rows| ==> rows[i].link != rows[j].link)
    && (forall i, j :: 0 <= i < j < |rows| ==> rows[i].id < rows[j].id)
    && (forall i :: 0 <= i < |rows| ==> rows[i].id < nextId)
  }

  /** The effect of one or more INSERTs: the error, the rows and the sequence's next value. */
  datatype Outcome = Outcome(err: Option<StoreError>, rows: seq<Row>, nextId: int)

  /**
   * One post saved into a table: parse the date, then INSERT. PostgreSQL
   * draws the SERIAL value before it checks the UNIQUE constraint, so a
   * rejected insert still uses up an id. `fault` is an INSERT the driver
   * or the connection fails before the statement runs: no id is drawn.
   */
  function InsertPost(rows: seq<Row>, nextId: int, post: Post, parse: TimeParser, fault: bool): (o: Outcome)
    ensures o.err == Some(CouldNotParseTime) <==> FirstParse(parse, TimeFormats, post.pubDate).None?
    ensures o.err.Some? ==> o.err.value == CouldNotParseTime || o.err.value == CouldNotInsert
    ensures o.err.Some? ==> o.rows == rows
    ensures fault ==> o.err.Some? && o.nextId == nextId
    ensures o.err.None? ==> |o.rows| == |rows| + 1 && o.rows[..|rows|] == rows && o.rows[|rows|].id == nextId
    ensures o.nextId == nextId || o.nextId == nextId + 1
  {
    match FirstParse(parse, TimeFormats, post.pubDate)
    case None => Outcome(Some(CouldNotParseTime), rows, nextId)
    case Some(t) =>
      if fault then Outcome(Some(CouldNotInsert), rows, nextId)
      else if LinkTaken(rows, post.link) then Outcome(Some(CouldNotInsert), rows, nextId + 1)
      else
        var added := rows + [Row(nextId, post.title, post.content, t, post.link)];
        assert added[..|rows|] == rows;
        Outcome(None, added, nextId + 1)
  }

  /**
   * Saving a post succeeds iff some layout parses its date and its link is
   * new; a failure leaves the rows as they were; a success appends exactly
   * one row carrying the post's fields, the first parsed time and an id no
   * stored row has; the table invariant is kept either way.
   */
  lemma InsertPostSpec(rows: seq<Row>, nextId: int, post: Post, parse: TimeParser, fault: bool)
    requires TableInvariant(rows, nextId)
    ensures var o := InsertPost(rows, nextId, post, parse, fault);
      && TableInvariant(o.rows, o.nextId)
      && o.nextId >= nextId
      && (o.err.None? <==> FirstParse(parse, TimeFormats, post.pubDate).Some? && !fault && !LinkTaken(rows, post.link))
      && (o.err == Some(CouldNotParseTime) <==> forall i :: 0 <= i < |TimeFormats| ==> parse(TimeFormats[i], post.pubDate).None?)
      && (o.err.Some? ==> o.rows == rows)
      && (o.err.None? ==>
            && |o.rows| == |rows| + 1 && o.rows[..|rows|] == rows
            && (var r := o.rows[|rows|];
                && r.title == post.title && r.content == post.content && r.link == post.link
                && Some(r.pubTime) == FirstParse(parse, TimeFormats, post.pubDate)
                && !IdTaken(rows, r.id)))
  {
    FirstParseSpec(parse, TimeFormats, post.pubDate);
  }

  /**
   * The inserts of one transaction, over its working copy of the table: stop
   * at the first post that fails to save. Earlier rows of the batch count for
   * the UNIQUE check of later ones. The INSERT of posts[failAt], if that
   * index is in range, fails in the driver.
   */
  function ApplyBatch(rows: seq<Row>, nextId: int, posts: seq<Post>, parse: TimeParser, failAt: int): (b: Outcome)
    ensures b.err.Some? ==> b.err.value.CouldNotSavePost?
    ensures b.nextId >= nextId
    ensures |rows| <= |b.rows| <= |rows| + |posts| && b.rows[..|rows|] == rows
    ensures b.err.None? ==> |b.rows| == |rows| + |posts|
    decreases |posts|
  {
    if posts == [] then Outcome(None, rows, nextId)
    else
      var o := InsertPost(rows, nextId, posts[0], parse, failAt == 0);
      if o.err.Some? then Outcome(Some(CouldNotSavePost(o.err.value)), o.rows, o.nextId)
      else
        var b := ApplyBatch(o.rows, o.nextId, posts[1..], parse, failAt - 1);
        assert b.rows[..|rows|] == b.rows[..|o.rows|][..|rows|];
        b
  }

  /** The batch from its i-th post on, one insert at a time. */
  lemma ApplyBatchStep(rows: seq<Row>, nextId: int, posts: seq<Post>, i: nat, parse: TimeParser, failAt: int)
    requires i < |posts|
    ensures var o := InsertPost(rows, nextId, posts[i], parse, i == failAt);
      ApplyBatch(rows, nextId, posts[i..], parse, failAt - i)
      == if o.err.Some? then Outcome(Some(CouldNotSavePost(o.err.value)), o.rows, o.nextId)
         else ApplyBatch(o.rows, o.nextId, posts[i + 1..], parse, failAt - (i + 1))
  {
    assert posts[i..][0] == posts[i] && posts[i..][1..] == posts[i + 1..];
  }

  /** Every post of the batch parses, and no two posts and no stored row share a link. */
  predicate BatchAcceptable(rows: seq<Row>, posts: seq<Post>, parse: TimeParser)
  {
    && (forall i :: 0 <= i < |posts| ==> FirstParse(parse, TimeFormats, posts[i].pubDate).Some?)
    && (forall i :: 0 <= i < |posts| ==> !LinkTaken(rows, posts[i].link))
    && (forall i, j :: 0 <= i < j < |posts| ==> posts[i].link != posts[j].link)
  }

  /** The rows a successful batch adds, one per post and in batch order. */
  predicate AddsBatch(before: seq<Row>, after: seq<Row>, posts: seq<Post>, parse: TimeParser)
  {
    && |after| == |before| + |posts|
    && after[..|before|] == before
    && forall i :: 0 <= i < |posts| ==>
         && after[|before| + i].title == posts[i].title
         && after[|before| + i].content == posts[i].content
         && after[|before| + i].link == posts[i].link
         && Some(after[|before| + i].pubTime) == FirstParse(parse, TimeFormats, posts[i].pubDate)
  }

  lemma LinkTakenAppend(rows: seq<Row>, row: Row, link: string)
    ensures LinkTaken(rows + [row], link) <==> LinkTaken(rows, link) || row.link == link
  {
    if LinkTaken(rows + [row], link) {
      var k :| 0 <= k < |rows + [row]| && (rows + [row])[k].link == link;
      if k < |rows| { assert rows[k] == (rows + [row])[k]; }
    }
    if LinkTaken(rows, link) {
      var k :| 0 <= k < |rows| && rows[k].link == link;
      assert (rows + [row])[k] == rows[k];
    }
    if row.link == link {
      assert (rows + [row])[|rows|] == row;
    }
  }

  /** After the first post of a batch is stored, the rest is acceptable iff the whole batch was. */
  lemma AcceptableStep(rows: seq<Row>, row: Row, posts: seq<Post>, parse: TimeParser)
    requires posts != [] && row.link == posts[0].link
    requires FirstParse(parse, TimeFormats, posts[0].pubDate).Some? && !LinkTaken(rows, posts[0].link)
    ensures BatchAcceptable(rows, posts, parse) <==> BatchAcceptable(rows + [row], posts[1..], parse)
  {
    var rest := posts[1..];
    forall i | 0 <= i < |rest| ensures LinkTaken(rows + [row], rest[i].link) <==> LinkTaken(rows, rest[i].link) || rest[i].link == row.link {
      LinkTakenAppend(rows, row, rest[i].link);
    }
    if BatchAcceptable(rows + [row], rest, parse) {
      forall i, j | 0 <= i < j < |posts| ensures posts[i].link != posts[j].link {
        assert posts[j] == rest[j - 1];
        if i > 0 { assert posts[i] == rest[i - 1]; }
      }
      forall i | 0 <= i < |posts| ensures FirstParse(parse, TimeFormats, posts[i].pubDate).Some? && !LinkTaken(rows, posts[i].link) {
        if i > 0 { assert posts[i] == rest[i - 1]; }
      }
    }
    if BatchAcceptable(rows, posts, parse) {
      forall i | 0 <= i < |rest| ensures !LinkTaken(rows + [row], rest[i].link) && FirstParse(parse, TimeFormats, rest[i].pubDate).Some? {
        assert rest[i] == posts[i + 1];
      }
      forall i, j | 0 <= i < j < |rest| ensures rest[i].link != rest[j].link {
        assert rest[i] == posts[i + 1] && rest[j] == posts[j + 1];
      }
    }
  }

  /** The rows added for the rest of a batch, after the row of its first post. */
  lemma AddsStep(rows: seq<Row>, row: Row, after: seq<Row>, posts: seq<Post>, parse: TimeParser)
    requires posts != []
    requires row.title == posts[0].title && row.content == posts[0].content && row.link == posts[0].link
    requires Some(row.pubTime) == FirstParse(parse, TimeFormats, posts[0].pubDate)
    requires AddsBatch(rows + [row], after, posts[1..], parse)
    ensures AddsBatch(rows, after, posts, parse)
  {
    var rest := posts[1..];
    assert after[..|rows|] == (rows + [row])[..|rows|] == rows;
    assert after[|rows|] == (rows + [row])[|rows|] == row;
    forall i | 0 <= i < |posts|
      ensures after[|rows| + i].title == posts[i].title && after[|rows| + i].content == posts[i].content
      ensures after[|rows| + i].link == posts[i].link
      ensures Some(after[|rows| + i].pubTime) == FirstParse(parse, TimeFormats, posts[i].pubDate)
    {
      if i > 0 { assert posts[i] == rest[i - 1] && |rows| + i == |rows + [row]| + (i - 1); }
    }
  }

  /**
   * A batch succeeds iff it is acceptable; then it appends one row per
   * post, keeping every stored row; the invariant holds afterwards either way.
   */
  lemma {:induction false} BatchSucceedsIff(rows: seq<Row>, nextId: int, posts: seq<Post>, parse: TimeParser, failAt: int)
    requires TableInvariant(rows, nextId)
    ensures var b := ApplyBatch(rows, nextId, posts, parse, failAt);
      && TableInvariant(b.rows, b.nextId) && b.nextId >= nextId
      && (b.err.None? <==> BatchAcceptable(rows, posts, parse) && !(0 <= failAt < |posts|))
      && (b.err.None? ==> AddsBatch(rows, b.rows, posts, parse))
    decreases |posts|
  {
    if posts == [] {
      assert rows[..|rows|] == rows;
    } else {
      InsertPostSpec(rows, nextId, posts[0], parse, failAt == 0);
      var o := InsertPost(rows, nextId, posts[0], parse, failAt == 0);
      if o.err.Some? {
        assert !BatchAcceptable(rows, posts, parse) || 0 <= failAt < |posts|;
      } else {
        var row := o.rows[|rows|];
        assert o.rows == rows + [row];
        BatchSucceedsIff(o.rows, o.nextId, posts[1..], parse, failAt - 1);
        AcceptableStep(rows, row, posts, parse);
        var b := ApplyBatch(o.rows, o.nextId, posts[1..], parse, failAt - 1);
        if b.err.None? {
          AddsStep(rows, row, b.rows, posts, parse);
        }
      }
    }
  }

  // ---------------------------------------------------------------------
  // The store object

  /** An open transaction: its working copy of the table. */
  class Tx {
    var rows: seq<Row>

    /** db.Begin(): the transaction starts from the committed table. */
    constructor Begin(committed: seq<Row>)
      ensures rows == committed
    {
      rows := committed;
    }
  }

  class Storage {
    /** The committed rows of the posts table, in insertion order. */
    var rows: seq<Row>
    /** The value the SERIAL sequence hands out next; it is not rolled back. */
    var nextId: int

    ghost predicate Valid()
      reads this
    {
      TableInvariant(rows, nextId)
    }

    /**
     * New after a successful connection: resetTable drops and re-creates the
     * table, so the store starts empty with a fresh sequence starting at 1.
     */
    constructor New()
      ensures Valid() && rows == [] && nextId == 1
    {
      rows := [];
      nextId := 1;
    }

    /**
     * SavePost: parse the date, then insert with the UNIQUE link check of
     * the database; `fault` is a failure of the driver or the connection.
     */
    method SavePost(post: Post, parse: TimeParser, fault: bool) returns (err: Option<StoreError>)
      requires Valid()
      modifies this
      ensures Valid()
      ensures var o := InsertPost(old(rows), old(nextId), post, parse, fault);
              err == o.err && rows == o.rows && nextId == o.nextId
    {
      InsertPostSpec(rows, nextId, post, parse, fault);
      var pubTime := ParsePubTime(parse, post.pubDate);
      if pubTime.None? {
        return Some(CouldNotParseTime);
      }
      if fault {
        return Some(CouldNotInsert);
      }
      var id := nextId;
      nextId := nextId + 1;
      if LinkTaken(rows, post.link) {
        return Some(CouldNotInsert);
      }
      // the Go code also sets post.ID, on its own copy of the post
      rows := rows + [Row(id, post.title, post.content, pubTime.value, post.link)];
      err := None;
    }

    /** SavePostTx: the same steps as SavePost, against the transaction's working copy. */
    method SavePostTx(tx: Tx, post: Post, parse: TimeParser, fault: bool) returns (err: Option<StoreError>)
      requires TableInvariant(tx.rows, nextId)
      modifies tx, this`nextId
      ensures var o := InsertPost(old(tx.rows), old(nextId), post, parse, fault);
              err == o.err && tx.rows == o.rows && nextId == o.nextId
      ensures rows == old(rows)
    {
      var pubTime := ParsePubTime(parse, post.pubDate);
      if pubTime.None? {
        return Some(CouldNotParseTime);
      }
      if fault {
        return Some(CouldNotInsert);
      }
      var id := nextId;
      nextId := nextId + 1;
      if LinkTaken(tx.rows, post.link) {
        return Some(CouldNotInsert);
      }
      tx.rows := tx.rows + [Row(id, post.title, post.content, pubTime.value, post.link)];
      err := None;
    }

    /** The loop of SavePosts: SavePostTx for each post, stopping at the first failure. */
    method InsertAll(tx: Tx, posts: seq<Post>, parse: TimeParser, failAt: int) returns (err: Option<StoreError>)
      requires TableInvariant(tx.rows, nextId)
      modifies tx, this`nextId
      ensures var b := ApplyBatch(old(tx.rows), old(nextId), posts, parse, failAt);
              err == b.err && nextId == b.nextId && (b.err.None? ==> tx.rows == b.rows)
      ensures rows == old(rows)
    {
      var i := 0;
      while i < |posts|
        invariant 0 <= i <= |posts|
        invariant rows == old(rows)
        invariant TableInvariant(tx.rows, nextId)
        invariant ApplyBatch(old(tx.rows), old(nextId), posts, parse, failAt)
               == ApplyBatch(tx.rows, nextId, posts[i..], parse, failAt - i)
      {
        InsertPostSpec(tx.rows, nextId, posts[i], parse, i == failAt);
        ApplyBatchStep(tx.rows, nextId, posts, i, parse, failAt);
        var e := SavePostTx(tx, posts[i], parse, i == failAt);
        if e.Some? {
          return Some(CouldNotSavePost(e.value));
        }
        i := i + 1;
      }
      err := None;
    }

    /**
     * SavePosts: every post inside one transaction; the first failure
     * returns and the deferred Rollback discards the batch's rows (the
     * sequence values drawn stay used); otherwise Commit publishes them.
     * `beginFault` and `commitFault` are failures of db.Begin and of
     * tx.Commit; the INSERT of posts[failAt] fails in the driver.
     */
    method SavePosts(posts: seq<Post>, parse: TimeParser, beginFault: bool, failAt: int, commitFault: bool)
      returns (err: Option<StoreError>)
      requires Valid()
      modifies this
      ensures Valid()
      ensures beginFault ==> err == Some(CouldNotBegin) && rows == old(rows) && nextId == old(nextId)
      ensures !beginFault ==>
              var b := ApplyBatch(old(rows), old(nextId), posts, parse, failAt);
              && nextId == b.nextId
              && (b.err.Some? ==> err == b.err && rows == old(rows))
              && (b.err.None? && commitFault ==> err == Some(CouldNotCommit) && rows == old(rows))
              && (b.err.None? && !commitFault ==> err.None? && rows == b.rows)
    {
      if beginFault {
        return Some(CouldNotBegin);
      }
      BatchSucceedsIff(rows, nextId, posts, parse, failAt);
      var tx := new Tx.Begin(rows);
      var e := InsertAll(tx, posts, parse, failAt);
      if e.Some? {
        // returning runs the deferred tx.Rollback(): the committed rows stay as they were
        return e;
      }
      if commitFault {
        // the deferred Rollback after a failed Commit: nothing is published
        return Some(CouldNotCommit);
      }
      rows := tx.rows;
      err := None;
    }
  }

  // ---------------------------------------------------------------------
  // Queries

  predicate SortedByPubTimeDesc(s: seq<Row>)
  {
    forall i, j :: 0 <= i < j < |s| ==> s[i].pubTime >= s[j].pubTime
  }

  function InsertByPubTime(r: Row, s: seq<Row>): (t: seq<Row>)
    requires SortedByPubTimeDesc(s)
    ensures |t| == |s| + 1
    ensures t[0] == r || (s != [] && t[0] == s[0])
    ensures SortedByPubTimeDesc(t)
    ensures multiset(t) == multiset(s) + multiset{r}
  {
    if s == [] || r.pubTime >= s[0].pubTime then
      ConsSorted(r, s);
      [r] + s
    else
      assert s == [s[0]] + s[1..];
      var rest := InsertByPubTime(r, s[1..]);
      ConsSorted(s[0], rest);
      [s[0]] + rest
  }

  /** A row no older than the head of a sorted sequence can lead it. */
  lemma ConsSorted(x: Row, s: seq<Row>)
    requires SortedByPubTimeDesc(s) && (s == [] || x.pubTime >= s[0].pubTime)
    ensures SortedByPubTimeDesc([x] + s)
  {
    var t := [x] + s;
    forall i, j | 0 <= i < j < |t| ensures t[i].pubTime >= t[j].pubTime {
      assert t[j] == s[j - 1];
      if i > 0 { assert t[i] == s[i - 1]; } else { assert s[0].pubTime >= s[j - 1].pubTime || j == 1; }
    }
  }

  /** ORDER BY pub_time DESC: a permutation of the rows, newest first. */
  function OrderByPubTimeDesc(s: seq<Row>): (t: seq<Row>)
    ensures SortedByPubTimeDesc(t)
    ensures multiset(t) == multiset(s)
  {
    if s == [] then []
    else
      assert s == [s[0]] + s[1..];
      InsertByPubTime(s[0], OrderByPubTimeDesc(s[1..]))
  }

  /** LIMIT n. */
  function Take(s: seq<Row>, n: nat): seq<Row> { s[..Min(n, |s|)] }

  /** OFFSET k. */
  function Drop(s: seq<Row>, k: nat): seq<Row> { s[Min(k, |s|)..] }

  lemma SplitMultiset(s: seq<Row>, k: nat)
    requires k <= |s|
    ensures multiset(s) == multiset(s[..k]) + multiset(s[k..])
  {
    assert s == s[..k] + s[k..];
  }

  /** In a sorted sequence, nothing after position k is newer than anything before it. */
  lemma SortedSplit(s: seq<Row>, k: nat)
    requires SortedByPubTimeDesc(s) && k <= |s|
    ensures forall x, y :: x in s[k..] && y in s[..k] ==> x.pubTime <= y.pubTime
  {
    forall x, y | x in s[k..] && y in s[..k] ensures x.pubTime <= y.pubTime {
      var a :| 0 <= a < |s[k..]| && s[k..][a] == x;
      var b :| 0 <= b < k && s[..k][b] == y;
      assert s[b] == y && s[k + a] == x;
    }
  }

  /**
   * GetLastNPosts: `ORDER BY pub_time DESC LIMIT n`. PostgreSQL rejects a
   * negative LIMIT. Otherwise the result has min(n, rows) rows, newest
   * first, all taken from the table (see LatestAreNewest for the rows left
   * out). Rows with equal times may come in any order in the database; the
   * model fixes one.
   */
  function GetLastNPosts(table: seq<Row>, n: int): (r: Result<seq<Row>, StoreError>)
    ensures r.Ok? <==> n >= 0
    ensures r.Err? ==> r.error == CouldNotGetPosts
    ensures r.Ok? ==>
      && |r.value| == Min(n, |table|)
      && SortedByPubTimeDesc(r.value)
      && multiset(r.value) <= multiset(table)
  {
    if n < 0 then Err(CouldNotGetPosts)
    else
      var sorted := OrderByPubTimeDesc(table);
      assert |sorted| == |table| by { assert |multiset(sorted)| == |multiset(table)|; }
      SplitMultiset(sorted, Min(n, |sorted|));
      Ok(Take(sorted, n))
  }

  /** No row that GetLastNPosts leaves out is newer than a row it returns. */
  lemma LatestAreNewest(table: seq<Row>, n: nat)
    ensures var r := GetLastNPosts(table, n).value;
      forall x, y :: x in multiset(table) - multiset(r) && y in r ==> x.pubTime <= y.pubTime
  {
    var sorted := OrderByPubTimeDesc(table);
    var k := Min(n, |sorted|);
    SplitMultiset(sorted, k);
    SortedSplit(sorted, k);
    var r := GetLastNPosts(table, n).value;
    assert r == sorted[..k];
    forall x | x in multiset(table) - multiset(r) ensures x in sorted[k..] {
      assert x in multiset(sorted[k..]);
    }
  }

  /**
   * GetPostByID: the row with that id, None ("nil, nil") when there is
   * none, and an error when the id cannot be an INTEGER column value.
   */
  function GetPostByID(table: seq<Row>, id: int): (r: Result<Option<Row>, StoreError>)
    ensures r.Err? <==> !InInt4(id)
    ensures r == Ok(None) <==> InInt4(id) && !IdTaken(table, id)
    ensures r.Ok? && r.value.Some? ==> r.value.value in table && r.value.value.id == id
  {
    if !InInt4(id) then Err(CouldNotGetPost)
    else if table == [] then Ok(None)
    else if table[0].id == id then Ok(Some(table[0]))
    else
      var rest := GetPostByID(table[1..], id);
      assert IdTaken(table, id) <==> IdTaken(table[1..], id) by {
        if IdTaken(table, id) {
          var i :| 0 <= i < |table| && table[i].id == id;
          assert table[1..][i - 1] == table[i];
        }
        if IdTaken(table[1..], id) {
          var i :| 0 <= i < |table[1..]| && table[1..][i].id == id;
          assert table[i + 1] == table[1..][i];
        }
      }
      rest
  }

  /** The rows whose title matches the search, in table order. */
  function Matching(table: seq<Row>, q: string): (m: seq<Row>)
    ensures forall x :: multiset(m)[x] == if TitleMatches(x.title, q) then multiset(table)[x] else 0
  {
    if table == [] then []
    else
      assert table == [table[0]] + table[1..];
      if TitleMatches(table[0].title, q) then [table[0]] + Matching(table[1..], q)
      else Matching(table[1..], q)
  }

  lemma SortedSlice(s: seq<Row>, a: nat, b: nat)
    requires SortedByPubTimeDesc(s) && a <= b <= |s|
    ensures SortedByPubTimeDesc(s[a..b])
    ensures forall x :: x in s[a..b] ==> x in s
  {
    forall i, j | 0 <= i < j < b - a ensures s[a..b][i].pubTime >= s[a..b][j].pubTime {
      assert s[a..b][i] == s[a + i] && s[a..b][j] == s[a + j];
    }
  }

  /** OFFSET then LIMIT on a sorted sequence: a sorted run of its elements, as long as what is left allows. */
  lemma PageOfSorted(s: seq<Row>, offset: nat, limit: nat)
    requires SortedByPubTimeDesc(s)
    ensures var page := Take(Drop(s, offset), limit);
      && SortedByPubTimeDesc(page)
      && (forall x :: x in page ==> x in s)
      && |page| == Min(limit, Max(0, |s| - offset))
  {
    var d := Min(offset, |s|);
    var page := Take(Drop(s, offset), limit);
    SortedSlice(s, d, d + |page|);
    assert page == s[d..d + |page|];
  }

  lemma SortedKeepsLength(s: seq<Row>)
    ensures |OrderByPubTimeDesc(s)| == |s|
  {
    assert |multiset(OrderByPubTimeDesc(s))| == |multiset(s)|;
  }

  lemma MatchingMembers(table: seq<Row>, q: string, x: Row)
    requires x in OrderByPubTimeDesc(Matching(table, q))
    ensures x in table && TitleMatches(x.title, q)
  {
    assert x in multiset(OrderByPubTimeDesc(Matching(table, q)));
  }

  /**
   * SearchPostsByTitle: first COUNT(*) of the rows whose title matches
   * ILIKE '%q%', then those rows ordered by pub_time DESC with OFFSET and
   * LIMIT. A negative LIMIT or OFFSET is rejected. The total counts every
   * matching row, whatever the limit and offset; the page holds matching
   * rows only, newest first, min(limit, total - offset) of them.
   */
  function SearchPostsByTitle(table: seq<Row>, q: string, limit: int, offset: int): (r: Result<(seq<Row>, int), StoreError>)
    ensures r.Ok? <==> limit >= 0 && offset >= 0
    ensures r.Ok? ==>
      && r.value.1 == |Matching(table, q)|
      && r.value.0 == Take(Drop(OrderByPubTimeDesc(Matching(table, q)), offset), limit)
      && |r.value.0| == Min(limit, Max(0, r.value.1 - offset))
      && SortedByPubTimeDesc(r.value.0)
      && forall x :: x in r.value.0 ==> x in table && TitleMatches(x.title, q)
  {
    if limit < 0 || offset < 0 then Err(CouldNotGetPosts)
    else
      var matching := Matching(table, q);
      var sorted := OrderByPubTimeDesc(matching);
      var page := Take(Drop(sorted, offset), limit);
      PageOfSorted(sorted, offset, limit);
      SortedKeepsLength(matching);
      forall x | x in page ensures x in table && TitleMatches(x.title, q) {
        MatchingMembers(table, q, x);
      }
      Ok((page, |matching|))
  }

  /** MockStorage: a fixed list of posts. */
  class MockStorage {
    const posts: seq<Post>

    constructor (posts: seq<Post>)
      ensures this.posts == posts
    {
      this.posts := posts;
    }

    /**
     * GetLastNPosts on the mock: the first min(n, len) posts in stored
     * order; the Go slice expression panics on a negative n (None here).
     */
    function GetLastNPosts(n: int): (r: Option<seq<Post>>)
      ensures r.Some? <==> n >= 0
      ensures r.Some? ==> |r.value| == Min(n, |posts|) && r.value <= posts
    {
      if n < 0 then None
      else if n > |posts| then Some(posts)
      else Some(posts[..n])
    }
  }

  // ---------------------------------------------------------------------
  // Scenarios

  /** A batch that names the same link twice fails, and so SavePosts stores none of it. */
  lemma DuplicateLinkBatchFails(rows: seq<Row>, nextId: int, post: Post, parse: TimeParser)
    requires TableInvariant(rows, nextId)
    ensures ApplyBatch(rows, nextId, [post, post], parse, -1).err.Some?
  {
    BatchSucceedsIff(rows, nextId, [post, post], parse, -1);
    assert [post, post][0].link == [post, post][1].link;
  }

  /**
   * Saving one post into a fresh store and asking for the latest post gives
   * back that post, provided its date is in RFC 1123 form with a numeric zone.
   */
  method SaveThenReadLatest(parse: TimeParser, pubDate: string) returns (latest: seq<Row>)
    requires parse(RFC1123Z, pubDate).Some?
    ensures |latest| == 1 && latest[0].title == "Test Post" && latest[0].link == "http://example.com/test"
  {
    var store := new Storage.New();
    var post := Post(0, "Test Post", "This is a test post", pubDate, "http://example.com/test");
    var err := store.SavePost(post, parse, false);
    assert err.None?;
    var r := GetLastNPosts(store.rows, 1);
    assert multiset(r.value) <= multiset(store.rows);
    assert r.value[0] in multiset(store.rows);
    latest := r.value;
  }

  lemma LowerGo()
    ensures ToLower("Go") == "go"
  {
    var l := ToLower("Go");
    assert l[0] == 'g' && l[1] == 'o';
  }

  /** A title holding "go" in any case at position i matches the search "Go". */
  lemma GoAt(t: string, i: nat)
    requires i + 1 < |t| && LowerChar(t[i]) == 'g' && LowerChar(t[i + 1]) == 'o'
    ensures TitleMatches(t, "Go")
  {
    LowerGo();
    TitleMatchesIsContains(t, "Go");
    var l := ToLower(t);
    assert "go" <= l[i..];
  }

  /** A title in which no 'g' is followed by an 'o', in any case, does not match the search "Go". */
  lemma NoGo(t: string)
    requires forall i :: 0 <= i < |t| - 1 ==> LowerChar(t[i]) != 'g' || LowerChar(t[i + 1]) != 'o'
    ensures !TitleMatches(t, "Go")
  {
    LowerGo();
    TitleMatchesIsContains(t, "Go");
  }

  lemma LearningPythonHasNoGo(t: string)
    requires t == "Learning Python"
    ensures forall i :: 0 <= i < |t| - 1 ==> LowerChar(t[i]) != 'g' || LowerChar(t[i + 1]) != 'o'
  {
    forall i | 0 <= i < |t| - 1 ensures LowerChar(t[i]) != 'g' || LowerChar(t[i + 1]) != 'o' {
      assert i == 0 || i == 1 || i == 2 || i == 3 || i == 4 || i == 5 || i == 6 || i == 7
          || i == 8 || i == 9 || i == 10 || i == 11 || i == 12 || i == 13;
    }
  }

  /** A search that matches the first and third of three rows, with room for two results. */
  lemma SearchFirstAndThird(table: seq<Row>, q: string)
    requires |table| == 3
    requires TitleMatches(table[0].title, q) && !TitleMatches(table[1].title, q) && TitleMatches(table[2].title, q)
    ensures var r := SearchPostsByTitle(table, q, 2, 0);
      && r.Ok? && r.value.1 == 2 && |r.value.0| == 2
      && multiset(r.value.0) == multiset{table[0], table[2]}
      && forall x :: x in r.value.0 ==> x == table[0] || x == table[2]
  {
    assert table == [table[0]] + [table[1]] + [table[2]];
    assert table[1..][1..] == table[2..] && table[2..][1..] == [];
    assert Matching(table[2..], q) == [table[2]];
    assert Matching(table[1..], q) == [table[2]];
    assert Matching(table, q) == [table[0], table[2]];
    assert |OrderByPubTimeDesc([table[0], table[2]])| == 2 by {
      assert |multiset(OrderByPubTimeDesc([table[0], table[2]]))| == 2;
    }
    var r := SearchPostsByTitle(table, q, 2, 0);
    assert r.value.0 == OrderByPubTimeDesc([table[0], table[2]]);
    assert multiset([table[0], table[2]]) == multiset{table[0], table[2]};
    forall x | x in r.value.0 ensures x == table[0] || x == table[2] {
      assert x in multiset(OrderByPubTimeDesc([table[0], table[2]]));
    }
  }

  lemma SearchGoInTestTitles(table: seq<Row>)
    requires |table| == 3
    requires table[0].title == "Go Programming Language" && table[1].title == "Learning Python"
    requires table[2].title == "Advanced Go Concepts"
    ensures var r := SearchPostsByTitle(table, "Go", 2, 0);
      && r.Ok? && r.value.1 == 2 && |r.value.0| == 2
      && multiset(r.value.0) == multiset{table[0], table[2]}
      && r.value.0[0].title != r.value.0[1].title
      && forall x :: x in r.value.0 ==> x.title == "Go Programming Language" || x.title == "Advanced Go Concepts"
  {
    GoAt(table[0].title, 0);
    LearningPythonHasNoGo(table[1].title);
    NoGo(table[1].title);
    GoAt(table[2].title, 9);
    SearchFirstAndThird(table, "Go");
    var r := SearchPostsByTitle(table, "Go", 2, 0);
    BothOfTwo(r.value.0, table[0], table[2]);
  }

  /** Two rows holding the same multiset as two rows of different titles hold both titles. */
  lemma BothOfTwo(s: seq<Row>, a: Row, b: Row)
    requires |s| == 2 && multiset(s) == multiset{a, b} && a.title != b.title
    ensures s[0].title != s[1].title
  {
    assert s == [s[0]] + [s[1]];
    assert multiset(s) == multiset{s[0], s[1]};
  }

  /** A post dated in the first layout, under a link no row has, is appended with its title and link. */
  lemma SavedAsNew(rows: seq<Row>, nextId: int, post: Post, parse: TimeParser)
    requires parse(RFC1123Z, post.pubDate).Some?
    requires forall i :: 0 <= i < |rows| ==> rows[i].link != post.link
    ensures var o := InsertPost(rows, nextId, post, parse, false);
      && o.err.None? && |o.rows| == |rows| + 1 && o.rows[..|rows|] == rows
      && o.rows[|rows|].title == post.title && o.rows[|rows|].link == post.link
  {
    assert TimeFormats[0] == RFC1123Z;
  }

  /**
   * Three posts, two with "Go" in the title: searching "Go" with limit 2
   * and offset 0 counts two matches and returns both of them, one of each title.
   */
  method SearchTwoOfThree(parse: TimeParser, d1: string, d2: string, d3: string) returns (results: seq<Row>, total: int)
    requires parse(RFC1123Z, d1).Some? && parse(RFC1123Z, d2).Some? && parse(RFC1123Z, d3).Some?
    ensures total == 2 && |results| == 2
    ensures forall x :: x in results ==> x.title == "Go Programming Language" || x.title == "Advanced Go Concepts"
    ensures results[0].title != results[1].title
  {
    var store := new Storage.New();
    var p1 := Post(0, "Go Programming Language", "Learn Go", d1, "http://example.com/go");
    var p2 := Post(0, "Learning Python", "Python basics", d2, "http://example.com/python");
    var p3 := Post(0, "Advanced Go Concepts", "Deep dive into Go", d3, "http://example.com/advanced-go");
    SavedAsNew([], 1, p1, parse);
    var e1 := store.SavePost(p1, parse, false);
    var t1 := store.rows;
    SavedAsNew(t1, store.nextId, p2, parse);
    var e2 := store.SavePost(p2, parse, false);
    var t2 := store.rows;
    SavedAsNew(t2, store.nextId, p3, parse);
    var e3 := store.SavePost(p3, parse, false);
    var table := store.rows;
    assert table[..2] == t2 && t2[..1] == t1;
    assert table[0] == t1[0] && table[1] == t2[1];
    SearchGoInTestTitles(table);
    var r := SearchPostsByTitle(table, "Go", 2, 0);
    results, total := r.value.0, r.value.1;
  }
}
