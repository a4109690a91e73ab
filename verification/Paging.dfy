/** Keyset pages of the server and the loops of the browser that drain them. A table is listed in query order, without
    the columns that do not decide it; another table may stand behind every request. */
module Paging {
  import opened Wrappers

  /** Rows are ordered by the time of creation and then by identifier. */
  datatype Key = Key(createdAt: int, id: nat)

  predicate Precedes(a: Key, b: Key) {
    a.createdAt < b.createdAt || (a.createdAt == b.createdAt && a.id < b.id)
  }

  /** The order is total, and the time of creation decides before the identifier does. */
  lemma OrderIsLexicographic(a: Key, b: Key)
    ensures a != b <==> Precedes(a, b) || Precedes(b, a)
    ensures !(Precedes(a, b) && Precedes(b, a))
    ensures a.createdAt < b.createdAt ==> Precedes(a, b)
    ensures a.createdAt == b.createdAt && a.id < b.id ==> Precedes(a, b)
  {
  }

  ghost predicate Descending(rows: seq<Key>) {
    forall i, j :: 0 <= i < j < |rows| ==> Precedes(rows[j], rows[i])
  }

  // ----- The server's pages by creation -----

  datatype Page = Page(items: seq<Key>, nextCursor: Option<Key>)

  function CreatedPage(items: seq<Key>, limit: nat): Page {
    var page := items[..Least(|items|, limit)];
    Page(page, if |items| > limit && page != [] then Some(page[|page| - 1]) else None)
  }

  /** The rows of the query, in its order. */
  function Following(table: seq<Key>, cursor: Option<Key>): seq<Key> {
    if table == [] then []
    else (if cursor.None? || Precedes(table[0], cursor.value) then [table[0]] else []) + Following(table[1..], cursor)
  }

  /** The query asks for one row more than the page holds. */
  function Serve(table: seq<Key>, cursor: Option<Key>, limit: nat): Page {
    var rows := Following(table, cursor);
    CreatedPage(rows[..Least(|rows|, limit + 1)], limit)
  }

  // ----- The draining loop -----

  /** What comes back from one request: an error, a page that is no longer wanted, or a page. */
  datatype Reply = Lost | Outdated | Received(page: Page)

  datatype Drained = Complete(items: seq<Key>) | Abandoned | RequestFailed | InvalidProgress | Unanswered

  function Drain(replies: seq<Reply>, items: seq<Key>, seen: set<Key>): Drained
    decreases |replies|
  {
    if replies == [] then Unanswered
    else
      match replies[0]
      case Lost => RequestFailed
      case Outdated => Abandoned
      case Received(page) =>
        match page.nextCursor
        case None => Complete(items + page.items)
        case Some(next) =>
          if page.items == [] || next in seen then InvalidProgress
          else Drain(replies[1..], items + page.items, seen + {next})
  }

  /** The client's loop; it waits when the replies run out. */
  method DrainCreatedPages(replies: seq<Reply>) returns (result: Drained)
    ensures result == Drain(replies, [], {})
  {
    var items, seen: set<Key> := [], {};
    var k := 0;
    while k < |replies|
      invariant k <= |replies|
      invariant Drain(replies, [], {}) == Drain(replies[k..], items, seen)
    {
      var reply := replies[k];
      assert replies[k..][1..] == replies[k + 1..];
      if reply.Lost? {
        return RequestFailed;
      }
      if reply.Outdated? {
        return Abandoned;
      }
      items := items + reply.page.items;
      var next := reply.page.nextCursor;
      if next.None? {
        return Complete(items);
      }
      if reply.page.items == [] || next.value in seen {
        return InvalidProgress;
      }
      seen := seen + {next.value};
      k := k + 1;
    }
    return Unanswered;
  }

  // ----- When the loop ends, and with what -----

  /** The first n replies lead on: each has items, and a cursor that no reply before it had. */
  predicate Progressing(replies: seq<Reply>, n: nat) {
    && n <= |replies|
    && (forall k :: 0 <= k < n ==> replies[k].Received? && replies[k].page.items != [] && replies[k].page.nextCursor.Some?)
    && (forall j, k :: 0 <= j < k < n ==> replies[j].page.nextCursor != replies[k].page.nextCursor)
  }

  /** The items of the first n replies. */
  function Gathered(replies: seq<Reply>, n: nat): seq<Key>
    requires n <= |replies|
  {
    if n == 0 then [] else Gathered(replies, n - 1) + if replies[n - 1].Received? then replies[n - 1].page.items else []
  }

  function Cursors(replies: seq<Reply>, n: nat): set<Key>
    requires Progressing(replies, n)
  {
    set k | 0 <= k < n :: replies[k].page.nextCursor.value
  }

  lemma {:induction false} LoopGoesOn(replies: seq<Reply>, n: nat)
    requires Progressing(replies, n)
    ensures Drain(replies, [], {}) == Drain(replies[n..], Gathered(replies, n), Cursors(replies, n))
  {
    if n == 0 {
      assert replies[0..] == replies && Cursors(replies, 0) == {};
    } else {
      LoopGoesOn(replies, n - 1);
      assert replies[n - 1..][1..] == replies[n..];
      assert Cursors(replies, n) == Cursors(replies, n - 1) + {replies[n - 1].page.nextCursor.value};
    }
  }

  /** After replies that lead on, the next reply decides: an error ends the loop, a page that is no longer wanted
      abandons it, a page without a cursor completes it with all items, and a page that does not lead on lacks progress. */
  lemma DrainIsExact(replies: seq<Reply>, n: nat)
    requires Progressing(replies, n)
    ensures
      var result := Drain(replies, [], {});
      if n == |replies| then result == Unanswered
      else if replies[n].Lost? then result == RequestFailed
      else if replies[n].Outdated? then result == Abandoned
      else if replies[n].page.nextCursor.None? then result == Complete(Gathered(replies, n + 1))
      else !Progressing(replies, n + 1) ==> result == InvalidProgress
  {
    LoopGoesOn(replies, n);
    if n < |replies| && replies[n].Received? && replies[n].page.nextCursor.Some? && !Progressing(replies, n + 1) {
      if replies[n].page.items != [] {
        var j :| 0 <= j < n && replies[j].page.nextCursor == replies[n].page.nextCursor;
        assert replies[j].page.nextCursor.value in Cursors(replies, n);
      }
    }
  }

  // ----- What the pages of a changing table contain -----

  /** The pages that a client gets who follows the cursors, where `tables[k]` stands behind request k. */
  function Pages(tables: seq<seq<Key>>, cursor: Option<Key>, limit: nat): seq<Page>
    decreases |tables|
  {
    if tables == [] then []
    else
      var page := Serve(tables[0], cursor, limit);
      if page.nextCursor.None? then [page] else [page] + Pages(tables[1..], page.nextCursor, limit)
  }

  function Replies(pages: seq<Page>): seq<Reply> {
    if pages == [] then [] else [Received(pages[0])] + Replies(pages[1..])
  }

  function AllItems(pages: seq<Page>): seq<Key> {
    if pages == [] then [] else pages[0].items + AllItems(pages[1..])
  }

  predicate Ended(pages: seq<Page>) {
    pages != [] && pages[|pages| - 1].nextCursor.None?
  }

  /** Beyond a cursor there are only smaller keys. */
  predicate Beyond(k: Key, cursor: Option<Key>) {
    cursor.None? || Precedes(k, cursor.value)
  }

  lemma {:induction false} FollowingIsExact(table: seq<Key>, cursor: Option<Key>, k: Key)
    ensures k in Following(table, cursor) <==> k in table && Beyond(k, cursor)
  {
    if table != [] {
      FollowingIsExact(table[1..], cursor, k);
    }
  }

  lemma {:induction false} FollowingDescends(table: seq<Key>, cursor: Option<Key>)
    requires Descending(table)
    ensures Descending(Following(table, cursor))
  {
    if table != [] {
      FollowingDescends(table[1..], cursor);
      var rest := Following(table[1..], cursor);
      forall k | 0 <= k < |rest|
        ensures Precedes(rest[k], table[0])
      {
        FollowingIsExact(table[1..], cursor, rest[k]);
        var i :| 0 <= i < |table| - 1 && table[1..][i] == rest[k];
        assert table[i + 1] == rest[k];
      }
    }
  }

  /** What a page is made of: the first rows beyond the cursor, and a next cursor exactly if there are more. */
  lemma PageIsPrefix(table: seq<Key>, cursor: Option<Key>, limit: nat)
    requires limit > 0
    ensures
      var rows, page := Following(table, cursor), Serve(table, cursor, limit);
      && page.items == rows[..Least(|rows|, limit)]
      && (page.nextCursor.None? <==> |rows| <= limit)
      && (page.nextCursor.Some? ==> page.nextCursor.value == rows[limit - 1])
  {
  }

  /** A page holds exactly the rows beyond the cursor, down to the next cursor. */
  lemma PageIsExact(table: seq<Key>, cursor: Option<Key>, limit: nat, k: Key)
    requires Descending(table) && limit > 0
    ensures
      var page := Serve(table, cursor, limit);
      k in page.items <==> k in table && Beyond(k, cursor) && (page.nextCursor.Some? ==> !Beyond(k, page.nextCursor))
  {
    var rows := Following(table, cursor);
    PageIsPrefix(table, cursor, limit);
    FollowingDescends(table, cursor);
    FollowingIsExact(table, cursor, k);
    if k in rows && |rows| > limit {
      var i :| 0 <= i < |rows| && rows[i] == k;
      if i < limit {
        assert rows[..limit][i] == k;
        assert i < limit - 1 ==> Precedes(rows[limit - 1], rows[i]);
      } else {
        assert Precedes(rows[i], rows[limit - 1]);
      }
    }
  }

  lemma PageDescends(table: seq<Key>, cursor: Option<Key>, limit: nat)
    requires Descending(table) && limit > 0
    ensures
      var page := Serve(table, cursor, limit);
      && Descending(page.items)
      && (page.nextCursor.Some? ==> page.items != [] && page.nextCursor.value == page.items[|page.items| - 1])
      && (page.nextCursor.Some? ==> Beyond(page.nextCursor.value, cursor))
  {
    FollowingDescends(table, cursor);
    PageIsPrefix(table, cursor, limit);
    var page := Serve(table, cursor, limit);
    if page.nextCursor.Some? {
      PageIsExact(table, cursor, limit, page.nextCursor.value);
    }
  }

  ghost predicate AllDescending(tables: seq<seq<Key>>) {
    forall k :: 0 <= k < |tables| ==> Descending(tables[k])
  }

  /** The key is in every table that stood behind one of the first n requests. */
  predicate PresentThroughout(tables: seq<seq<Key>>, n: nat, k: Key)
    requires n <= |tables|
  {
    forall i :: 0 <= i < n ==> k in tables[i]
  }

  predicate PresentOnce(tables: seq<seq<Key>>, n: nat, k: Key)
    requires n <= |tables|
  {
    exists i :: 0 <= i < n && k in tables[i]
  }

  lemma LaterPages(tables: seq<seq<Key>>, cursor: Option<Key>, limit: nat)
    requires tables != []
    ensures
      var page, pages := Serve(tables[0], cursor, limit), Pages(tables, cursor, limit);
      && 1 <= |pages| <= |tables| && pages[0] == page
      && (if page.nextCursor.None? then pages == [page] && AllItems(pages) == page.items
          else && pages[1..] == Pages(tables[1..], page.nextCursor, limit)
               && |pages| == 1 + |Pages(tables[1..], page.nextCursor, limit)|
               && (Ended(Pages(tables[1..], page.nextCursor, limit)) ==> Ended(pages))
               && AllItems(pages) == page.items + AllItems(Pages(tables[1..], page.nextCursor, limit)))
  {
    var page, pages := Serve(tables[0], cursor, limit), Pages(tables, cursor, limit);
    PagesAreFew(tables, cursor, limit);
    if page.nextCursor.None? {
      assert AllItems(pages) == page.items + AllItems([]) == page.items;
    } else {
      assert pages[1..] == Pages(tables[1..], page.nextCursor, limit);
    }
  }

  lemma {:induction false} PagesAreFew(tables: seq<seq<Key>>, cursor: Option<Key>, limit: nat)
    ensures |Pages(tables, cursor, limit)| <= |tables|
    decreases |tables|
  {
    if tables != [] && Serve(tables[0], cursor, limit).nextCursor.Some? {
      PagesAreFew(tables[1..], Serve(tables[0], cursor, limit).nextCursor, limit);
    }
  }

  /** Whatever rows come and go between the requests, the items descend strictly: no row comes twice. */
  lemma {:induction false} PagesDescend(tables: seq<seq<Key>>, cursor: Option<Key>, limit: nat)
    requires AllDescending(tables) && limit > 0
    ensures Descending(AllItems(Pages(tables, cursor, limit)))
    ensures forall k :: k in AllItems(Pages(tables, cursor, limit)) ==> Beyond(k, cursor)
    decreases |tables|
  {
    if tables != [] {
      var page := Serve(tables[0], cursor, limit);
      PageDescends(tables[0], cursor, limit);
      LaterPages(tables, cursor, limit);
      forall k | k in page.items
        ensures Beyond(k, cursor)
      {
        PageIsExact(tables[0], cursor, limit, k);
      }
      if page.nextCursor.Some? {
        var rest := AllItems(Pages(tables[1..], page.nextCursor, limit));
        PagesDescend(tables[1..], page.nextCursor, limit);
        forall a, b | 0 <= a < |page.items| && 0 <= b < |rest|
          ensures Precedes(rest[b], page.items[a])
        {
          assert rest[b] in rest;
          assert a < |page.items| - 1 ==> Precedes(page.items[|page.items| - 1], page.items[a]);
        }
      }
    }
  }

  /** Only rows that were present at one of the requests come. */
  lemma {:induction false} PagesHoldPresentRows(tables: seq<seq<Key>>, cursor: Option<Key>, limit: nat, k: Key)
    requires AllDescending(tables) && limit > 0 && k in AllItems(Pages(tables, cursor, limit))
    ensures |Pages(tables, cursor, limit)| <= |tables| && PresentOnce(tables, |Pages(tables, cursor, limit)|, k)
    decreases |tables|
  {
    var page := Serve(tables[0], cursor, limit);
    LaterPages(tables, cursor, limit);
    if k in page.items {
      PageIsExact(tables[0], cursor, limit, k);
    } else {
      var n := |Pages(tables[1..], page.nextCursor, limit)|;
      PagesHoldPresentRows(tables[1..], page.nextCursor, limit, k);
      var i :| 0 <= i < n && k in tables[1..][i];
      assert k in tables[i + 1];
    }
  }

  /** A row that is present throughout comes, if the pages end. */
  lemma {:induction false} PagesSkipNothing(tables: seq<seq<Key>>, cursor: Option<Key>, limit: nat, k: Key)
    requires AllDescending(tables) && limit > 0 && Ended(Pages(tables, cursor, limit)) && Beyond(k, cursor)
    requires |Pages(tables, cursor, limit)| <= |tables| && PresentThroughout(tables, |Pages(tables, cursor, limit)|, k)
    ensures k in AllItems(Pages(tables, cursor, limit))
    decreases |tables|
  {
    var page, pages := Serve(tables[0], cursor, limit), Pages(tables, cursor, limit);
    LaterPages(tables, cursor, limit);
    PageIsExact(tables[0], cursor, limit, k);
    assert k in tables[0];
    if page.nextCursor.Some? && Beyond(k, page.nextCursor) {
      var rest := Pages(tables[1..], page.nextCursor, limit);
      assert pages[|pages| - 1] == rest[|rest| - 1];
      forall i | 0 <= i < |rest|
        ensures k in tables[1..][i]
      {
        assert k in tables[i + 1];
      }
      PagesSkipNothing(tables[1..], page.nextCursor, limit, k);
    }
  }

  /** Against the server the loop never finds its progress missing: it returns all items, or still waits. */
  lemma {:induction false} DrainOfPages(
    tables: seq<seq<Key>>, cursor: Option<Key>, limit: nat, items: seq<Key>, seen: set<Key>)
    requires AllDescending(tables) && limit > 0
    requires forall c :: c in seen ==> !Beyond(c, cursor)
    ensures
      var pages := Pages(tables, cursor, limit);
      Drain(Replies(pages), items, seen) == if Ended(pages) then Complete(items + AllItems(pages)) else Unanswered
    decreases |tables|
  {
    if tables != [] {
      var page, pages := Serve(tables[0], cursor, limit), Pages(tables, cursor, limit);
      PageDescends(tables[0], cursor, limit);
      LaterPages(tables, cursor, limit);
      if page.nextCursor.Some? {
        var next, rest := page.nextCursor.value, Pages(tables[1..], page.nextCursor, limit);
        assert Replies(pages)[1..] == Replies(rest);
        DrainOfPages(tables[1..], page.nextCursor, limit, items + page.items, seen + {next});
        assert (items + page.items) + AllItems(rest) == items + AllItems(pages);
      }
    }
  }

  /** The draining of a table that changes between the requests of 100 rows never raises its progress error. If it ends,
      it ends with every row present throughout exactly once, in descending order, and with no row never present. */
  lemma DrainIsComplete(tables: seq<seq<Key>>, result: Drained)
    requires AllDescending(tables) && result == Drain(Replies(Pages(tables, None, 100)), [], {})
    ensures result.Complete? || result.Unanswered?
    ensures result.Complete? ==> Descending(result.items)
    ensures result.Complete? ==> forall k :: k in result.items ==> PresentOnce(tables, |tables|, k)
    ensures result.Complete? ==> forall k :: PresentThroughout(tables, |tables|, k) ==> k in result.items
  {
    var pages := Pages(tables, None, 100);
    DrainOfPages(tables, None, 100, [], {});
    if result.Complete? {
      PagesDescend(tables, None, 100);
      assert [] + AllItems(pages) == AllItems(pages);
      forall k | k in result.items
        ensures PresentOnce(tables, |tables|, k)
      {
        PagesHoldPresentRows(tables, None, 100, k);
      }
      PagesAreFew(tables, None, 100);
      forall k | PresentThroughout(tables, |tables|, k)
        ensures k in result.items
      {
        PagesSkipNothing(tables, None, 100, k);
      }
    }
  }

  // ----- A table that does not change -----

  lemma {:induction false} FollowingAll(table: seq<Key>, cursor: Option<Key>)
    requires forall k :: 0 <= k < |table| ==> Beyond(table[k], cursor)
    ensures Following(table, cursor) == table
  {
    if table != [] {
      FollowingAll(table[1..], cursor);
    }
  }

  /** Continuing after the row at an index. */
  lemma {:induction false} FollowingOfRow(table: seq<Key>, k: nat)
    requires Descending(table) && k < |table|
    ensures Following(table, Some(table[k])) == table[k + 1..]
    decreases k
  {
    if k == 0 {
      FollowingAll(table[1..], Some(table[0]));
    } else {
      FollowingOfRow(table[1..], k - 1);
      assert table[1..][k - 1] == table[k] && table[1..][k..] == table[k + 1..];
      assert Precedes(table[k], table[0]);
    }
  }

  lemma {:induction false} FollowingTwice(table: seq<Key>, cursor: Option<Key>, next: Key)
    requires Beyond(next, cursor)
    ensures Following(Following(table, cursor), Some(next)) == Following(table, Some(next))
  {
    if table != [] {
      FollowingTwice(table[1..], cursor, next);
      var rest := Following(table[1..], cursor);
      if Beyond(table[0], cursor) {
        assert ([table[0]] + rest)[1..] == rest;
      } else {
        assert [] + rest == rest;
      }
    }
  }

  /** The number of pages for n rows: one even for none, otherwise the ceiling of n/limit. */
  function PageCount(n: nat, limit: nat): nat
    requires limit > 0
  {
    if n <= limit then 1 else 1 + PageCount(n - limit, limit)
  }

  lemma {:induction false} PageCountIsTheCeiling(n: nat, limit: nat)
    requires limit > 0
    ensures (PageCount(n, limit) - 1) * limit < n <= PageCount(n, limit) * limit || (n == 0 && PageCount(n, limit) == 1)
  {
    if n > limit {
      PageCountIsTheCeiling(n - limit, limit);
      var k := PageCount(n - limit, limit);
      assert (k + 1) * limit == k * limit + limit && k * limit == (k - 1) * limit + limit;
    }
  }

  /** The same table behind every request. */
  function Constant(table: seq<Key>, n: nat): seq<seq<Key>> {
    seq(n, _ => table)
  }

  /** The pages end, list the rows, and are as few as the rows need. */
  predicate Lists(pages: seq<Page>, rows: seq<Key>, limit: nat)
    requires limit > 0
  {
    Ended(pages) && |pages| == PageCount(|rows|, limit) && AllItems(pages) == rows
  }

  lemma ConstantTableEnds(table: seq<Key>, cursor: Option<Key>, limit: nat, n: nat)
    requires limit > 0 && n > 0 && Serve(table, cursor, limit).nextCursor.None?
    ensures Lists(Pages(Constant(table, n), cursor, limit), Following(table, cursor), limit)
  {
    var rows, page := Following(table, cursor), Serve(table, cursor, limit);
    PageIsPrefix(table, cursor, limit);
    ConstantLater(table, cursor, limit, n);
    assert page.items == rows;
    OnlyPage(page, rows, limit);
  }

  lemma ConstantTableGoesOn(table: seq<Key>, cursor: Option<Key>, limit: nat, n: nat)
    requires limit > 0 && n > 0 && Serve(table, cursor, limit).nextCursor.Some? && limit < |Following(table, cursor)|
    requires
      var next := Serve(table, cursor, limit).nextCursor;
      Lists(Pages(Constant(table, n - 1), next, limit), Following(table, cursor)[limit..], limit)
    ensures Lists(Pages(Constant(table, n), cursor, limit), Following(table, cursor), limit)
  {
    var page, pages := Serve(table, cursor, limit), Pages(Constant(table, n), cursor, limit);
    PageIsPrefix(table, cursor, limit);
    ConstantLater(table, cursor, limit, n);
    OnePageMore(page, pages, Pages(Constant(table, n - 1), page.nextCursor, limit), Following(table, cursor), limit);
  }

  /** Over a table that does not change the pages list exactly the rows beyond the cursor, and they end after as many
      requests as the rows need. */
  lemma {:induction false} ConstantTablePages(table: seq<Key>, cursor: Option<Key>, limit: nat, n: nat)
    requires Descending(table) && limit > 0 && n >= PageCount(|Following(table, cursor)|, limit)
    ensures Lists(Pages(Constant(table, n), cursor, limit), Following(table, cursor), limit)
    decreases n
  {
    var next := Serve(table, cursor, limit).nextCursor;
    PageIsPrefix(table, cursor, limit);
    if next.None? {
      ConstantTableEnds(table, cursor, limit, n);
    } else {
      RestOfRows(table, cursor, limit);
      ConstantTablePages(table, next, limit, n - 1);
      ConstantTableGoesOn(table, cursor, limit, n);
    }
  }

  lemma OnlyPage(page: Page, rows: seq<Key>, limit: nat)
    requires limit > 0 && page.nextCursor.None? && page.items == rows && |rows| <= limit
    ensures Lists([page], rows, limit)
  {
    assert [page][1..] == [];
  }

  lemma OnePageMore(page: Page, pages: seq<Page>, rest: seq<Page>, rows: seq<Key>, limit: nat)
    requires 0 < limit < |rows| && page.items == rows[..limit] && Lists(rest, rows[limit..], limit)
    requires |pages| == 1 + |rest| && Ended(pages) && AllItems(pages) == page.items + AllItems(rest)
    ensures Lists(pages, rows, limit)
  {
    assert rows == rows[..limit] + rows[limit..];
  }

  lemma ConstantLater(table: seq<Key>, cursor: Option<Key>, limit: nat, n: nat)
    requires n > 0
    ensures
      var page, pages := Serve(table, cursor, limit), Pages(Constant(table, n), cursor, limit);
      if page.nextCursor.None? then pages == [page] && AllItems(pages) == page.items
      else
        var rest := Pages(Constant(table, n - 1), page.nextCursor, limit);
        && |pages| == 1 + |rest| && (Ended(rest) ==> Ended(pages)) && AllItems(pages) == page.items + AllItems(rest)
  {
    assert Constant(table, n)[1..] == Constant(table, n - 1);
    LaterPages(Constant(table, n), cursor, limit);
  }

  lemma RestOfRows(table: seq<Key>, cursor: Option<Key>, limit: nat)
    requires Descending(table) && 0 < limit <= |Following(table, cursor)|
    ensures
      var rows := Following(table, cursor);
      Following(table, Some(rows[limit - 1])) == rows[limit..]
  {
    var rows := Following(table, cursor);
    FollowingIsExact(table, cursor, rows[limit - 1]);
    FollowingTwice(table, cursor, rows[limit - 1]);
    FollowingDescends(table, cursor);
    FollowingOfRow(rows, limit - 1);
  }

  /** Draining a table that does not change returns it whole after the ceiling of n/100 requests. */
  lemma DrainOfConstantTable(table: seq<Key>)
    requires Descending(table)
    ensures
      var pages := Pages(Constant(table, PageCount(|table|, 100)), None, 100);
      |pages| == PageCount(|table|, 100) && Drain(Replies(pages), [], {}) == Complete(table)
  {
    var n := PageCount(|table|, 100);
    FollowingAll(table, None);
    ConstantTablePages(table, None, 100, n);
    DrainOfPages(Constant(table, n), None, 100, [], {});
    assert [] + table == table;
  }
}
