/** The cursor-paginated list handlers (tools/list, resources/list, prompts/list share this code). */
module Pagination {
  import opened Prelude
  import opened Digits
  import opened Json

  const PAGE_SIZE: nat := 50

  /** No std::vector is longer than this. */
  const MAX_LENGTH: nat := 0x7fff_ffff_ffff_ffff

  datatype Page<T> = Page(items: seq<T>, nextCursor: Option<string>)

  /** The offset a request asks for: anything that is no readable cursor means the start. */
  function Offset(params: Json): (n: nat)
    ensures n < TWO_64
  {
    if Contains(params, "cursor") && params.fields["cursor"].Str? then
      match Stoul(params.fields["cursor"].s)
      case Some(n) => n
      case None => 0
    else 0
  }

  /** offset + page_size in size_t arithmetic */
  function PageEnd(offset: nat): nat {
    (offset + PAGE_SIZE) % TWO_64
  }

  /** The list handler. */
  method ListPage<T>(all: seq<T>, params: Json) returns (page: Page<T>)
    requires |all| <= MAX_LENGTH
    ensures page == PageAt(all, Offset(params))
  {
    var offset := 0;
    if Contains(params, "cursor") && params.fields["cursor"].Str? {
      var parsed := Stoul(params.fields["cursor"].s);
      if parsed.Some? {
        offset := parsed.value;
      }
    }
    if offset >= |all| {
      page := Page([], None);
    } else {
      assert PageEnd(offset) == offset + PAGE_SIZE;
      var end := if PageEnd(offset) < |all| then offset + PAGE_SIZE else |all|;
      assert end == |all| ==> all[offset..end] == all[offset..];
      page := Page(all[offset..end], None);
      if end != |all| {
        page := page.(nextCursor := Some(Print(offset + PAGE_SIZE, Decimal)));
      }
    }
  }

  /** The items at offset .. offset + 50 that exist, and a cursor exactly if more follow. */
  function PageAt<T>(all: seq<T>, offset: nat): Page<T> {
    if offset + PAGE_SIZE < |all| then Page(all[offset..offset + PAGE_SIZE], Some(Print(offset + PAGE_SIZE, Decimal)))
    else if offset < |all| then Page(all[offset..], None)
    else Page([], None)
  }

  function CursorParams(cursor: Option<string>): Json {
    if cursor.Some? then Obj(map["cursor" := Str(cursor.value)]) else EMPTY_OBJECT
  }

  /** A cursor the handler hands out leads to the item after the page it came with. */
  lemma CursorRoundTrip<T>(all: seq<T>, offset: nat)
    requires |all| <= MAX_LENGTH && PageAt(all, offset).nextCursor.Some?
    ensures Offset(CursorParams(PageAt(all, offset).nextCursor)) == offset + PAGE_SIZE < |all|
  {
    StoulPrint(offset + PAGE_SIZE, []);
    assert Print(offset + PAGE_SIZE, Decimal) + [] == Print(offset + PAGE_SIZE, Decimal);
  }

  /** The pages a client sees that follows nextCursor from `cursor` until there is none; |all| - offset shrinks. */
  function Follow<T>(all: seq<T>, cursor: Option<string>): seq<seq<T>>
    requires |all| <= MAX_LENGTH
    decreases |all| - Offset(CursorParams(cursor))
  {
    var offset := Offset(CursorParams(cursor));
    var page := PageAt(all, offset);
    if page.nextCursor.None? then [page.items]
    else
      CursorRoundTrip(all, offset);
      [page.items] + Follow(all, page.nextCursor)
  }

  function PagesFrom(length: nat, offset: nat): nat {
    if offset >= length then 1 else (length - offset + PAGE_SIZE - 1) / PAGE_SIZE
  }

  /** All pages but the last are full. */
  predicate FullButLast<T>(pages: seq<seq<T>>) {
    forall i | 0 <= i < |pages| - 1 :: |pages[i]| == PAGE_SIZE
  }

  lemma FullCons<T>(items: seq<T>, rest: seq<seq<T>>)
    requires |items| == PAGE_SIZE && FullButLast(rest)
    ensures FullButLast([items] + rest)
  {
  }

  lemma OnePageLess(length: nat, offset: nat)
    requires offset + PAGE_SIZE < length
    ensures PagesFrom(length, offset) == 1 + PagesFrom(length, offset + PAGE_SIZE)
  {
  }

  lemma {:induction false} FollowFrom<T>(all: seq<T>, cursor: Option<string>)
    requires |all| <= MAX_LENGTH && Offset(CursorParams(cursor)) <= |all|
    ensures var offset, pages := Offset(CursorParams(cursor)), Follow(all, cursor);
      && Concat(pages) == all[offset..]
      && |pages| == PagesFrom(|all|, offset)
      && FullButLast(pages)
    decreases |all| - Offset(CursorParams(cursor))
  {
    var offset := Offset(CursorParams(cursor));
    var page := PageAt(all, offset);
    if page.nextCursor.None? {
      ConcatCons(page.items, []);
    } else {
      CursorRoundTrip(all, offset);
      FollowFrom(all, page.nextCursor);
      OnePageLess(|all|, offset);
      ConcatCons(page.items, Follow(all, page.nextCursor));
      FullCons(page.items, Follow(all, page.nextCursor));
      assert all[offset..] == all[offset..offset + PAGE_SIZE] + all[offset + PAGE_SIZE..];
    }
  }

  /**
   Pagination is lossless: a client that starts without a cursor and follows nextCursor sees every
   element once and in order, in the least number of pages, all full but the last.
   */
  lemma PaginationIsLossless<T>(all: seq<T>)
    requires |all| <= MAX_LENGTH
    ensures Concat(Follow(all, None)) == all
    ensures |Follow(all, None)| == Max(1, (|all| + PAGE_SIZE - 1) / PAGE_SIZE)
    ensures FullButLast(Follow(all, None))
  {
    FollowFrom(all, None);
    assert all[0..] == all;
  }

  /**
   What a client gets for any cursor. A number n, however it came by it, leads to the items from n on, at
   most 50 of them, and to a next cursor n + 50 exactly if there are more. No cursor, one that is no
   string and one that cannot be read all lead to the start.
   */
  lemma CursorMeans<T>(all: seq<T>, params: Json, n: nat)
    requires |all| <= MAX_LENGTH
    requires if Contains(params, "cursor") && params.fields["cursor"].Str? && Stoul(params.fields["cursor"].s).Some?
             then Stoul(params.fields["cursor"].s) == Some(n) else n == 0
    ensures var page := PageAt(all, Offset(params));
      && page.items == all[Min(n, |all|)..Min(n + 50, |all|)]
      && page.nextCursor == if n + 50 < |all| then Some(Print(n + 50, Decimal)) else None
  {
  }
}
