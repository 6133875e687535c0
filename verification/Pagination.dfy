/** Keyset pagination of event and incident lists (internal/manager/admin_monitoring_handlers.go,
    internal/manager/store.go, internal/manager/store_incidents.go, internal/manager/server.go). */
module Pagination {
  import opened Prelude
  import opened Sorting
  import opened Cursor

  /** A row of the listed table; `data` stands for its other columns. */
  datatype Record = Record(at: int, id: nat, data: string)

  /** Ids are a primary key and are never zero; times are whole microseconds. */
  ghost predicate Table(rows: seq<Record>) {
    && (forall i, j :: 0 <= i < j < |rows| ==> rows[i].id != rows[j].id)
    && (forall r :: r in rows ==> 0 < r.id <= MaxUint64 && -MaxInt64 - 1 <= r.at <= MaxInt64)
  }

  // ---------------------------------------------------------------- the query

  predicate Above(x: Record, at: int, id: nat) { x.at > at || (x.at == at && x.id > id) }

  predicate Below(x: Record, at: int, id: nat) { x.at < at || (x.at == at && x.id < id) }

  predicate Descending(x: Record, y: Record) { !Above(y, x.at, x.id) }

  predicate Ascending(x: Record, y: Record) { !Below(y, x.at, x.id) }

  predicate Selected(x: Record, cursor: Option<Position>) {
    match cursor
    case None => true
    case Some(c) => if c.direction == After then Above(x, c.at, c.id) else Below(x, c.at, c.id)
  }

  function Select(rows: seq<Record>, cursor: Option<Position>): seq<Record> {
    if rows == [] then []
    else
      var front := Select(rows[..|rows| - 1], cursor);
      if Selected(rows[|rows| - 1], cursor) then front + [rows[|rows| - 1]] else front
  }

  predicate Upwards(cursor: Option<Position>) { cursor.Some? && cursor.value.direction == After }

  function Take<T>(s: seq<T>, n: nat): seq<T> { if |s| <= n then s else s[..n] }

  function Drop<T>(s: seq<T>, n: nat): seq<T> { if |s| <= n then [] else s[n..] }

  /** SELECT … WHERE … ORDER BY … LIMIT … OFFSET; a cursor clears the offset. */
  function Query(rows: seq<Record>, cursor: Option<Position>, offset: nat, limit: nat): seq<Record> {
    var chosen := Select(rows, cursor);
    if Upwards(cursor) then Take(Sort(Ascending, chosen), limit)
    else Take(Drop(Sort(Descending, chosen), if cursor.Some? then 0 else offset), limit)
  }

  // ---------------------------------------------------------------- one page

  datatype Page<T> = Page(items: seq<T>, hasPrevious: bool, hasNext: bool)

  function Reversed<T>(s: seq<T>): (r: seq<T>)
    ensures |r| == |s| && forall i :: 0 <= i < |s| ==> r[i] == s[|s| - 1 - i]
  {
    seq(|s|, i requires 0 <= i < |s| => s[|s| - 1 - i])
  }

  /** The page cut from a query result that was asked for one record too many. */
  function PageOf<T>(items: seq<T>, pageSize: nat, page: nat, direction: Option<string>): Page<T> {
    if direction == Some(After) then
      Page(Reversed(Take(items, pageSize)), |items| > pageSize, Take(items, pageSize) != [])
    else
      Page(Take(items, pageSize), direction == Some(Before) || page > 1, |items| > pageSize)
  }

  /** Truncates and reverses the slice in place; the page is its first `count` elements. */
  method Paginate<T>(items: array<T>, pageSize: nat, page: nat, direction: Option<string>)
    returns (count: nat, hasPrevious: bool, hasNext: bool)
    modifies items
    ensures count <= items.Length
    ensures Page(items[..count], hasPrevious, hasNext) == PageOf(old(items[..]), pageSize, page, direction)
    ensures items[count..] == old(items[count..])
  {
    count := items.Length;
    if direction == Some(After) {
      hasPrevious := count > pageSize;
      if hasPrevious { count := pageSize; }
      var left, right := 0, count - 1;
      while left < right
        invariant 0 <= left <= right + 1 && left + right == count - 1
        invariant forall i :: 0 <= i < left ==> items[i] == old(items[count - 1 - i]) && items[count - 1 - i] == old(items[i])
        invariant forall i :: left <= i <= right ==> items[i] == old(items[i])
        invariant forall i :: count <= i < items.Length ==> items[i] == old(items[i])
      {
        items[left], items[right] := items[right], items[left];
        left, right := left + 1, right - 1;
      }
      hasNext := count != 0;
      assert Take(old(items[..]), pageSize) == old(items[..count]);
      assert items[..count] == Reversed(old(items[..count]));
      return;
    }
    hasNext := count > pageSize;
    if hasNext { count := pageSize; }
    hasPrevious := direction == Some(Before) || page > 1;
  }

  // ---------------------------------------------------------------- one request

  const MaxPage: nat := 10000

  /** The cursor the server reads back from the link it makes for a record. */
  function Target(r: Record, direction: string): Option<Position> {
    if r.at > 0 then Some(Position(direction, r.at, r.id)) else None
  }

  /** A link decodes to the record's position exactly when its time is positive. */
  lemma LinkDecodes(r: Record, direction: string)
    requires 0 < r.id <= MaxUint64 && -MaxInt64 - 1 <= r.at <= MaxInt64 && (direction == Before || direction == After)
    ensures DecodeCursor(EncodeCursor(Position(direction, r.at, r.id))) == Target(r, direction)
  {
    CursorRoundTrip(Position(direction, r.at, r.id));
  }

  function Found(rows: seq<Record>, pageSize: nat, number: nat, offset: nat, cursor: Option<Position>): Page<Record> {
    PageOf(Query(rows, cursor, offset, pageSize + 1), pageSize, number,
           if cursor.Some? then Some(cursor.value.direction) else None)
  }

  /** The page a request for a page number with a decoded cursor shows. */
  function View(rows: seq<Record>, pageSize: nat, number: nat, cursor: Option<Position>): Page<Record> {
    Found(rows, pageSize, number, Offset(number, pageSize), cursor)
  }

  function Offset(number: nat, pageSize: nat): nat {
    if number == 0 then 0 else (number - 1) * pageSize
  }

  lemma {:induction false} SelectElements(rows: seq<Record>, cursor: Option<Position>, x: Record)
    ensures multiset(Select(rows, cursor))[x] == if Selected(x, cursor) then multiset(rows)[x] else 0
  {
    if rows != [] {
      SelectElements(rows[..|rows| - 1], cursor, x);
      assert rows == rows[..|rows| - 1] + [rows[|rows| - 1]];
    }
  }

  // ---------------------------------------------------------------- against the whole sorted list

  /** The list the pages are windows of. */
  function Listing(rows: seq<Record>): seq<Record> { Sort(Descending, rows) }

  lemma Orders()
    ensures TotalPreorder(Descending) && TotalPreorder(Ascending)
  {
  }

  predicate Strict(d: seq<Record>) {
    forall i, j :: 0 <= i < j < |d| ==> Above(d[i], d[j].at, d[j].id)
  }

  /** The listing is the table, strictly descending by time and id. */
  lemma ListingSorted(rows: seq<Record>)
    requires Table(rows)
    ensures multiset(Listing(rows)) == multiset(rows) && |Listing(rows)| == |rows| && Strict(Listing(rows))
    ensures forall r :: r in Listing(rows) <==> r in rows
  {
    var d := Listing(rows);
    Orders();
    SortElements(Descending, rows);
    SortSorted(Descending, rows);
    forall r ensures r in d <==> r in rows { InMultiset(d, rows, r); }
    DistinctIds(rows, d);
    forall i, j | 0 <= i < j < |d| ensures Above(d[i], d[j].at, d[j].id) {
      assert Descending(d[i], d[j]);
    }
  }

  lemma DistinctIds(a: seq<Record>, b: seq<Record>)
    requires Table(a) && multiset(a) == multiset(b)
    ensures forall i, j :: 0 <= i < j < |b| ==> b[i].id != b[j].id
  {
    forall i, j | 0 <= i < j < |b| ensures b[i].id != b[j].id {
      InMultiset(a, b, b[i]);
      InMultiset(a, b, b[j]);
      if b[i].id == b[j].id {
        assert b[i] == b[j];
        TwiceInMultiset(b, i, j);
        OnceInMultiset(a, b[i]);
      }
    }
  }

  lemma TwiceInMultiset(s: seq<Record>, i: nat, j: nat)
    requires i < j < |s| && s[i] == s[j]
    ensures multiset(s)[s[i]] >= 2
  {
    assert s == s[..i] + [s[i]] + s[i + 1..j] + [s[j]] + s[j + 1..];
  }

  lemma {:induction false} OnceInMultiset(s: seq<Record>, x: Record)
    requires forall i, j :: 0 <= i < j < |s| ==> s[i].id != s[j].id
    ensures multiset(s)[x] <= 1
  {
    if s != [] {
      var front := s[..|s| - 1];
      OnceInMultiset(front, x);
      assert s == front + [s[|s| - 1]];
      if s[|s| - 1] == x {
        assert x !in front;
      }
    }
  }

  /** Rows below the i-th of the listing, newest first, are the rest of the listing. */
  lemma BelowIsSuffix(rows: seq<Record>, i: nat)
    requires Table(rows) && i < |rows|
    ensures |Listing(rows)| == |rows|
    ensures var d := Listing(rows);
            Sort(Descending, Select(rows, Some(Position(Before, d[i].at, d[i].id)))) == d[i + 1..]
  {
    var d := Listing(rows);
    ListingSorted(rows);
    var c := Some(Position(Before, d[i].at, d[i].id));
    forall x ensures multiset(Select(rows, c))[x] == multiset(d[i + 1..])[x] {
      SelectElements(rows, c, x);
      SuffixCount(d, i, x);
    }
    Orders();
    SortIs(Descending, Select(rows, c), d[i + 1..]);
  }

  /** Rows above the i-th of the listing, oldest first, are the listing up to it, backwards. */
  lemma AboveIsPrefix(rows: seq<Record>, i: nat)
    requires Table(rows) && i < |rows|
    ensures |Listing(rows)| == |rows|
    ensures var d := Listing(rows);
            Sort(Ascending, Select(rows, Some(Position(After, d[i].at, d[i].id)))) == Reversed(d[..i])
  {
    var d := Listing(rows);
    ListingSorted(rows);
    var c := Some(Position(After, d[i].at, d[i].id));
    ReversedElements(d[..i]);
    forall x ensures multiset(Select(rows, c))[x] == multiset(d[..i])[x] {
      SelectElements(rows, c, x);
      PrefixCount(d, i, x);
    }
    Orders();
    SortIs(Ascending, Select(rows, c), Reversed(d[..i]));
  }

  lemma {:induction false} ReversedElements<T>(s: seq<T>)
    ensures multiset(Reversed(s)) == multiset(s)
  {
    if s != [] {
      ReversedElements(s[1..]);
      assert Reversed(s) == Reversed(s[1..]) + [s[0]];
      assert s == [s[0]] + s[1..];
    }
  }

  lemma SuffixCount(d: seq<Record>, i: nat, x: Record)
    requires Strict(d) && i < |d|
    ensures multiset(d[i + 1..])[x] == if Below(x, d[i].at, d[i].id) then multiset(d)[x] else 0
  {
    assert d == d[..i + 1] + d[i + 1..];
    if Below(x, d[i].at, d[i].id) {
      assert x !in d[..i + 1];
    } else {
      assert x !in d[i + 1..];
    }
  }

  lemma PrefixCount(d: seq<Record>, i: nat, x: Record)
    requires Strict(d) && i < |d|
    ensures multiset(d[..i])[x] == if Above(x, d[i].at, d[i].id) then multiset(d)[x] else 0
  {
    assert d == d[..i] + d[i..];
    if Above(x, d[i].at, d[i].id) {
      assert x !in d[i..];
    } else {
      assert x !in d[..i];
    }
  }

  // ---------------------------------------------------------------- browsing

  function Min(a: nat, b: nat): nat { if a < b then a else b }

  /** The page that starts at index `from` of the listing. */
  function Window(d: seq<Record>, pageSize: nat, from: nat): Page<Record> {
    Page(d[Min(from, |d|)..Min(from + pageSize, |d|)], from > 0, from + pageSize < |d|)
  }

  /** Without a usable cursor the page is found by its number. */
  lemma ByNumber(rows: seq<Record>, pageSize: nat, number: nat, offset: nat)
    requires number > 1 <==> offset > 0
    ensures Found(rows, pageSize, number, offset, None) == Window(Listing(rows), pageSize, offset)
  {
    SelectAll(rows);
    TakeOneMore(Listing(rows), offset, pageSize);
  }

  /** Index of the first record of the k-th page. */
  function Start(k: nat, pageSize: nat): nat {
    if k == 0 then 0 else Start(k - 1, pageSize) + pageSize
  }

  lemma {:induction false} StartIs(k: nat, pageSize: nat)
    ensures Start(k, pageSize) == k * pageSize
    ensures pageSize > 0 ==> (k > 0 <==> Start(k, pageSize) > 0)
  {
    if k > 0 {
      StartIs(k - 1, pageSize);
      assert (k - 1) * pageSize + pageSize == k * pageSize;
    }
  }

  lemma {:induction false} SelectAll(rows: seq<Record>)
    ensures Select(rows, None) == rows
  {
    if rows != [] { SelectAll(rows[..|rows| - 1]); }
  }

  lemma TakeOneMore(d: seq<Record>, from: nat, pageSize: nat)
    ensures var found := Take(Drop(d, from), pageSize + 1);
            && Take(found, pageSize) == Window(d, pageSize, from).items
            && (|found| > pageSize <==> Window(d, pageSize, from).hasNext)
  {
  }

  /** A next link leads to the page that starts right after the linking record. */
  lemma ByNextLink(rows: seq<Record>, pageSize: nat, number: nat, offset: nat, last: nat)
    requires Table(rows) && last < |rows|
    ensures |Listing(rows)| == |rows|
    ensures var d := Listing(rows);
            Found(rows, pageSize, number, offset, Some(Position(Before, d[last].at, d[last].id))) == Window(d, pageSize, last + 1)
  {
    var d := Listing(rows);
    BelowIsSuffix(rows, last);
    TakeOneMore(d, last + 1, pageSize);
    assert Drop(d[last + 1..], 0) == Drop(d, last + 1);
  }

  /** A previous link leads to the full page that ends right before the linking record. */
  lemma ByPreviousLink(rows: seq<Record>, pageSize: nat, number: nat, offset: nat, from: nat)
    requires Table(rows) && pageSize > 0 && pageSize <= from < |rows|
    ensures |Listing(rows)| == |rows|
    ensures var d := Listing(rows);
            Found(rows, pageSize, number, offset, Some(Position(After, d[from].at, d[from].id))) == Window(d, pageSize, from - pageSize)
  {
    AboveIsPrefix(rows, from);
    TakeBackwards(Listing(rows), from, pageSize);
  }

  lemma TakeBackwards(d: seq<Record>, from: nat, pageSize: nat)
    requires 0 < pageSize <= from < |d|
    ensures var found := Take(Reversed(d[..from]), pageSize + 1);
            && Reversed(Take(found, pageSize)) == Window(d, pageSize, from - pageSize).items
            && (|found| > pageSize <==> from - pageSize > 0)
  {
    var found := Take(Reversed(d[..from]), pageSize + 1);
    var back, items := Reversed(Take(found, pageSize)), d[from - pageSize..from];
    assert |back| == pageSize;
    forall i | 0 <= i < pageSize ensures back[i] == items[i] {
      assert back[i] == Reversed(d[..from])[pageSize - 1 - i];
    }
    assert back == items;
  }

  /** A server that shows windows of one list. */
  ghost predicate Serves(show: (nat, Option<Position>) -> Page<Record>, d: seq<Record>, pageSize: nat) {
    && (forall k: nat :: show(k + 1, None) == Window(d, pageSize, Start(k, pageSize)))
    && (forall number: nat, last: nat :: number >= 1 && 0 <= last < |d| ==>
          show(number, Some(Position(Before, d[last].at, d[last].id))) == Window(d, pageSize, last + 1))
    && (forall number: nat, from: nat :: number >= 1 && pageSize <= from < |d| ==>
          show(number, Some(Position(After, d[from].at, d[from].id))) == Window(d, pageSize, from - pageSize))
  }

  function Server(rows: seq<Record>, pageSize: nat): (nat, Option<Position>) -> Page<Record> {
    (number: nat, cursor: Option<Position>) => View(rows, pageSize, number, cursor)
  }

  lemma ViewNumber(rows: seq<Record>, pageSize: nat, k: nat)
    requires pageSize > 0
    ensures View(rows, pageSize, k + 1, None) == Window(Listing(rows), pageSize, Start(k, pageSize))
  {
    StartIs(k, pageSize);
    ByNumber(rows, pageSize, k + 1, Start(k, pageSize));
  }

  /** Queries by page number, by next cursor and by previous cursor all show windows of the sorted table. */
  lemma ServerServes(rows: seq<Record>, pageSize: nat)
    requires Table(rows) && pageSize > 0
    ensures Serves(Server(rows, pageSize), Listing(rows), pageSize)
  {
    var show, d := Server(rows, pageSize), Listing(rows);
    ListingSorted(rows);
    forall k: nat ensures show(k + 1, None) == Window(d, pageSize, Start(k, pageSize)) {
      ViewNumber(rows, pageSize, k);
    }
    forall number: nat, last: nat | number >= 1 && 0 <= last < |d|
      ensures show(number, Some(Position(Before, d[last].at, d[last].id))) == Window(d, pageSize, last + 1)
    {
      ByNextLink(rows, pageSize, number, Offset(number, pageSize), last);
    }
    forall number: nat, from: nat | number >= 1 && pageSize <= from < |d|
      ensures show(number, Some(Position(After, d[from].at, d[from].id))) == Window(d, pageSize, from - pageSize)
    {
      ByPreviousLink(rows, pageSize, number, Offset(number, pageSize), from);
    }
  }

  datatype Move = Older | Newer

  /** What is on screen: a page and its number. */
  datatype Screen = Screen(page: Page<Record>, number: nat)

  /** Follows a link of the page on screen, when it is there: a link carries the next or previous page
      number and the cursor of the last or first record on the page. */
  function Follow(show: (nat, Option<Position>) -> Page<Record>, r: Screen, move: Move): Screen {
    var items := r.page.items;
    if move.Older? && r.page.hasNext && items != [] then
      var number := if r.number < MaxPage then r.number + 1 else MaxPage;
      Screen(show(number, Target(items[|items| - 1], Before)), number)
    else if move.Newer? && r.page.hasPrevious && items != [] then
      var number := if r.number > 1 then r.number - 1 else 1;
      Screen(show(number, Target(items[0], After)), number)
    else r
  }

  function Browse(show: (nat, Option<Position>) -> Page<Record>, moves: seq<Move>): Screen {
    if moves == [] then Screen(show(1, None), 1)
    else Follow(show, Browse(show, moves[..|moves| - 1]), moves[|moves| - 1])
  }

  /** Index of the page the same moves reach on a list of `total` records. */
  function PageIndex(total: nat, pageSize: nat, moves: seq<Move>): nat {
    if moves == [] then 0
    else Moved(total, pageSize, PageIndex(total, pageSize, moves[..|moves| - 1]), moves[|moves| - 1])
  }

  function Moved(total: nat, pageSize: nat, k: nat, move: Move): nat {
    match move
    case Older => if Start(k + 1, pageSize) < total then k + 1 else k
    case Newer => if k > 0 then k - 1 else 0
  }

  // ---------------------------------------------------------------- where links lead

  /** Index of the page on screen, and the page number that its links are made from. */
  datatype Spot = Spot(index: nat, number: nat)

  function NextNumber(number: nat): (next: nat)
    ensures next >= 1
  {
    if number < MaxPage then number + 1 else MaxPage
  }

  function PreviousNumber(number: nat): (previous: nat)
    ensures previous >= 1
  {
    if number > 1 then number - 1 else 1
  }

  /** Where a link leads: to the neighbouring page, or, when it does not decode, to the page of its number. */
  function Led(d: seq<Record>, pageSize: nat, at: Spot, move: Move): Spot {
    match move
    case Older =>
      if 0 < Start(at.index + 1, pageSize) < |d| then
        Spot(if d[Start(at.index + 1, pageSize) - 1].at > 0 then at.index + 1 else NextNumber(at.number) - 1, NextNumber(at.number))
      else at
    case Newer =>
      if at.index > 0 && Start(at.index, pageSize) < |d| then
        Spot(if d[Start(at.index, pageSize)].at > 0 then at.index - 1 else PreviousNumber(at.number) - 1, PreviousNumber(at.number))
      else at
  }

  function LedAll(d: seq<Record>, pageSize: nat, moves: seq<Move>): Spot {
    if moves == [] then Spot(0, 1)
    else Led(d, pageSize, LedAll(d, pageSize, moves[..|moves| - 1]), moves[|moves| - 1])
  }

  lemma {:induction false} StartsRise(a: nat, b: nat, pageSize: nat)
    requires a <= b && pageSize > 0
    ensures Start(a, pageSize) <= Start(b, pageSize) && (a < b ==> Start(a, pageSize) < Start(b, pageSize))
  {
    if a < b { StartsRise(a, b - 1, pageSize); }
  }

  lemma {:induction false} StartOrder(a: nat, b: nat, pageSize: nat)
    requires Start(a, pageSize) < Start(b, pageSize)
    ensures a < b
  {
    if b > 0 && a > 0 { StartOrder(a - 1, b - 1, pageSize); }
  }

  lemma WindowEnds(d: seq<Record>, pageSize: nat, from: nat)
    requires pageSize > 0 && from + pageSize < |d|
    ensures var w := Window(d, pageSize, from);
            |w.items| == pageSize && w.items[pageSize - 1] == d[from + pageSize - 1] && w.hasNext
  {
  }

  lemma ShowsNumber(show: (nat, Option<Position>) -> Page<Record>, d: seq<Record>, pageSize: nat, number: nat)
    requires Serves(show, d, pageSize) && number >= 1
    ensures show(number, None) == Window(d, pageSize, Start(number - 1, pageSize))
  {
    assert show(number - 1 + 1, None) == Window(d, pageSize, Start(number - 1, pageSize));
  }

  lemma ShowsNext(show: (nat, Option<Position>) -> Page<Record>, d: seq<Record>, pageSize: nat, number: nat, last: nat)
    requires Serves(show, d, pageSize) && number >= 1 && last < |d|
    ensures show(number, Some(Position(Before, d[last].at, d[last].id))) == Window(d, pageSize, last + 1)
  {
  }

  lemma ShowsPrevious(show: (nat, Option<Position>) -> Page<Record>, d: seq<Record>, pageSize: nat, number: nat, from: nat)
    requires Serves(show, d, pageSize) && number >= 1 && pageSize <= from < |d|
    ensures show(number, Some(Position(After, d[from].at, d[from].id))) == Window(d, pageSize, from - pageSize)
  {
  }

  /** The number of a page never runs ahead of the page. */
  predicate Fair(d: seq<Record>, pageSize: nat, at: Spot) {
    1 <= at.number <= at.index + 1 && (at.index == 0 || Start(at.index, pageSize) < |d|)
  }

  lemma {:induction false} LedFair(d: seq<Record>, pageSize: nat, at: Spot, move: Move)
    requires pageSize > 0 && Fair(d, pageSize, at)
    ensures Fair(d, pageSize, Led(d, pageSize, at, move))
  {
    var to := Led(d, pageSize, at, move);
    if to.index <= at.index { StartsRise(to.index, at.index, pageSize); }
  }

  lemma FollowNextLink(show: (nat, Option<Position>) -> Page<Record>, page: Page<Record>, number: nat)
    requires page.hasNext && page.items != []
    ensures Follow(show, Screen(page, number), Older)
         == Screen(show(NextNumber(number), Target(page.items[|page.items| - 1], Before)), NextNumber(number))
  {
  }

  lemma {:induction false} ShownOlder(show: (nat, Option<Position>) -> Page<Record>, d: seq<Record>, pageSize: nat, at: Spot)
    requires Serves(show, d, pageSize) && pageSize > 0 && Start(at.index + 1, pageSize) < |d|
    ensures show(NextNumber(at.number), Target(d[Start(at.index + 1, pageSize) - 1], Before))
         == Window(d, pageSize, Start(Led(d, pageSize, at, Older).index, pageSize))
  {
    ShowsTarget(show, d, pageSize, NextNumber(at.number), Start(at.index + 1, pageSize) - 1);
  }

  lemma {:induction false} ShowsTarget(show: (nat, Option<Position>) -> Page<Record>, d: seq<Record>, pageSize: nat, number: nat, last: nat)
    requires Serves(show, d, pageSize) && number >= 1 && last < |d|
    ensures show(number, Target(d[last], Before)) == Window(d, pageSize, if d[last].at > 0 then last + 1 else Start(number - 1, pageSize))
  {
    if d[last].at > 0 { ShowsNext(show, d, pageSize, number, last); } else { ShowsNumber(show, d, pageSize, number); }
  }

  lemma {:induction false} FollowOlder(show: (nat, Option<Position>) -> Page<Record>, d: seq<Record>, pageSize: nat, at: Spot)
    requires pageSize > 0 && Fair(d, pageSize, at)
    requires Start(at.index + 1, pageSize) < |d| ==>
               show(NextNumber(at.number), Target(d[Start(at.index + 1, pageSize) - 1], Before))
               == Window(d, pageSize, Start(Led(d, pageSize, at, Older).index, pageSize))
    ensures var to := Led(d, pageSize, at, Older);
            Follow(show, Screen(Window(d, pageSize, Start(at.index, pageSize)), at.number), Older)
            == Screen(Window(d, pageSize, Start(to.index, pageSize)), to.number)
  {
    if Start(at.index + 1, pageSize) < |d| {
      WindowEnds(d, pageSize, Start(at.index, pageSize));
      FollowNextLink(show, Window(d, pageSize, Start(at.index, pageSize)), at.number);
    }
  }

  lemma {:induction false} ShowsTargetBack(show: (nat, Option<Position>) -> Page<Record>, d: seq<Record>, pageSize: nat, number: nat, from: nat)
    requires Serves(show, d, pageSize) && number >= 1 && pageSize <= from < |d|
    ensures show(number, Target(d[from], After)) == Window(d, pageSize, if d[from].at > 0 then from - pageSize else Start(number - 1, pageSize))
  {
    if d[from].at > 0 { ShowsPrevious(show, d, pageSize, number, from); } else { ShowsNumber(show, d, pageSize, number); }
  }

  lemma {:induction false} ShownNewer(show: (nat, Option<Position>) -> Page<Record>, d: seq<Record>, pageSize: nat, at: Spot)
    requires Serves(show, d, pageSize) && pageSize > 0 && at.index > 0 && Start(at.index, pageSize) < |d|
    ensures show(PreviousNumber(at.number), Target(d[Start(at.index, pageSize)], After))
         == Window(d, pageSize, Start(Led(d, pageSize, at, Newer).index, pageSize))
  {
    ShowsTargetBack(show, d, pageSize, PreviousNumber(at.number), Start(at.index, pageSize));
  }

  lemma {:induction false} FollowNewer(show: (nat, Option<Position>) -> Page<Record>, d: seq<Record>, pageSize: nat, at: Spot)
    requires pageSize > 0 && Fair(d, pageSize, at)
    requires at.index > 0 ==>
               show(PreviousNumber(at.number), Target(d[Start(at.index, pageSize)], After))
               == Window(d, pageSize, Start(Led(d, pageSize, at, Newer).index, pageSize))
    ensures var to := Led(d, pageSize, at, Newer);
            Follow(show, Screen(Window(d, pageSize, Start(at.index, pageSize)), at.number), Newer)
            == Screen(Window(d, pageSize, Start(to.index, pageSize)), to.number)
  {
    if at.index > 0 {
      var page := Window(d, pageSize, Start(at.index, pageSize));
      assert page.hasPrevious && page.items != [] && page.items[0] == d[Start(at.index, pageSize)];
    }
  }

  /** Browsing shows the windows that the links lead to, and no others. */
  lemma {:induction false} BrowseIsLed(show: (nat, Option<Position>) -> Page<Record>, d: seq<Record>, pageSize: nat, moves: seq<Move>)
    requires Serves(show, d, pageSize) && pageSize > 0
    ensures var at := LedAll(d, pageSize, moves);
            Fair(d, pageSize, at) && Browse(show, moves) == Screen(Window(d, pageSize, Start(at.index, pageSize)), at.number)
  {
    if moves == [] {
      ShowsNumber(show, d, pageSize, 1);
    } else {
      var front, last := moves[..|moves| - 1], moves[|moves| - 1];
      var at := LedAll(d, pageSize, front);
      BrowseIsLed(show, d, pageSize, front);
      LedFair(d, pageSize, at, last);
      match last
      case Older =>
        if Start(at.index + 1, pageSize) < |d| { ShownOlder(show, d, pageSize, at); }
        FollowOlder(show, d, pageSize, at);
      case Newer =>
        if at.index > 0 { ShownNewer(show, d, pageSize, at); }
        FollowNewer(show, d, pageSize, at);
    }
  }

  // ---------------------------------------------------------------- when links lead to the neighbouring page

  /** Page numbers reach every page. */
  predicate Few(d: seq<Record>, pageSize: nat) { |d| <= Start(MaxPage, pageSize) }

  /** Every page beyond the last page number begins with a record whose link decodes. */
  ghost predicate Reachable(d: seq<Record>, pageSize: nat) {
    forall k: nat :: k >= MaxPage && Start(k, pageSize) < |d| ==> d[Start(k, pageSize)].at > 0
  }

  predicate NewestFirst(d: seq<Record>) { forall i, j :: 0 <= i < j < |d| ==> d[i].at >= d[j].at }

  lemma StrictIsNewestFirst(d: seq<Record>)
    requires Strict(d)
    ensures NewestFirst(d)
  {
    forall i, j | 0 <= i < j < |d| ensures d[i].at >= d[j].at { assert Above(d[i], d[j].at, d[j].id); }
  }

  /** With more pages than numbers, both links across the start of any page decode. */
  lemma {:induction false} LinksAcross(d: seq<Record>, pageSize: nat, k: nat)
    requires pageSize > 0 && NewestFirst(d) && Reachable(d, pageSize) && !Few(d, pageSize) && 0 < k && Start(k, pageSize) < |d|
    ensures d[Start(k, pageSize)].at > 0 && 0 < Start(k, pageSize) && d[Start(k, pageSize) - 1].at > 0
  {
    StartsRise(0, k, pageSize);
    if k < MaxPage { StartsRise(k, MaxPage, pageSize); }
  }

  /** The right page is on screen, with the right number when numbers reach every page. */
  predicate OnCourse(d: seq<Record>, pageSize: nat, k: nat, at: Spot) {
    at.index == k && (k == 0 || Start(k, pageSize) < |d|) && (Few(d, pageSize) ==> at.number == k + 1)
  }

  lemma {:induction false} StepOnCourse(d: seq<Record>, pageSize: nat, k: nat, at: Spot, move: Move)
    requires pageSize > 0 && NewestFirst(d) && Reachable(d, pageSize) && OnCourse(d, pageSize, k, at)
    ensures OnCourse(d, pageSize, Moved(|d|, pageSize, k, move), Led(d, pageSize, at, move))
  {
    match move
    case Older =>
      if Start(k + 1, pageSize) < |d| {
        if Few(d, pageSize) { StartOrder(k + 1, MaxPage, pageSize); } else { LinksAcross(d, pageSize, k + 1); }
      }
    case Newer =>
      if k > 0 {
        StartsRise(k - 1, k, pageSize);
        if !Few(d, pageSize) { LinksAcross(d, pageSize, k); }
      }
  }

  lemma {:induction false} StaysOnCourse(d: seq<Record>, pageSize: nat, moves: seq<Move>)
    requires pageSize > 0 && NewestFirst(d) && Reachable(d, pageSize)
    ensures OnCourse(d, pageSize, PageIndex(|d|, pageSize, moves), LedAll(d, pageSize, moves))
  {
    if moves != [] {
      var front := moves[..|moves| - 1];
      StaysOnCourse(d, pageSize, front);
      StepOnCourse(d, pageSize, PageIndex(|d|, pageSize, front), LedAll(d, pageSize, front), moves[|moves| - 1]);
    }
  }

  function Repeat(n: nat): seq<Move> { seq(n, i => Older) }

  lemma {:induction false} OlderIndex(total: nat, pageSize: nat, k: nat)
    requires k == 0 || Start(k, pageSize) < total
    ensures PageIndex(total, pageSize, Repeat(k)) == k
  {
    if k > 0 {
      OlderIndex(total, pageSize, k - 1);
      assert Repeat(k)[..k - 1] == Repeat(k - 1);
    }
  }

  predicate Decodes(d: seq<Record>, i: int) { 0 <= i < |d| ==> d[i].at > 0 }

  /** Of the pages before the n-th, those that no number reaches are linked to by a record whose link decodes. */
  ghost predicate NextLinksDecode(d: seq<Record>, pageSize: nat, n: nat) {
    forall j: nat :: MaxPage <= j < n ==> Decodes(d, Start(j, pageSize) - 1)
  }

  lemma LedOlder(d: seq<Record>, pageSize: nat, k: nat)
    ensures LedAll(d, pageSize, Repeat(k + 1)) == Led(d, pageSize, LedAll(d, pageSize, Repeat(k)), Older)
  {
    assert Repeat(k + 1)[..k] == Repeat(k);
  }

  /** Following next links as long as they decode, or numbers are left. */
  lemma {:induction false} OlderRun(d: seq<Record>, pageSize: nat, k: nat)
    requires pageSize > 0 && (k == 0 || Start(k, pageSize) < |d|) && NextLinksDecode(d, pageSize, k + 1)
    ensures LedAll(d, pageSize, Repeat(k)) == Spot(k, Min(k + 1, MaxPage))
  {
    if k > 0 {
      StartsRise(k - 1, k, pageSize);
      OlderRun(d, pageSize, k - 1);
      LedOlder(d, pageSize, k - 1);
      assert k >= MaxPage ==> Decodes(d, Start(k, pageSize) - 1);
    }
  }

  /** Beyond the numbers, a next link that does not decode leads to the page of the last number. */
  lemma {:induction false} OlderStray(d: seq<Record>, pageSize: nat, k: nat)
    requires pageSize > 0 && MaxPage <= k && Start(k, pageSize) < |d| && NextLinksDecode(d, pageSize, k)
    requires !Decodes(d, Start(k, pageSize) - 1)
    ensures LedAll(d, pageSize, Repeat(k)).index == MaxPage - 1
  {
    StartsRise(k - 1, k, pageSize);
    OlderRun(d, pageSize, k - 1);
    LedOlder(d, pageSize, k - 1);
  }

  /** And a previous link that does not decode to the page before that. */
  lemma {:induction false} NewerStray(d: seq<Record>, pageSize: nat, k: nat)
    requires pageSize > 0 && MaxPage <= k && Start(k, pageSize) < |d| && NextLinksDecode(d, pageSize, k + 1)
    requires d[Start(k, pageSize)].at <= 0
    ensures LedAll(d, pageSize, Repeat(k) + [Newer]).index == MaxPage - 2
    ensures PageIndex(|d|, pageSize, Repeat(k) + [Newer]) == k - 1
  {
    OlderRun(d, pageSize, k);
    OlderIndex(|d|, pageSize, k);
    assert (Repeat(k) + [Newer])[..k] == Repeat(k);
  }

  /** The first page beyond the numbers that begins with a record whose link does not decode. */
  lemma {:induction false} FirstUnreachable(d: seq<Record>, pageSize: nat, k: nat) returns (first: nat)
    requires MaxPage <= k && Start(k, pageSize) < |d| && d[Start(k, pageSize)].at <= 0 && pageSize > 0 && NewestFirst(d)
    ensures MaxPage <= first && Start(first, pageSize) < |d| && d[Start(first, pageSize)].at <= 0 && NextLinksDecode(d, pageSize, first)
    decreases k
  {
    if j: nat :| MaxPage <= j < k && !Decodes(d, Start(j, pageSize) - 1) {
      StartsRise(j, k, pageSize);
      first := FirstUnreachable(d, pageSize, j);
    } else {
      first := k;
    }
  }

  lemma {:induction false} PreviousAstray(d: seq<Record>, pageSize: nat, k: nat)
    requires pageSize > 0 && MaxPage <= k && Start(k, pageSize) < |d| && NextLinksDecode(d, pageSize, k)
    requires Decodes(d, Start(k, pageSize) - 1) && d[Start(k, pageSize)].at <= 0
    ensures var moves := Repeat(k) + [Newer];
            LedAll(d, pageSize, moves).index < PageIndex(|d|, pageSize, moves) == k - 1 && Start(k - 1, pageSize) < |d|
  {
    assert NextLinksDecode(d, pageSize, k + 1) by {
      forall j: nat | MaxPage <= j < k + 1 ensures Decodes(d, Start(j, pageSize) - 1) {}
    }
    NewerStray(d, pageSize, k);
    StartsRise(k - 1, k, pageSize);
  }

  lemma {:induction false} NextAstray(d: seq<Record>, pageSize: nat, k: nat)
    requires pageSize > 0 && MaxPage <= k && Start(k, pageSize) < |d| && NextLinksDecode(d, pageSize, k)
    requires !Decodes(d, Start(k, pageSize) - 1)
    ensures LedAll(d, pageSize, Repeat(k)).index < PageIndex(|d|, pageSize, Repeat(k)) == k
  {
    OlderStray(d, pageSize, k);
    OlderIndex(|d|, pageSize, k);
  }

  /** Beyond such a page some links lead astray. */
  lemma {:induction false} GoesAstray(d: seq<Record>, pageSize: nat, k: nat) returns (moves: seq<Move>)
    requires pageSize > 0 && NewestFirst(d) && MaxPage <= k && Start(k, pageSize) < |d| && d[Start(k, pageSize)].at <= 0
    ensures var a, b := LedAll(d, pageSize, moves).index, PageIndex(|d|, pageSize, moves); a < b && Start(b, pageSize) < |d|
  {
    var first := FirstUnreachable(d, pageSize, k);
    if Decodes(d, Start(first, pageSize) - 1) {
      moves := Repeat(first) + [Newer];
      PreviousAstray(d, pageSize, first);
    } else {
      moves := Repeat(first);
      NextAstray(d, pageSize, first);
    }
  }

  lemma {:induction false} WindowsDiffer(d: seq<Record>, pageSize: nat, a: nat, b: nat)
    requires Strict(d) && pageSize > 0 && a < b && Start(b, pageSize) < |d|
    ensures Window(d, pageSize, Start(a, pageSize)) != Window(d, pageSize, Start(b, pageSize))
    ensures Start(a, pageSize) < Start(b, pageSize) && d[Start(a, pageSize)] != d[Start(b, pageSize)]
  {
    StartsRise(a, b, pageSize);
    assert Window(d, pageSize, Start(a, pageSize)).items[0] == d[Start(a, pageSize)];
    assert Window(d, pageSize, Start(b, pageSize)).items[0] == d[Start(b, pageSize)];
  }

  /** Whatever links are followed, the page on screen is the window of the sorted table that the same moves reach on
      the whole list, and a link is offered exactly when there is more on that side; this holds for every sequence of
      links exactly when each page beyond the last page number begins with a record of positive time. */
  lemma {:induction false} BrowsingShowsWindows(rows: seq<Record>, pageSize: nat)
    requires Table(rows) && pageSize > 0
    ensures var d := Listing(rows);
            Reachable(d, pageSize) <==> forall moves :: Browse(Server(rows, pageSize), moves).page
                                                      == Window(d, pageSize, PageIndex(|d|, pageSize, moves) * pageSize)
  {
    var show, d := Server(rows, pageSize), Listing(rows);
    ListingSorted(rows);
    StrictIsNewestFirst(d);
    ServerServes(rows, pageSize);
    if Reachable(d, pageSize) {
      forall moves ensures Browse(show, moves).page == Window(d, pageSize, PageIndex(|d|, pageSize, moves) * pageSize) {
        BrowseIsLed(show, d, pageSize, moves);
        StaysOnCourse(d, pageSize, moves);
        StartIs(PageIndex(|d|, pageSize, moves), pageSize);
      }
    } else {
      var k: nat :| k >= MaxPage && Start(k, pageSize) < |d| && d[Start(k, pageSize)].at <= 0;
      var moves := GoesAstray(d, pageSize, k);
      BrowseIsLed(show, d, pageSize, moves);
      WindowsDiffer(d, pageSize, LedAll(d, pageSize, moves).index, PageIndex(|d|, pageSize, moves));
      StartIs(PageIndex(|d|, pageSize, moves), pageSize);
    }
  }

  // ---------------------------------------------------------------- walking along next links

  /** The page reached by following k next links. */
  function Walk(show: (nat, Option<Position>) -> Page<Record>): nat -> Page<Record> {
    (k: nat) => Browse(show, Repeat(k)).page
  }

  /** Records seen on the first n pages. */
  function Seen(pages: nat -> Page<Record>, n: nat): seq<Record> {
    if n == 0 then [] else Seen(pages, n - 1) + pages(n - 1).items
  }

  lemma {:induction false} Gather(pages: nat -> Page<Record>, d: seq<Record>, pageSize: nat, n: nat)
    requires pageSize > 0 && (n <= 1 || Start(n - 1, pageSize) < |d|)
    requires forall k: nat :: k < n ==> pages(k) == Window(d, pageSize, Start(k, pageSize))
    ensures Seen(pages, n) == Take(d, Start(n, pageSize))
  {
    if n > 0 {
      Gather(pages, d, pageSize, n - 1);
      TakeMore(d, Start(n - 1, pageSize), pageSize);
    }
  }

  lemma TakeMore(d: seq<Record>, from: nat, pageSize: nat)
    requires from == 0 || from < |d|
    ensures Take(d, from) + Window(d, pageSize, from).items == Take(d, from + pageSize)
  {
  }

  lemma {:induction false} StartsInside(d: seq<Record>, pageSize: nat, k: nat, n: nat)
    requires k <= n && Start(n, pageSize) < |d|
    ensures Start(k, pageSize) < |d|
  {
    if k < n { StartsInside(d, pageSize, k, n - 1); }
  }

  lemma {:induction false} SeenPrefix(pages: nat -> Page<Record>, j: nat, n: nat)
    requires j <= n
    ensures Seen(pages, j) <= Seen(pages, n)
  {
    if j < n { SeenPrefix(pages, j, n - 1); }
  }

  /** The pages are those the links lead to. */
  ghost predicate LedAlong(pages: nat -> Page<Record>, d: seq<Record>, pageSize: nat) {
    forall k: nat :: pages(k) == Window(d, pageSize, Start(LedAll(d, pageSize, Repeat(k)).index, pageSize))
  }

  lemma {:induction false} WalkRight(pages: nat -> Page<Record>, d: seq<Record>, pageSize: nat, n: nat)
    requires LedAlong(pages, d, pageSize) && pageSize > 0 && (n <= 1 || Start(n - 1, pageSize) < |d|) && NextLinksDecode(d, pageSize, n)
    ensures Seen(pages, n) == Take(d, Start(n, pageSize))
    ensures n > 0 && !pages(n - 1).hasNext ==> Seen(pages, n) == d
  {
    forall k: nat | k < n ensures pages(k) == Window(d, pageSize, Start(k, pageSize)) {
      if k > 0 { StartsInside(d, pageSize, k, n - 1); }
      OlderRun(d, pageSize, k);
    }
    Gather(pages, d, pageSize, n);
  }

  lemma {:induction false} FirstStray(d: seq<Record>, pageSize: nat, n: nat) returns (first: nat)
    requires !NextLinksDecode(d, pageSize, n)
    ensures MaxPage <= first < n && !Decodes(d, Start(first, pageSize) - 1) && NextLinksDecode(d, pageSize, first)
    decreases n
  {
    if NextLinksDecode(d, pageSize, n - 1) {
      first := n - 1;
    } else {
      first := FirstStray(d, pageSize, n - 1);
    }
  }

  /** After a link that does not decode a page is shown again. */
  lemma {:induction false} ShownAgain(pages: nat -> Page<Record>, d: seq<Record>, pageSize: nat, j: nat)
    requires LedAlong(pages, d, pageSize) && pageSize > 0 && Strict(d) && MaxPage <= j && Start(j - 1, pageSize) < Start(j, pageSize) < |d|
    requires NextLinksDecode(d, pageSize, j) && !Decodes(d, Start(j, pageSize) - 1)
    ensures Start(j, pageSize) < |Seen(pages, j + 1)| && Seen(pages, j + 1)[Start(j, pageSize)] != d[Start(j, pageSize)]
  {
    WalkRight(pages, d, pageSize, j);
    OlderStray(d, pageSize, j);
    WindowsDiffer(d, pageSize, MaxPage - 1, j);
    var again := Window(d, pageSize, Start(MaxPage - 1, pageSize)).items;
    assert again != [] && again[0] == d[Start(MaxPage - 1, pageSize)];
    assert Seen(pages, j + 1) == Seen(pages, j) + again && |Seen(pages, j)| == Start(j, pageSize);
  }

  lemma NotTaken<T>(front: seq<T>, all: seq<T>, d: seq<T>, at: nat, n: nat)
    requires front <= all && at < |front| && at < |d| && front[at] != d[at] && at < n
    ensures all != Take(d, n)
  {
    assert all[at] == front[at] && Take(d, n)[at] == d[at];
  }

  lemma {:induction false} StartsAround(d: seq<Record>, pageSize: nat, j: nat, n: nat)
    requires pageSize > 0 && 0 < j < n && Start(n - 1, pageSize) < |d|
    ensures Start(j - 1, pageSize) < Start(j, pageSize) < |d| && Start(j, pageSize) < Start(n, pageSize)
  {
    StartsRise(j - 1, j, pageSize);
    StartsRise(j, n - 1, pageSize);
    StartsRise(j, n, pageSize);
  }

  lemma {:induction false} WrongAt(pages: nat -> Page<Record>, d: seq<Record>, at: nat, j: nat, n: nat, end: nat)
    requires j <= n && at < |d| && at < end && at < |Seen(pages, j)| && Seen(pages, j)[at] != d[at]
    ensures Seen(pages, n) != Take(d, end)
  {
    SeenPrefix(pages, j, n);
    NotTaken(Seen(pages, j), Seen(pages, n), d, at, end);
  }

  lemma {:induction false} WalkIsLed(rows: seq<Record>, pageSize: nat)
    requires Table(rows) && pageSize > 0
    ensures LedAlong(Walk(Server(rows, pageSize)), Listing(rows), pageSize)
  {
    var show, d := Server(rows, pageSize), Listing(rows);
    ServerServes(rows, pageSize);
    forall k: nat ensures Walk(show)(k) == Window(d, pageSize, Start(LedAll(d, pageSize, Repeat(k)).index, pageSize)) {
      BrowseIsLed(show, d, pageSize, Repeat(k));
    }
  }

  lemma {:induction false} ServerRight(rows: seq<Record>, pageSize: nat, n: nat)
    requires Table(rows) && pageSize > 0 && NextLinksDecode(Listing(rows), pageSize, n)
    requires n <= 1 || Start(n - 1, pageSize) < |Listing(rows)|
    ensures var pages := Walk(Server(rows, pageSize));
            && Seen(pages, n) == Take(Listing(rows), Start(n, pageSize))
            && (n > 0 && !pages(n - 1).hasNext ==> Seen(pages, n) == Listing(rows))
  {
    WalkIsLed(rows, pageSize);
    WalkRight(Walk(Server(rows, pageSize)), Listing(rows), pageSize, n);
  }

  lemma {:induction false} ServerAgain(rows: seq<Record>, pageSize: nat, j: nat)
    requires Table(rows) && pageSize > 0 && MaxPage <= j && Start(j - 1, pageSize) < Start(j, pageSize) < |Listing(rows)|
    requires NextLinksDecode(Listing(rows), pageSize, j) && !Decodes(Listing(rows), Start(j, pageSize) - 1)
    ensures var seen := Seen(Walk(Server(rows, pageSize)), j + 1);
            Start(j, pageSize) < |seen| && seen[Start(j, pageSize)] != Listing(rows)[Start(j, pageSize)]
  {
    ListingSorted(rows);
    WalkIsLed(rows, pageSize);
    ShownAgain(Walk(Server(rows, pageSize)), Listing(rows), pageSize, j);
  }

  lemma {:induction false} ServerWrong(rows: seq<Record>, pageSize: nat, n: nat, j: nat)
    requires Table(rows) && pageSize > 0 && MaxPage <= j < n && Start(n - 1, pageSize) < |Listing(rows)|
    requires NextLinksDecode(Listing(rows), pageSize, j) && !Decodes(Listing(rows), Start(j, pageSize) - 1)
    ensures Seen(Walk(Server(rows, pageSize)), n) != Take(Listing(rows), Start(n, pageSize))
  {
    StartsAround(Listing(rows), pageSize, j, n);
    ServerAgain(rows, pageSize, j);
    WrongAt(Walk(Server(rows, pageSize)), Listing(rows), Start(j, pageSize), j + 1, n, Start(n, pageSize));
  }

  /** Walking along n pages of next links shows the first n pages of the sorted table exactly when the links beyond the
      last page number decode; and then, once no next link is offered, every record was shown once, newest first. */
  lemma {:induction false} WalkSeesAll(rows: seq<Record>, pageSize: nat, n: nat)
    requires Table(rows) && pageSize > 0
    requires n <= 1 || (n - 1) * pageSize < |rows|
    ensures Seen(Walk(Server(rows, pageSize)), n) == Take(Listing(rows), n * pageSize) <==> NextLinksDecode(Listing(rows), pageSize, n)
    ensures NextLinksDecode(Listing(rows), pageSize, n) && n > 0 && !Walk(Server(rows, pageSize))(n - 1).hasNext ==>
              multiset(Seen(Walk(Server(rows, pageSize)), n)) == multiset(rows)
              && Strict(Seen(Walk(Server(rows, pageSize)), n))
  {
    ListingSorted(rows);
    StartIs(n, pageSize);
    if n > 0 { StartIs(n - 1, pageSize); }
    if NextLinksDecode(Listing(rows), pageSize, n) {
      ServerRight(rows, pageSize, n);
    } else {
      var j := FirstStray(Listing(rows), pageSize, n);
      ServerWrong(rows, pageSize, n, j);
    }
  }
}
