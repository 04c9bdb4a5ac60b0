/**
 Listing the log: the whole reversed log filtered and cut into pages, and the fast path to the same pages.
 */
module LogPaging {

  import opened LogText
  import opened LogReaders

  /** A log entry: its id ("" when the stored object has none), its type and everything else. */
  datatype Item = Item(id: Text, kind: Text, rest: Text)

  datatype Parse = Failed | Parsed(item: Item)

  /** JSON decoding and encoding of an entry, and the digest that stands in for a missing id. */
  datatype Codec = Codec(decode: Text -> Parse, encode: Item -> Text, digest: (Text, int) -> Text) {

    /** What a line stands for; an entry without an id is given one from its text and line number. */
    function ParseLine(line: (Text, int)): Parse {
      match decode(line.0)
      case Failed => Failed
      case Parsed(item) =>
        Parsed(if item.id == "" then item.(id := digest(line.0, line.1)) else item)
    }
  }

  /** A query: an optional type, and the narrower conditions that rule out the fast path. */
  datatype Query = Query(kind: Text, precise: bool, narrow: Item -> bool) {
    predicate Wants(item: Item) {
      (kind == "" || item.kind == kind) && (precise ==> narrow(item))
    }
  }

  /** The wanted entries among the first `n` lines read. */
  function Matched(codec: Codec, query: Query, read: seq<(Text, int)>, n: nat): (items: seq<Item>)
    requires n <= |read|
    ensures |items| <= n
  {
    if n == 0 then []
    else
      var before := Matched(codec, query, read, n - 1);
      match codec.ParseLine(read[n - 1])
      case Failed => before
      case Parsed(item) => if query.Wants(item) then before + [item] else before
  }

  /** The whole log, newest entry first, filtered. */
  function Listing(codec: Codec, query: Query, content: Text): seq<Item> {
    Matched(codec, query, WholeBack(content), |WholeBack(content)|)
  }

  lemma {:induction false} MatchedGrows(codec: Codec, query: Query, read: seq<(Text, int)>, m: nat, n: nat)
    requires m <= n <= |read|
    ensures Matched(codec, query, read, m) <= Matched(codec, query, read, n)
    decreases n
  {
    if m < n {
      MatchedGrows(codec, query, read, m, n - 1);
    }
  }

  lemma {:induction false} MatchedSame(codec: Codec, query: Query, a: seq<(Text, int)>, b: seq<(Text, int)>, n: nat)
    requires n <= |a| && a <= b
    ensures Matched(codec, query, a, n) == Matched(codec, query, b, n)
  {
    if n == 0 {
    } else {
      MatchedSame(codec, query, a, b, n - 1);
    }
  }

  /** A blank line is no entry, so what the fast reader does not see makes no difference. */
  lemma {:induction false} RecentIsEnough(codec: Codec, query: Query, content: Text)
    requires codec.decode("") == Failed
    ensures var recent := RecentBack(content, |Lines(content)| - 1);
            Matched(codec, query, recent, |recent|) == Listing(codec, query, content)
  {
    var recent, whole := RecentBack(content, |Lines(content)| - 1), WholeBack(content);
    RecentAgrees(content);
    if recent != whole {
      MatchedSame(codec, query, recent, whole, |recent|);
    }
  }

  function Slice(items: seq<Item>, offset: nat, limit: nat): seq<Item> {
    if offset >= |items| then []
    else if offset + limit < |items| then items[offset..offset + limit]
    else items[offset..]
  }

  lemma {:induction false} SliceGrows(items: seq<Item>, item: Item, offset: nat, limit: nat)
    ensures var page := Slice(items, offset, limit);
            Slice(items + [item], offset, limit)
            == if |items| >= offset && |page| < limit then page + [item] else page
  {
  }

  /** Stopping one entry behind the page loses nothing of the page. */
  lemma {:induction false} SliceOfPrefix(some: seq<Item>, all: seq<Item>, offset: nat, limit: nat)
    requires some <= all && (some == all || |some| > offset + limit)
    ensures Slice(some, offset, limit) == Slice(all, offset, limit)
  {
  }

  lemma {:induction false} PrefixIsSlice(some: seq<Item>, all: seq<Item>, count: nat)
    requires some <= all && |some| <= count && (some == all || |some| == count)
    ensures some == Slice(all, 0, count)
  {
    assert some == all[..|some|];
  }

  const CHUNK_SIZE: nat := 1048576

  /** The loop both listings share: wanted entries until there are `count` of them. */
  method TakeWanted(codec: Codec, query: Query, read: seq<(Text, int)>, count: int) returns (items: seq<Item>)
    ensures items <= Matched(codec, query, read, |read|)
    ensures items == Matched(codec, query, read, |read|) || |items| == if count < 1 then 1 else count
    ensures |items| <= if count < 1 then 1 else count
  {
    items := [];
    var n := 0;
    while n < |read|
      invariant n <= |read|
      invariant items == Matched(codec, query, read, n)
      invariant items == [] || |items| < count
    {
      var line := codec.ParseLine(read[n]);
      n := n + 1;
      if line.Parsed? && query.Wants(line.item) {
        items := items + [line.item];
        if |items| >= count {
          break;
        }
      }
    }
    MatchedGrows(codec, query, read, n, |read|);
  }

  /** The newest wanted entries; one of them is given even when none is asked for. */
  method List(codec: Codec, query: Query, content: Text, limit: int) returns (items: seq<Item>)
    ensures items == Slice(Listing(codec, query, content), 0, if limit < 1 then 1 else limit)
  {
    var read := IterRawLinesReverse(content, CHUNK_SIZE);
    items := TakeWanted(codec, query, read, limit);
    PrefixIsSlice(items, Listing(codec, query, content), if limit < 1 then 1 else limit);
  }

  datatype Page = Page(items: seq<Item>, total: nat, limit: nat, offset: nat, hasMore: bool)

  /** The slow path: count everything wanted, keep what falls on the page. */
  method ListPageSlow(codec: Codec, query: Query, content: Text, limit: nat, offset: nat) returns (page: Page)
    requires limit >= 1
    ensures var all := Listing(codec, query, content); var items := Slice(all, offset, limit);
            page == Page(items, |all|, limit, offset, offset + |items| < |all|)
  {
    var items, total := [], 0;
    var read := IterRawLinesReverse(content, CHUNK_SIZE);
    for n := 0 to |read|
      invariant total == |Matched(codec, query, read, n)|
      invariant items == Slice(Matched(codec, query, read, n), offset, limit)
    {
      var line := codec.ParseLine(read[n]);
      if line.Parsed? && query.Wants(line.item) {
        SliceGrows(Matched(codec, query, read, n), line.item, offset, limit);
        total := total + 1;
        if total > offset && |items| < limit {
          items := items + [line.item];
        }
      }
    }
    page := Page(items, total, limit, offset, offset + |items| < total);
  }

  method ReadRecent(codec: Codec, ghost query: Query, content: Text, totalLines: int)
    returns (read: seq<(Text, int)>)
    requires codec.decode("") == Failed && totalLines == |Lines(content)|
    ensures Matched(codec, query, read, |read|) == Listing(codec, query, content)
  {
    read := IterRecentRawLines(content, totalLines, totalLines - 1, CHUNK_SIZE);
    RecentLength(content);
    RecentIsEnough(codec, query, content);
  }

  /**
   The fast path stops one entry behind the page. Its items are those of the slow path; so is its
   has-more answer when a type is given. Without a type it compares with the number of lines.
   */
  method ListPageFast(codec: Codec, query: Query, content: Text, limit: nat, offset: nat, typeCount: nat)
    returns (page: Page)
    requires codec.decode("") == Failed
    requires limit >= 1 && !query.precise
    ensures page.limit == limit && page.offset == offset
    ensures page.items == Slice(Listing(codec, query, content), offset, limit)
    ensures query.kind != "" ==> page.hasMore == (offset + |page.items| < |Listing(codec, query, content)|)
    ensures query.kind == "" ==> page.hasMore == (offset + |page.items| < |Lines(content)|)
    ensures page.total == if query.kind != "" then typeCount else |Lines(content)|
  {
    var totalLines: int := LineCount(content, CHUNK_SIZE);
    var total := if query.kind != "" then typeCount else totalLines;
    var targetCount := offset + limit + 1;
    var read := ReadRecent(codec, query, content, totalLines);
    var matched := TakeWanted(codec, query, read, targetCount);
    SliceOfPrefix(matched, Listing(codec, query, content), offset, limit);
    var items := Slice(matched, offset, limit);
    var more := if query.kind != "" then |matched| > offset + limit else offset + |items| < total;
    page := Page(items, total, limit, offset, more);
  }

  lemma {:induction false} RecentLength(content: Text)
    ensures |RecentBack(content, |Lines(content)| - 1)| <= |Lines(content)|
  {
    RecentAgrees(content);
  }

  function LimitFor(limit: int): (safe: nat)
    ensures 1 <= safe <= 20000
  {
    if limit == 0 then 200 else if limit < 1 then 1 else if limit > 20000 then 20000 else limit
  }

  /** The page that a request is answered with: without a type its has-more answer counts lines. */
  function PageAt(codec: Codec, query: Query, content: Text, limit: int, offset: int, typeCount: nat): Page {
    var all, lines := Listing(codec, query, content), |Lines(content)|;
    var safeLimit, safeOffset := LimitFor(limit), if offset < 0 then 0 else offset;
    var items := Slice(all, safeOffset, safeLimit);
    var reached := safeOffset + |items|;
    Page(items, if query.precise then |all| else if query.kind != "" then typeCount else lines, safeLimit, safeOffset,
         if query.precise || query.kind != "" then reached < |all| else reached < lines)
  }

  lemma LimitIsClamped(limit: int)
    ensures LimitFor(0) == 200
    ensures 1 <= limit <= 20000 ==> LimitFor(limit) == limit
    ensures limit <= -1 ==> LimitFor(limit) == 1
    ensures limit >= 20001 ==> LimitFor(limit) == 20000
  {
  }

  /**
   A page by its places in the listing: it begins at the offset, which is at least zero, and goes on to the limit or
   the end. There is more if the listing goes on, or, without a type or a narrower condition, if the lines do.
   */
  lemma PageIsExact(codec: Codec, query: Query, content: Text, limit: int, offset: int, typeCount: nat)
    ensures var page := PageAt(codec, query, content, limit, offset, typeCount);
            var all, size := Listing(codec, query, content), |page.items|;
            && page.limit == LimitFor(limit) && (if offset > 0 then page.offset == offset else page.offset == 0)
            && size <= page.limit && (size < page.limit ==> size == 0 || page.offset + size == |all|)
            && (size == 0 ==> page.offset >= |all|)
            && (forall j :: 0 <= j < size ==> page.offset + j < |all| && page.items[j] == all[page.offset + j])
            && (query.precise ==> page.total == |all| && (page.hasMore <==> page.offset + size < |all|))
            && (!query.precise && query.kind != "" ==> page.total == typeCount && (page.hasMore <==> page.offset + size < |all|))
            && (!query.precise && query.kind == "" ==>
                  page.total == |Lines(content)| && (page.hasMore <==> page.offset + size < |Lines(content)|))
  {
  }

  /** The page request: the limit is 200 when none is given and is kept within 1 and 20000. */
  method ListPage(codec: Codec, query: Query, content: Text, limit: int, offset: int, typeCount: nat)
    returns (page: Page)
    requires codec.decode("") == Failed
    ensures page == PageAt(codec, query, content, limit, offset, typeCount)
  {
    var asked := if limit == 0 then 200 else limit;
    var safeLimit := if asked > 20000 then 20000 else asked;
    safeLimit := if safeLimit < 1 then 1 else safeLimit;
    var safeOffset := if offset < 0 then 0 else offset;
    if query.precise {
      page := ListPageSlow(codec, query, content, safeLimit, safeOffset);
    } else {
      page := ListPageFast(codec, query, content, safeLimit, safeOffset, typeCount);
    }
  }

  /** Comparing with the line count misleads exactly when the page reaches the end of the entries but not of the lines. */
  lemma {:induction false} LineCountMisleads(entries: seq<Item>, lines: nat, offset: nat, limit: nat)
    requires |entries| <= lines && limit >= 1
    ensures var reached := offset + |Slice(entries, offset, limit)|;
            (reached < lines) == (reached < |entries|)
            <==> (offset + limit < |entries| || lines <= |entries| || lines <= offset)
  {
  }

  /** Without a type, every page's has-more answer is that of the slow path exactly if every line is an entry. */
  lemma {:induction false} UntypedHasMore(codec: Codec, query: Query, content: Text)
    requires query.kind == "" && !query.precise
    ensures var entries, lines := Listing(codec, query, content), Lines(content);
            (forall offset: nat, limit: nat :: limit >= 1 ==>
              var reached := offset + |Slice(entries, offset, limit)|;
              (reached < |lines|) == (reached < |entries|))
            <==> forall i :: 0 <= i < |lines| ==> codec.decode(StripCR(lines[i])) != Failed
  {
    var entries, lines := Listing(codec, query, content), Lines(content);
    AllMatched(codec, query, WholeBack(content), |lines|);
    forall i | 0 <= i < |lines| ensures WholeBack(content)[|lines| - 1 - i].0 == StripCR(lines[i]) {}
    if |entries| < |lines| {
      var reached := |entries| + |Slice(entries, |entries|, 1)|;
      assert (reached < |lines|) != (reached < |entries|);
    }
  }

  lemma {:induction false} AllMatched(codec: Codec, query: Query, read: seq<(Text, int)>, n: nat)
    requires query.kind == "" && !query.precise && n <= |read|
    ensures |Matched(codec, query, read, n)| == n
            <==> forall k :: 0 <= k < n ==> codec.decode(read[k].0) != Failed
  {
    if n == 0 {
    } else {
      AllMatched(codec, query, read, n - 1);
    }
  }

  lemma {:induction false} ListingLength(codec: Codec, query: Query, content: Text)
    ensures |Listing(codec, query, content)| <= |Lines(content)|
  {
  }

  /** The entries a client gets who asks for pages from `offset` on as long as it is told that there is more. */
  function Crawl(codec: Codec, query: Query, content: Text, limit: int, offset: nat, typeCount: nat): seq<Item>
    decreases if offset < |Lines(content)| then |Lines(content)| - offset else 0
  {
    var page := PageAt(codec, query, content, limit, offset, typeCount);
    ListingLength(codec, query, content);
    if page.hasMore then page.items + Crawl(codec, query, content, limit, offset + page.limit, typeCount)
    else page.items
  }

  function Behind(items: seq<Item>, offset: nat): seq<Item> {
    if offset < |items| then items[offset..] else []
  }

  lemma {:induction false} SliceThenBehind(items: seq<Item>, offset: nat, limit: nat)
    requires limit >= 1
    ensures Slice(items, offset, limit) + Behind(items, offset + limit) == Behind(items, offset)
    ensures offset + |Slice(items, offset, limit)| >= |items| ==> Slice(items, offset, limit) == Behind(items, offset)
  {
  }

  /** On either path and with either count, paging through comes to an end and gives every entry once and in order. */
  lemma {:induction false} CrawlGivesAll(codec: Codec, query: Query, content: Text, limit: int, offset: nat, typeCount: nat)
    ensures Crawl(codec, query, content, limit, offset, typeCount) == Behind(Listing(codec, query, content), offset)
    decreases if offset < |Lines(content)| then |Lines(content)| - offset else 0
  {
    var page := PageAt(codec, query, content, limit, offset, typeCount);
    ListingLength(codec, query, content);
    SliceThenBehind(Listing(codec, query, content), offset, page.limit);
    if page.hasMore {
      CrawlGivesAll(codec, query, content, limit, offset + page.limit, typeCount);
    }
  }
}
