/**
 The corpus served to an index (src/serve.rs `op_items`; src/corpus.rs `changed_since`,
 `ItemsArgs::parse`): a page of the walk filtered by age, a client that pages to the end, and one that
 comes back later asking only for what changed.
 */
module Crawl {
  import opened Math
  import opened Wrappers
  import opened WireTypes
  import opened Corpus
  import Listing
  import Paths

  /** An index item. `body` is everything an index keeps beside identity and age: path, title, text,
      tags, links, properties. What the kind app makes of a file is part of it. */
  datatype Item = Item(id: string, updated: nat, body: string)

  const MAX_LIMIT := 200

  /** The asked-for limit, 50 by default, clamped to 1..200. */
  function Limit(asked: Option<u64>): (limit: nat)
    ensures 1 <= limit <= 200
    ensures asked.None? ==> limit == 50
    ensures asked.Some? && 1 <= asked.value <= 200 ==> limit == asked.value
    ensures asked == Some(0) ==> limit == 1
    ensures asked.Some? && asked.value > 200 ==> limit == 200
  {
    Max(1, Min(if asked.Some? then asked.value else 50, MAX_LIMIT))
  }

  function ItemFrom(f: Facts, extract: Facts -> string): Item {
    Item(f.info.nodeId, f.info.mtimeMs / 1000, extract(f))
  }

  function Items(facts: seq<Facts>, extract: Facts -> string): (r: seq<Item>)
    ensures |r| == |facts| && forall k :: 0 <= k < |facts| ==> r[k] == ItemFrom(facts[k], extract)
  {
    seq(|facts|, k requires 0 <= k < |facts| => ItemFrom(facts[k], extract))
  }

  /** The files modified in or after that second; all of them for 0. */
  function ChangedSince(facts: seq<Facts>, since: u64): seq<Facts> {
    if since == 0 then facts else Filtered(facts, since)
  }

  function Filtered(facts: seq<Facts>, since: u64): seq<Facts> {
    if facts == [] then []
    else (if facts[0].info.mtimeMs / 1000 >= since then [facts[0]] else []) + Filtered(facts[1..], since)
  }

  // ----- paging -----

  /** The corpus a request for `path` is about: the path is normalised first. */
  function Requested(drive: Tree, path: string): seq<Facts> {
    Paths.NormShape(path);
    CorpusOf(drive, Paths.NormPath(path))
  }

  datatype ItemsPage = ItemsPage(drive: string, items: seq<Item>, cursor: Option<nat>, more: bool, returned: nat)

  datatype ItemsError = NoDrives | NoSuchDrive(drive: string)

  /** An item shows a file: its node id, the second it was modified in, and what the index keeps of it. */
  predicate ShowsFile(item: Item, f: Facts, extract: Facts -> string) {
    && item.id == f.info.nodeId
    && item.updated * 1000 <= f.info.mtimeMs < (item.updated + 1) * 1000
    && item.body == extract(f)
  }

  predicate AllShow(items: seq<Item>, files: seq<Facts>, offset: nat, extract: Facts -> string) {
    forall k :: 0 <= k < |items| ==> offset + k < |files| && ShowsFile(items[k], files[offset + k], extract)
  }

  lemma StretchShows(files: seq<Facts>, lo: nat, hi: nat, extract: Facts -> string)
    requires lo <= hi <= |files|
    ensures AllShow(Items(files[lo..hi], extract), files, lo, extract)
  {
    var items := Items(files[lo..hi], extract);
    forall k | 0 <= k < |items|
      ensures ShowsFile(items[k], files[lo + k], extract)
    {
      ShowsOnly(items[k], files[lo + k], extract);
    }
  }

  lemma ShowsOnly(item: Item, f: Facts, extract: Facts -> string)
    ensures ShowsFile(item, f, extract) <==> item == ItemFrom(f, extract)
  {
  }

  /** The items show files `offset`, `offset + 1`, ... in order, at most 200 of them, and the cursor says
      where to go on when there are more. */
  predicate IsPage(page: ItemsPage, files: seq<Facts>, extract: Facts -> string, offset: u64, limit: Option<u64>) {
    && |page.items| == Min(offset + Limit(limit), |files|) - Min(offset, |files|)
    && AllShow(page.items, files, offset, extract)
    && page.cursor == (if offset + |page.items| < |files| then Some(offset + |page.items|) else None)
    && page.more == page.cursor.Some? && page.returned == |page.items| <= 200
  }

  method Assemble(page: seq<Facts>, extract: Facts -> string) returns (items: seq<Item>)
    ensures items == Items(page, extract)
  {
    items := [];
    for k := 0 to |page|
      invariant items == Items(page[..k], extract)
    {
      items := items + [ItemFrom(page[k], extract)];
    }
    assert page[..|page|] == page;
  }

  /** The page of one drive. */
  method PageItems(id: string, drive: Tree, path: string, offset: u64, limit: Option<u64>, since: u64,
                   extract: Facts -> string)
    returns (page: ItemsPage)
    requires WellFormed(drive)
    ensures page.drive == id
    ensures IsPage(page, ChangedSince(Requested(drive, path), since), extract, offset, limit)
  {
    Paths.NormShape(path);
    var walked := WalkFacts(drive, Paths.NormPath(path));
    var facts := ChangedSince(walked, since);
    var total := |facts|;
    var lo, hi := Min(offset, total), Min(offset + Limit(limit), total);
    var items := Assemble(facts[lo..hi], extract);
    StretchShows(facts, lo, hi, extract);
    var next := offset + |items|;
    var more := next < total;
    page := ItemsPage(id, items, if more then Some(next) else None, more, |items|);
  }

  /** `op_items`: the drive asked for, or the first one served when none is. `first` and `drives` are read
      in different lock sections. */
  method OpItems(asked: Option<string>, first: Option<string>, drives: map<string, Tree>, path: string, offset: u64,
                 limit: Option<u64>, since: u64, extract: Facts -> string)
    returns (r: Result<ItemsPage, ItemsError>)
    requires forall id :: id in drives ==> WellFormed(drives[id])
    ensures asked.None? && first.None? ==> r == Failure(NoDrives)
    ensures asked.Some? || first.Some? ==>
              var id := if asked.Some? then asked.value else first.value;
              if id !in drives then r == Failure(NoSuchDrive(id))
              else
                && r.Success? && r.value.drive == id
                && IsPage(r.value, ChangedSince(Requested(drives[id], path), since), extract, offset, limit)
  {
    if asked.None? && first.None? { return Failure(NoDrives); }
    var id := if asked.Some? then asked.value else first.value;
    if id !in drives { return Failure(NoSuchDrive(id)); }
    var page := PageItems(id, drives[id], path, offset, limit, since, extract);
    r := Success(page);
  }

  /** A client that follows the cursor over a drive that holds still, with whatever limits, gets the
      filtered walk: nothing skipped, nothing repeated. */
  method CrawlAll(id: string, drive: Tree, path: string, since: u64, limits: nat -> Option<u64>,
                  extract: Facts -> string)
    returns (got: seq<Item>)
    requires WellFormed(drive) && |Requested(drive, path)| < TWO_64
    ensures got == Items(ChangedSince(Requested(drive, path), since), extract)
  {
    got := [];
    ghost var files := ChangedSince(Requested(drive, path), since);
    FilterShrinks(Requested(drive, path), since);
    assert files[..0] == [] && files[..|files|] == files;
    var offset: Option<nat> := Some(0);
    while offset.Some?
      invariant offset.Some? ==> offset.value <= |files| && got == Items(files[..offset.value], extract)
      invariant offset.None? ==> got == Items(files, extract)
      decreases if offset.Some? then |files| - offset.value + 1 else 0
    {
      var page := PageItems(id, drive, path, offset.value, limits(offset.value), since, extract);
      PageExtends(page, files, extract, offset.value, limits(offset.value));
      got := got + page.items;
      offset := page.cursor;
    }
  }

  lemma PageExtends(page: ItemsPage, files: seq<Facts>, extract: Facts -> string, offset: u64, limit: Option<u64>)
    requires offset <= |files| && IsPage(page, files, extract, offset, limit)
    ensures var end := offset + |page.items|;
            && end <= |files| && Items(files[..offset], extract) + page.items == Items(files[..end], extract)
            && (page.cursor.Some? ==> page.cursor.value == end > offset)
            && (page.cursor.None? ==> files[..end] == files)
  {
    forall k | 0 <= k < |page.items|
      ensures page.items[k] == ItemFrom(files[offset + k], extract)
    {
      ShowsOnly(page.items[k], files[offset + k], extract);
    }
  }

  lemma {:induction false} FilterShrinks(facts: seq<Facts>, since: u64)
    ensures |ChangedSince(facts, since)| <= |facts|
    ensures since > 0 ==> |Filtered(facts, since)| <= |facts|
  {
    if facts != [] { FilterShrinks(facts[1..], since); }
  }

  // ----- which files a request is about -----

  lemma {:induction false} FilteredIsExact(fs: seq<Facts>, since: u64)
    ensures forall f :: f in Filtered(fs, since) <==> f in fs && f.info.mtimeMs / 1000 >= since
    ensures StrictlyAscending(fs) ==> StrictlyAscending(Filtered(fs, since))
  {
    if fs != [] {
      FilteredIsExact(fs[1..], since);
      assert forall f :: f in fs <==> f == fs[0] || f in fs[1..];
      if StrictlyAscending(fs) {
        forall f | f in fs[1..]
          ensures Listing.Less(fs[0].path, f.path)
        {
          var k :| 0 <= k < |fs| - 1 && fs[1..][k] == f;
          assert fs[k + 1] == f;
        }
        assert forall k :: 0 <= k < |Filtered(fs[1..], since)| ==> Filtered(fs[1..], since)[k] in fs[1..];
      }
    }
  }

  /** Exactly the files with content below the normalised path that were modified in or after that second
      (all of them for 0), sorted by path. */
  lemma RequestedFiles(drive: Tree, path: string, since: u64, f: Facts)
    requires WellFormed(drive)
    ensures var files := ChangedSince(Requested(drive, path), since);
            && (f in files <==> (exists segs :: LeadsTo(drive, Paths.NormPath(path), segs, f))
                                && (since == 0 || f.info.mtimeMs >= since * 1000))
            && StrictlyAscending(files)
  {
    Paths.NormShape(path);
    CorpusIsExact(drive, Paths.NormPath(path), f);
    CorpusAscends(drive, Paths.NormPath(path));
    FilteredIsExact(Requested(drive, path), since);
  }

  /** Node ids that are unique in the drive are unique in a crawl of it. */
  lemma CrawledIdsAreUnique(drive: Tree, path: string, since: u64, extract: Facts -> string)
    requires WellFormed(drive) && UniqueNodes(drive)
    ensures UniqueIds(Items(ChangedSince(Requested(drive, path), since), extract))
  {
    var files := ChangedSince(Requested(drive, path), since);
    Paths.NormShape(path);
    FilteredIsExact(Requested(drive, path), since);
    forall i, j | 0 <= i < j < |files|
      ensures files[i].info.nodeId != files[j].info.nodeId
    {
      RequestedFiles(drive, path, since, files[i]);
      assert files[i] in files && files[j] in files;
      if files[i].info.nodeId == files[j].info.nodeId {
        SameNodeSamePath(drive, Paths.NormPath(path), files[i], files[j]);
        Listing.LessIsStrict(files[i].path, files[j].path, files[i].path);
      }
    }
  }

  // ----- crawling again -----

  type Index = map<string, Item>

  /** Upsert by id. */
  function Merge(index: Index, items: seq<Item>): Index {
    if items == [] then index
    else
      var last := items[|items| - 1];
      Merge(index, items[..|items| - 1])[last.id := last]
  }

  /** The index a fresh full crawl builds. */
  function Full(items: seq<Item>): Index {
    Merge(map[], items)
  }

  function Recent(items: seq<Item>, since: nat): seq<Item> {
    if items == [] then []
    else (if since == 0 || items[0].updated >= since then [items[0]] else []) + Recent(items[1..], since)
  }

  /** Filtering the walk by age is filtering its items by the age they carry. */
  lemma {:induction false} RecentItems(facts: seq<Facts>, since: u64, extract: Facts -> string)
    ensures Items(ChangedSince(facts, since), extract) == Recent(Items(facts, extract), since)
  {
    if facts != [] {
      RecentItems(facts[1..], since, extract);
      assert Items(facts, extract)[1..] == Items(facts[1..], extract);
      assert facts == [facts[0]] + facts[1..];
    }
  }

  predicate UniqueIds(items: seq<Item>) {
    forall i, j :: 0 <= i < j < |items| ==> items[i].id != items[j].id
  }

  predicate Holds(items: seq<Item>, id: string) {
    exists k :: 0 <= k < |items| && items[k].id == id
  }

  lemma {:induction false} MergeKeys(index: Index, items: seq<Item>, id: string)
    ensures id in Merge(index, items) <==> id in index || Holds(items, id)
    ensures !Holds(items, id) && id in index ==> Merge(index, items)[id] == index[id]
  {
    if items != [] {
      var n := |items| - 1;
      MergeKeys(index, items[..n], id);
      assert Holds(items, id) <==> Holds(items[..n], id) || items[n].id == id by {
        if Holds(items[..n], id) {
          var k :| 0 <= k < n && items[..n][k].id == id;
          assert items[k].id == id;
        }
        if k :| 0 <= k < |items| && items[k].id == id {
          assert k < n ==> items[..n][k].id == id;
        }
      }
    }
  }

  lemma {:induction false} MergeValue(index: Index, items: seq<Item>, k: nat)
    requires UniqueIds(items) && k < |items|
    ensures items[k].id in Merge(index, items) && Merge(index, items)[items[k].id] == items[k]
  {
    if k < |items| - 1 { MergeValue(index, items[..|items| - 1], k); }
  }

  lemma {:induction false} RecentMembers(items: seq<Item>, since: nat, i: Item)
    ensures i in Recent(items, since) <==> i in items && (since == 0 || i.updated >= since)
  {
    if items != [] {
      RecentMembers(items[1..], since, i);
      assert i in items <==> i == items[0] || i in items[1..];
    }
  }

  lemma {:induction false} RecentKeepsUnique(items: seq<Item>, since: nat)
    requires UniqueIds(items)
    ensures UniqueIds(Recent(items, since))
  {
    if items != [] {
      var rest := Recent(items[1..], since);
      RecentKeepsUnique(items[1..], since);
      forall k | 0 <= k < |rest|
        ensures rest[k].id != items[0].id
      {
        RecentMembers(items[1..], since, rest[k]);
      }
    }
  }

  lemma RecentIsSublist(items: seq<Item>, since: nat)
    requires UniqueIds(items)
    ensures UniqueIds(Recent(items, since))
    ensures forall i :: i in Recent(items, since) <==> i in items && (since == 0 || i.updated >= since)
  {
    RecentKeepsUnique(items, since);
    forall i
      ensures i in Recent(items, since) <==> i in items && (since == 0 || i.updated >= since)
    {
      RecentMembers(items, since, i);
    }
  }

  /** What a later crawl may rely on: no item vanished, and whatever is not as it was is stamped no
      earlier than the newest item seen. */
  predicate Caught(prev: seq<Item>, items: seq<Item>, newest: nat) {
    && (forall p :: p in prev ==> Holds(items, p.id))
    && (forall i :: i in items ==> newest == 0 || i.updated >= newest || i in prev)
  }

  /** One later crawl, from an index that was up to date: the merge is a fresh full crawl exactly when
      nothing vanished and nothing changed behind the newest stamp. */
  lemma MergeIsFullIffCaught(prev: seq<Item>, items: seq<Item>, newest: nat)
    requires UniqueIds(prev) && UniqueIds(items)
    ensures Merge(Full(prev), Recent(items, newest)) == Full(items) <==> Caught(prev, items, newest)
  {
    RecentIsSublist(items, newest);
    if Caught(prev, items, newest) {
      CaughtMerges(prev, items, newest);
    }
    if Merge(Full(prev), Recent(items, newest)) == Full(items) {
      MergedWasCaught(prev, items, newest);
    }
  }

  lemma FullAt(items: seq<Item>, i: Item)
    requires UniqueIds(items) && i in items
    ensures i.id in Full(items) && Full(items)[i.id] == i
  {
    var k :| 0 <= k < |items| && items[k] == i;
    MergeValue(map[], items, k);
  }

  lemma MergeAt(index: Index, items: seq<Item>, i: Item)
    requires UniqueIds(items) && i in items
    ensures i.id in Merge(index, items) && Merge(index, items)[i.id] == i
  {
    var k :| 0 <= k < |items| && items[k] == i;
    MergeValue(index, items, k);
  }

  lemma CaughtMerges(prev: seq<Item>, items: seq<Item>, newest: nat)
    requires UniqueIds(prev) && UniqueIds(items) && Caught(prev, items, newest)
    ensures Merge(Full(prev), Recent(items, newest)) == Full(items)
  {
    var fetched := Recent(items, newest);
    var merged := Merge(Full(prev), fetched);
    RecentIsSublist(items, newest);
    forall i | i in items
      ensures i.id in merged && merged[i.id] == i
    {
      if i in fetched {
        MergeAt(Full(prev), fetched, i);
      } else {
        FullAt(prev, i);
        MergeKeys(Full(prev), fetched, i.id);
        SameIdSameItem(items, fetched, i);
      }
    }
    forall id | id in merged
      ensures Holds(items, id)
    {
      MergeKeys(Full(prev), fetched, id);
      MergeKeys(map[], prev, id);
    }
    SameMap(merged, items);
  }

  /** An item that was not fetched has an id that was not fetched. */
  lemma SameIdSameItem(items: seq<Item>, fetched: seq<Item>, i: Item)
    requires UniqueIds(items) && i in items && i !in fetched && forall f :: f in fetched ==> f in items
    ensures !Holds(fetched, i.id)
  {
    forall k | 0 <= k < |fetched|
      ensures fetched[k].id != i.id
    {
      assert fetched[k] in items;
      var a :| 0 <= a < |items| && items[a] == i;
      var b :| 0 <= b < |items| && items[b] == fetched[k];
    }
  }

  lemma SameMap(index: Index, items: seq<Item>)
    requires UniqueIds(items)
    requires forall i :: i in items ==> i.id in index && index[i.id] == i
    requires forall id :: id in index ==> Holds(items, id)
    ensures index == Full(items)
  {
    forall id
      ensures id in index <==> id in Full(items)
      ensures id in index ==> index[id] == Full(items)[id]
    {
      MergeKeys(map[], items, id);
      if Holds(items, id) {
        var k :| 0 <= k < |items| && items[k].id == id;
        FullAt(items, items[k]);
      }
    }
  }

  lemma MergedWasCaught(prev: seq<Item>, items: seq<Item>, newest: nat)
    requires UniqueIds(prev) && UniqueIds(items)
    requires Merge(Full(prev), Recent(items, newest)) == Full(items)
    ensures Caught(prev, items, newest)
  {
    var fetched := Recent(items, newest);
    RecentIsSublist(items, newest);
    forall p | p in prev
      ensures Holds(items, p.id)
    {
      FullAt(prev, p);
      MergeKeys(Full(prev), fetched, p.id);
      MergeKeys(map[], items, p.id);
    }
    forall i | i in items && i !in fetched
      ensures i in prev
    {
      FullAt(items, i);
      SameIdSameItem(items, fetched, i);
      MergeKeys(Full(prev), fetched, i.id);
      MergeKeys(map[], prev, i.id);
      var k :| 0 <= k < |prev| && prev[k].id == i.id;
      FullAt(prev, prev[k]);
    }
  }

  // ----- any number of rounds -----

  datatype Crawler = Crawler(index: Index, newest: nat)

  function Newest(items: seq<Item>): nat {
    if items == [] then 0 else Max(items[0].updated, Newest(items[1..]))
  }

  /** The index after each round: round `k` finds the drive with the items `rounds[k]` and asks for
      those no older than the newest it has seen. */
  function After(rounds: seq<seq<Item>>): Crawler {
    if rounds == [] then Crawler(map[], 0)
    else
      var c := After(rounds[..|rounds| - 1]);
      var fetched := Recent(rounds[|rounds| - 1], c.newest);
      Crawler(Merge(c.index, fetched), Max(c.newest, Newest(fetched)))
  }

  /** After every round the index was what a full crawl would have built. */
  predicate AlwaysFull(rounds: seq<seq<Item>>) {
    rounds == []
    || (AlwaysFull(rounds[..|rounds| - 1]) && After(rounds).index == Full(rounds[|rounds| - 1]))
  }

  /** The stamp of the newest item there ever was. */
  function NewestEver(rounds: seq<seq<Item>>): nat {
    if rounds == [] then 0 else Max(NewestEver(rounds[..|rounds| - 1]), Newest(rounds[|rounds| - 1]))
  }

  /** Between every two rounds, nothing vanished and nothing changed behind the newest stamp so far. */
  predicate AlwaysCaught(rounds: seq<seq<Item>>) {
    |rounds| <= 1
    || (AlwaysCaught(rounds[..|rounds| - 1])
        && Caught(rounds[|rounds| - 2], rounds[|rounds| - 1], NewestEver(rounds[..|rounds| - 1])))
  }

  lemma {:induction false} NewestOfRecent(items: seq<Item>, since: nat)
    ensures Max(since, Newest(Recent(items, since))) == Max(since, Newest(items))
  {
    if items != [] {
      NewestOfRecent(items[1..], since);
      var rest := Recent(items[1..], since);
      assert ([items[0]] + rest)[1..] == rest && [] + rest == rest;
    }
  }

  /** What the crawler has fetched tells it the newest stamp of all. */
  lemma {:induction false} CrawlerKnowsNewest(rounds: seq<seq<Item>>)
    ensures After(rounds).newest == NewestEver(rounds)
  {
    if rounds != [] {
      CrawlerKnowsNewest(rounds[..|rounds| - 1]);
      NewestOfRecent(rounds[|rounds| - 1], After(rounds[..|rounds| - 1]).newest);
    }
  }

  lemma {:induction false} NewestIsMax(items: seq<Item>)
    ensures forall i :: i in items ==> i.updated <= Newest(items)
    ensures Newest(items) == 0 || exists i :: i in items && i.updated == Newest(items)
  {
    if items != [] {
      NewestIsMax(items[1..]);
      assert forall i :: i in items <==> i == items[0] || i in items[1..];
    }
  }

  /** There was such an item in some round. */
  predicate Ever(rounds: seq<seq<Item>>, item: Item) {
    exists k :: 0 <= k < |rounds| && item in rounds[k]
  }

  lemma EverOrNow(rounds: seq<seq<Item>>, item: Item)
    requires rounds != []
    ensures Ever(rounds, item) <==> Ever(rounds[..|rounds| - 1], item) || item in rounds[|rounds| - 1]
  {
    var n := |rounds| - 1;
    if Ever(rounds[..n], item) {
      var k :| 0 <= k < n && item in rounds[..n][k];
      assert item in rounds[k];
    }
    if k :| 0 <= k < |rounds| && item in rounds[k] {
      if k < n { assert rounds[..n][k] == rounds[k]; }
    }
  }

  /** What it asks from in the next round is the newest stamp there ever was, 0 when there was no item. */
  lemma {:induction false} AskedFromIsNewest(rounds: seq<seq<Item>>)
    ensures forall i :: Ever(rounds, i) ==> i.updated <= After(rounds).newest
    ensures After(rounds).newest == 0 || exists i :: Ever(rounds, i) && i.updated == After(rounds).newest
  {
    CrawlerKnowsNewest(rounds);
    if rounds != [] {
      var n := |rounds| - 1;
      AskedFromIsNewest(rounds[..n]);
      CrawlerKnowsNewest(rounds[..n]);
      NewestIsMax(rounds[n]);
      forall i ensures Ever(rounds, i) <==> Ever(rounds[..n], i) || i in rounds[n] { EverOrNow(rounds, i); }
    }
  }

  lemma OneRound(rounds: seq<seq<Item>>, n: nat)
    requires n > 0 && |rounds| == n + 1 && UniqueIds(rounds[n - 1]) && UniqueIds(rounds[n])
    requires After(rounds[..n]).index == Full(rounds[n - 1])
    ensures After(rounds).index == Full(rounds[n]) <==> Caught(rounds[n - 1], rounds[n], NewestEver(rounds[..n]))
  {
    var before := After(rounds[..n]);
    CrawlerKnowsNewest(rounds[..n]);
    MergeIsFullIffCaught(rounds[n - 1], rounds[n], before.newest);
    assert After(rounds).index == Merge(before.index, Recent(rounds[n], before.newest));
  }

  lemma {:induction false} RecentAll(items: seq<Item>)
    ensures Recent(items, 0) == items
  {
    if items != [] { RecentAll(items[1..]); }
  }

  lemma FirstRound(rounds: seq<seq<Item>>)
    requires |rounds| == 1
    ensures AlwaysFull(rounds)
  {
    assert rounds[..0] == [] && AlwaysFull(rounds[..0]);
    assert After(rounds[..0]) == Crawler(map[], 0);
    RecentAll(rounds[0]);
  }

  /** Crawling incrementally agrees with crawling from scratch after every round, exactly when every
      round was caught. */
  lemma {:induction false} IncrementalIsFullIffCaught(rounds: seq<seq<Item>>)
    requires forall k :: 0 <= k < |rounds| ==> UniqueIds(rounds[k])
    ensures AlwaysFull(rounds) <==> AlwaysCaught(rounds)
  {
    if |rounds| == 1 {
      FirstRound(rounds);
    } else if |rounds| > 1 {
      var n := |rounds| - 1;
      IncrementalIsFullIffCaught(rounds[..n]);
      if AlwaysFull(rounds[..n]) {
        assert rounds[..n][n - 1] == rounds[n - 1];
        assert After(rounds[..n]).index == Full(rounds[n - 1]);
        OneRound(rounds, n);
      }
    }
  }

  // ----- what the index holds, also when it fell behind -----

  /** What round `k` fetched. */
  function Fetched(rounds: seq<seq<Item>>, k: nat): seq<Item>
    requires k < |rounds|
  {
    Recent(rounds[k], NewestEver(rounds[..k]))
  }

  /** The last round that fetched an item with this id. */
  function LastFetch(rounds: seq<seq<Item>>, id: string): (k: Option<nat>)
    ensures k.Some? ==> k.value < |rounds|
  {
    if rounds == [] then None
    else
      var n := |rounds| - 1;
      if Holds(Fetched(rounds, n), id) then Some(n) else LastFetch(rounds[..n], id)
  }

  /** At every moment the index holds, for each id, the item as the last round that fetched it found it. */
  lemma {:induction false} IndexIsLastFetched(rounds: seq<seq<Item>>, id: string)
    requires forall k :: 0 <= k < |rounds| ==> UniqueIds(rounds[k])
    ensures var index, k := After(rounds).index, LastFetch(rounds, id);
            && (id in index <==> k.Some?)
            && (k.Some? ==> index[id].id == id && index[id] in Fetched(rounds, k.value))
  {
    if rounds != [] {
      var n := |rounds| - 1;
      var before := rounds[..n];
      var fetched := Fetched(rounds, n);
      CrawlerKnowsNewest(before);
      RecentIsSublist(rounds[n], NewestEver(before));
      IndexIsLastFetched(before, id);
      MergeKeys(After(before).index, fetched, id);
      if Holds(fetched, id) {
        var k :| 0 <= k < |fetched| && fetched[k].id == id;
        MergeAt(After(before).index, fetched, fetched[k]);
      } else if LastFetch(before, id).Some? {
        var k := LastFetch(before, id).value;
        assert before[..k] == rounds[..k] && Fetched(before, k) == Fetched(rounds, k);
      }
    }
  }

  /** The index needs no repair: every id ever fetched is still there, and every item was last fetched as
      it is now. */
  ghost predicate UpToDate(rounds: seq<seq<Item>>, items: seq<Item>) {
    && (forall id :: LastFetch(rounds, id).Some? ==> Holds(items, id))
    && (forall i :: i in items ==> var k := LastFetch(rounds, i.id); k.Some? && i in Fetched(rounds, k.value))
  }

  lemma FetchedIsOne(rounds: seq<seq<Item>>, k: nat, a: Item, b: Item)
    requires k < |rounds| && UniqueIds(rounds[k])
    requires a in Fetched(rounds, k) && b in Fetched(rounds, k) && a.id == b.id
    ensures a == b
  {
    RecentIsSublist(rounds[k], NewestEver(rounds[..k]));
  }

  /** After any rounds, caught or not, the index is what a full crawl would build of `items` if and only if
      it needs no repair. So one that fell behind is right again as soon as what it missed is fetched or
      changed back, and never while an id it has is gone. */
  lemma IndexIsFullIffUpToDate(rounds: seq<seq<Item>>, items: seq<Item>)
    requires UniqueIds(items) && forall k :: 0 <= k < |rounds| ==> UniqueIds(rounds[k])
    ensures After(rounds).index == Full(items) <==> UpToDate(rounds, items)
  {
    var index := After(rounds).index;
    forall id
      ensures id in index <==> LastFetch(rounds, id).Some?
      ensures id in Full(items) <==> Holds(items, id)
    {
      IndexIsLastFetched(rounds, id);
      MergeKeys(map[], items, id);
    }
    forall i | i in items
      ensures i.id in index && index[i.id] == i
         <==> var k := LastFetch(rounds, i.id); k.Some? && i in Fetched(rounds, k.value)
    {
      IndexIsLastFetched(rounds, i.id);
      var k := LastFetch(rounds, i.id);
      if k.Some? && i in Fetched(rounds, k.value) {
        FetchedIsOne(rounds, k.value, index[i.id], i);
      }
    }
    if UpToDate(rounds, items) {
      SameMap(index, items);
    }
    if index == Full(items) {
      forall i | i in items
        ensures i.id in index && index[i.id] == i
      {
        FullAt(items, i);
      }
    }
  }

  /** A rename, a new tag or a kind app installed later leaves the content's stamp alone, so the index
      keeps the old item for as long as something newer is in it. */
  const OLD_NAME := Item("n", 5, "/a")
  const NEW_NAME := Item("n", 5, "/b")
  const NEWER := Item("m", 9, "/c")

  lemma RenameIsMissed()
    ensures After([[OLD_NAME, NEWER], [NEW_NAME, NEWER]]).index == map["n" := OLD_NAME, "m" := NEWER]
  {
    var first, second := [OLD_NAME, NEWER], [NEW_NAME, NEWER];
    var none: seq<seq<Item>> := [];
    assert [first, second][..1] == [first] && [first][..0] == none;
    assert first[..1] == [OLD_NAME] && first[1..] == [NEWER] && second[1..] == [NEWER] && [NEWER][1..] == [];
    assert After([first]) == Crawler(Full(first), 9) by {
      assert After(none) == Crawler(map[], 0);
      RecentAll(first);
      assert Newest([NEWER]) == 9;
    }
    assert Merge(map[], [OLD_NAME]) == map["n" := OLD_NAME] by {
      assert [OLD_NAME][..0] == first[..0] && Merge(map[], first[..0]) == map[];
    }
    assert Full(first) == map["n" := OLD_NAME, "m" := NEWER];
    assert Recent(second, 9) == [NEWER] by {
      assert Recent([NEWER], 9) == [NEWER];
    }
    assert After([first, second]).index == Merge(Full(first), [NEWER]);
    assert [NEWER][..0] == first[..0] && Merge(Full(first), first[..0]) == Full(first);
  }
}
