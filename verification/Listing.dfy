/**
 Listing a directory page by page (src/serve.rs `op_list`, `entry_of`; sdk/py/cedrive.py `ls`): the
 cursor is the last name returned, a page starts at the first name after it, and the client pages until
 it is given no cursor. The directory may be a different one each time a page is served.

 The tree lists a directory strictly sorted by name, with non-empty, slash-free names.
 */
module Listing {
  import opened Math
  import opened Wrappers
  import opened WireTypes
  import opened Paths

  datatype Content = Content(cid: string, size: u64, mtimeMs: u64, docId: Option<string>)

  datatype DirEntry = DirEntry(name: string, nodeId: string, isDir: bool, content: Option<Content>)

  type Dir = seq<DirEntry>

  // ----- the order on names -----

  /** Strings compare by their first difference, as Rust's do. */
  predicate Less(a: string, b: string) {
    b != "" && (a == "" || a[0] < b[0] || (a[0] == b[0] && Less(a[1..], b[1..])))
  }

  lemma {:induction false} LessIsStrict(a: string, b: string, c: string)
    ensures !Less(a, a)
    ensures Less(a, b) && Less(b, c) ==> Less(a, c)
  {
    if a != "" { LessIsStrict(a[1..], a[1..], a[1..]); }
    if a != "" && b != "" && c != "" { LessIsStrict(a[1..], b[1..], c[1..]); }
  }

  lemma {:induction false} LessIsTotal(a: string, b: string)
    ensures Less(a, b) || Less(b, a) || a == b
  {
    if a != "" && b != "" && a[0] == b[0] {
      LessIsTotal(a[1..], b[1..]);
      assert a == [a[0]] + a[1..] && b == [b[0]] + b[1..];
    }
  }

  /** The first difference decides, and a proper prefix comes first. */
  lemma {:induction false} LessByFirstDifference(p: string, x: char, s: string, y: char, t: string)
    ensures x < y ==> Less(p + [x] + s, p + [y] + t) && !Less(p + [y] + t, p + [x] + s)
    ensures Less(p, p + [x] + s) && !Less(p + [x] + s, p)
  {
    if p != "" {
      LessByFirstDifference(p[1..], x, s, y, t);
      assert (p + [x] + s)[1..] == p[1..] + [x] + s && (p + [y] + t)[1..] == p[1..] + [y] + t;
    }
  }

  predicate Named(dir: Dir) {
    forall k :: 0 <= k < |dir| ==> dir[k].name != "" && '/' !in dir[k].name
  }

  predicate Sorted(dir: Dir) {
    forall i, j :: 0 <= i < j < |dir| ==> Less(dir[i].name, dir[j].name)
  }

  predicate Listed(dir: Dir) {
    Named(dir) && Sorted(dir)
  }

  predicate Has(dir: Dir, name: string) {
    exists k :: 0 <= k < |dir| && dir[k].name == name
  }

  // ----- wire entries -----

  function ChildPath(parent: string, name: string): string {
    if parent == "/" then "/" + name else TrimEnd(parent, IsSlash) + "/" + name
  }

  /** `p.rsplit('/').next()`. */
  function Leaf(p: string): string {
    if '/' in p then p[LastSlash(p) + 1..] else p
  }

  function EntryOf(parent: string, e: DirEntry, etag: string -> string): Entry<string> {
    var path, kind := ChildPath(parent, e.name), if e.isDir then Dir else File;
    match e.content
    case Some(c) => Entry(path, kind, c.size, c.mtimeMs, etag(e.nodeId), e.nodeId, Some(c.cid), c.docId)
    case None => Entry(path, kind, 0, 0, etag(e.nodeId), e.nodeId, None, None)
  }

  function Entries(parent: string, dir: Dir, etag: string -> string): (r: seq<Entry<string>>)
    ensures |r| == |dir| && forall k :: 0 <= k < |dir| ==> r[k] == EntryOf(parent, dir[k], etag)
  {
    seq(|dir|, k requires 0 <= k < |dir| => EntryOf(parent, dir[k], etag))
  }

  /** The last segment of an entry's path is the name it was listed under. */
  lemma LeafOfChild(parent: string, name: string)
    requires '/' !in name
    ensures Leaf(ChildPath(parent, name)) == name
  {
    var p := ChildPath(parent, name);
    var i, l := |p| - |name| - 1, LastSlash(p);
    assert p[i] == '/';
    assert p[i + 1..] == name;
    assert forall k :: i < k < |p| ==> p[k] == name[k - i - 1];
    assert forall k :: l < k < |p| ==> p[k] == p[l + 1..][k - l - 1];
  }

  /** The leaf of a page's last entry is the last name on the page. */
  method LastLeaf(page: seq<Entry<string>>, ghost parent: string, ghost listed: Dir, ghost etag: string -> string)
    returns (leaf: string)
    requires Named(listed) && listed != [] && page == Entries(parent, listed, etag)
    ensures leaf == listed[|listed| - 1].name
  {
    leaf := Leaf(page[|page| - 1].path);
    LeafOfChild(parent, listed[|listed| - 1].name);
  }

  // ----- one page -----

  /** Index of the first name after the cursor. */
  function StartAfter(dir: Dir, cursor: Option<string>): (s: nat)
    ensures s <= |dir|
  {
    if cursor.None? || dir == [] || Less(cursor.value, dir[0].name) then 0
    else 1 + StartAfter(dir[1..], cursor)
  }

  function PageEnd(dir: Dir, cursor: Option<string>, limit: u32): (e: nat)
    ensures e <= |dir|
  {
    Min(StartAfter(dir, cursor) + Max(limit, 1), |dir|)
  }

  function PageAfter(dir: Dir, cursor: Option<string>, limit: u32): Dir {
    dir[StartAfter(dir, cursor)..PageEnd(dir, cursor, limit)]
  }

  function NextCursor(dir: Dir, cursor: Option<string>, limit: u32): Option<string> {
    var e := PageEnd(dir, cursor, limit);
    if 0 < e < |dir| then Some(dir[e - 1].name) else None
  }

  /** `iter().position(..).unwrap_or(len)`. */
  method Position(dir: Dir, cursor: Option<string>) returns (start: nat)
    ensures start == StartAfter(dir, cursor)
  {
    start := 0;
    if cursor.Some? {
      while start < |dir| && !Less(cursor.value, dir[start].name)
        invariant start <= |dir|
        invariant StartAfter(dir, cursor) == start + StartAfter(dir[start..], cursor)
      {
        assert dir[start..][1..] == dir[start + 1..];
        start := start + 1;
      }
    }
  }

  lemma NamedSlice(dir: Dir, lo: nat, hi: nat)
    requires Named(dir) && lo <= hi <= |dir|
    ensures Named(dir[lo..hi])
  {
  }

  /** The entries `start`, ..., `end - 1`, and the name of the last one, cut out of its path. */
  method Stretch(dir: Dir, parent: string, start: nat, end: nat, etag: string -> string)
    returns (page: seq<Entry<string>>, last: Option<string>)
    requires Named(dir) && start <= end <= |dir|
    ensures page == Entries(parent, dir[start..end], etag)
    ensures last == if start < end then Some(dir[end - 1].name) else None
  {
    var listed := dir[start..end];
    page := Entries(parent, listed, etag);
    last := None;
    if |page| > 0 {
      NamedSlice(dir, start, end);
      var leaf := LastLeaf(page, parent, listed, etag);
      last := Some(leaf);
    }
  }

  /** `op_list` on a directory that can be listed; `parent` is its normalised path. The cursor it hands
      back, cut out of the last entry's path, is that entry's name. */
  method ListPage(dir: Dir, parent: string, cursor: Option<string>, limit: u32, etag: string -> string)
    returns (page: seq<Entry<string>>, next: Option<string>)
    requires Named(dir)
    ensures page == Entries(parent, PageAfter(dir, cursor, limit), etag)
    ensures next == NextCursor(dir, cursor, limit)
  {
    var start := Position(dir, cursor);
    var last;
    page, last := Stretch(dir, parent, start, Min(start + Max(limit, 1), |dir|), etag);
    next := if start + |page| < |dir| then last else None;
  }

  /** What an entry shows of a directory entry listed under `path`. */
  predicate Shows(entry: Entry<string>, path: string, e: DirEntry, etag: string -> string) {
    && entry.path != "" && entry.path[0] == '/'
    && Segments(entry.path) == Segments(NormPath(path)) + [e.name]
    && (entry.kind == Dir <==> e.isDir)
    && entry.nodeId == e.nodeId && entry.etag == etag(e.nodeId)
    && (e.content.None? ==> entry.size == entry.mtimeMs == 0 && entry.objectCid == entry.docId == None)
    && (e.content.Some? ==>
          && entry.size == e.content.value.size && entry.mtimeMs == e.content.value.mtimeMs
          && entry.objectCid == Some(e.content.value.cid) && entry.docId == e.content.value.docId)
  }

  lemma EntryShows(path: string, e: DirEntry, etag: string -> string)
    requires e.name != "" && '/' !in e.name
    ensures Shows(EntryOf(NormPath(path), e, etag), path, e, etag)
  {
    NormShape(path);
    var t := Core(path);
    if t == "" {
      SplitAt(e.name, "");
      assert ("/" + e.name)[1..] == e.name;
    } else {
      assert NormPath(path)[|t|] == t[|t| - 1];
      assert TrimEnd(NormPath(path), IsSlash) == NormPath(path);
      assert (NormPath(path) + "/" + e.name)[1..] == t + "/" + e.name && NormPath(path)[1..] == t;
      SplitJoin(t, e.name);
      SplitAt(e.name, "");
    }
  }

  /** Entry `start` is the first one behind the cursor. */
  predicate FirstBehind(dir: Dir, cursor: Option<string>, start: nat) {
    && start <= |dir|
    && (cursor.None? ==> start == 0)
    && (cursor.Some? ==> forall k :: 0 <= k < start ==> !Less(cursor.value, dir[k].name))
    && (cursor.Some? && start < |dir| ==> Less(cursor.value, dir[start].name))
  }

  predicate AllShow(entries: seq<Entry<string>>, dir: Dir, path: string, start: nat, etag: string -> string) {
    start + |entries| <= |dir| && forall j :: 0 <= j < |entries| ==> Shows(entries[j], path, dir[start + j], etag)
  }

  /** The entries shown are those from `start` on, as many as the limit allows, one at least; a cursor
      comes back exactly when more follow, and is the last name shown. */
  predicate PageFrom(reply: DriveOk<string>, dir: Dir, path: string, cursor: Option<string>, limit: u32,
                     etag: string -> string, start: nat) {
    && FirstBehind(dir, cursor, start)
    && reply.Listing? && AllShow(reply.entries, dir, path, start, etag)
    && var n := |reply.entries|;
       && n <= Max(limit, 1) && (n < Max(limit, 1) ==> start + n == |dir|)
       && reply.nextCursor == if start + n < |dir| then Some(dir[start + n - 1].name) else None
  }

  lemma {:induction false} StartIsFirst(dir: Dir, cursor: Option<string>)
    ensures FirstBehind(dir, cursor, StartAfter(dir, cursor))
  {
    if cursor.Some? && dir != [] && !Less(cursor.value, dir[0].name) {
      StartIsFirst(dir[1..], cursor);
      var s := StartAfter(dir, cursor);
      forall k | 0 <= k < s
        ensures !Less(cursor.value, dir[k].name)
      {
        if k > 0 { assert dir[1..][k - 1] == dir[k]; }
      }
    }
  }

  lemma StretchShows(dir: Dir, path: string, start: nat, end: nat, etag: string -> string)
    requires Named(dir) && start <= end <= |dir|
    ensures AllShow(Entries(NormPath(path), dir[start..end], etag), dir, path, start, etag)
  {
    var entries := Entries(NormPath(path), dir[start..end], etag);
    forall j | 0 <= j < |entries|
      ensures Shows(entries[j], path, dir[start + j], etag)
    {
      assert dir[start..end][j] == dir[start + j];
      EntryShows(path, dir[start + j], etag);
    }
  }

  lemma PageIsFrom(dir: Dir, path: string, cursor: Option<string>, limit: u32, etag: string -> string)
    requires Named(dir) && |dir| < TWO_64
    ensures var page: Vec<Entry<string>> := Entries(NormPath(path), PageAfter(dir, cursor, limit), etag);
            PageFrom(Listing(page, NextCursor(dir, cursor, limit)), dir, path, cursor, limit, etag,
                     StartAfter(dir, cursor))
  {
    StartIsFirst(dir, cursor);
    StretchShows(dir, path, StartAfter(dir, cursor), PageEnd(dir, cursor, limit), etag);
  }

  /** `op_list`: a path that cannot be listed is not found. */
  method OpList(dir: Option<Dir>, path: string, cursor: Option<string>, limit: u32, etag: string -> string)
    returns (r: Result<DriveOk<string>, DriveErr<string>>)
    requires dir.Some? ==> Named(dir.value) && |dir.value| < TWO_64
    ensures dir.None? ==> r == Failure(NotFound)
    ensures dir.Some? ==>
              && var page: Vec<Entry<string>> := Entries(NormPath(path), PageAfter(dir.value, cursor, limit), etag);
              r == Success(Listing(page, NextCursor(dir.value, cursor, limit)))
    ensures dir.Some? ==>
              r.Success? && exists start: nat :: PageFrom(r.value, dir.value, path, cursor, limit, etag, start)
  {
    if dir.None? { return Failure(NotFound); }
    var page, next := ListPage(dir.value, NormPath(path), cursor, limit, etag);
    r := Success(Listing(page, next));
    PageIsFrom(dir.value, path, cursor, limit, etag);
  }

  predicate Before(cursor: Option<string>, name: string) {
    cursor.Some? ==> Less(cursor.value, name)
  }

  predicate UpTo(name: string, next: Option<string>) {
    next.Some? ==> !Less(next.value, name)
  }

  /** The names after the cursor are a suffix of a sorted directory. */
  lemma {:induction false} StartSplits(dir: Dir, cursor: Option<string>)
    requires Listed(dir)
    ensures forall k :: 0 <= k < |dir| ==> (Before(cursor, dir[k].name) <==> StartAfter(dir, cursor) <= k)
  {
    if cursor.Some? && dir != [] {
      if Less(cursor.value, dir[0].name) {
        forall k | 0 <= k < |dir|
          ensures Less(cursor.value, dir[k].name)
        {
          LessIsStrict(cursor.value, dir[0].name, dir[k].name);
        }
      } else {
        StartSplits(dir[1..], cursor);
        forall k | 0 <= k < |dir|
          ensures Before(cursor, dir[k].name) <==> StartAfter(dir, cursor) <= k
        {
          assert k > 0 ==> dir[1..][k - 1] == dir[k];
        }
      }
    }
  }

  /** A page holds exactly the names after the cursor and up to the next cursor. */
  lemma PageIsInterval(dir: Dir, cursor: Option<string>, limit: u32, k: nat)
    requires Listed(dir) && k < |dir|
    ensures StartAfter(dir, cursor) <= k < PageEnd(dir, cursor, limit)
       <==> Before(cursor, dir[k].name) && UpTo(dir[k].name, NextCursor(dir, cursor, limit))
  {
    StartSplits(dir, cursor);
    var e, next := PageEnd(dir, cursor, limit), NextCursor(dir, cursor, limit);
    if next.Some? {
      LessIsStrict(next.value, dir[k].name, next.value);
      LessIsStrict(next.value, next.value, next.value);
      assert k < e - 1 ==> Less(dir[k].name, dir[e - 1].name);
      assert k >= e ==> Less(dir[e - 1].name, dir[k].name);
    }
  }

  // ----- the client's walk -----

  /** What the client has and where it is; `open` until it is given no cursor. */
  datatype Client = Client(got: Dir, cursor: Option<string>, open: bool)

  function Turn(c: Client, dir: Dir, limit: u32): Client {
    var next := NextCursor(dir, c.cursor, limit);
    Client(c.got + PageAfter(dir, c.cursor, limit), next, next.Some?)
  }

  /** The client after as many pages, page `k` served from `dirs[k]`. */
  function Walk(dirs: seq<Dir>, limit: u32): Client {
    if dirs == [] then Client([], None, true)
    else
      var c := Walk(dirs[..|dirs| - 1], limit);
      if c.open then Turn(c, dirs[|dirs| - 1], limit) else c
  }

  predicate AllListed(dirs: seq<Dir>) {
    forall k :: 0 <= k < |dirs| ==> Listed(dirs[k])
  }

  lemma EntriesConcat(parent: string, a: Dir, b: Dir, etag: string -> string)
    ensures Entries(parent, a + b, etag) == Entries(parent, a, etag) + Entries(parent, b, etag)
  {
  }

  datatype WalkEnd = Finished | Raised | Unfinished

  /** The directories of a stretch of requests that could all be listed. */
  function Values(dirs: seq<Option<Dir>>): (r: seq<Dir>)
    requires forall k :: 0 <= k < |dirs| ==> dirs[k].Some?
    ensures |r| == |dirs| && forall k :: 0 <= k < |dirs| ==> r[k] == dirs[k].value
  {
    seq(|dirs|, k requires 0 <= k < |dirs| => dirs[k].value)
  }

  /** What one more page does to an open walk. */
  lemma OnePage(served: seq<Dir>, dir: Dir, parent: string, limit: u32, etag: string -> string)
    requires Walk(served, limit).open && Listed(dir)
    ensures var c, c' := Walk(served, limit), Walk(served + [dir], limit);
            && c'.cursor == NextCursor(dir, c.cursor, limit)
            && (c'.open <==> c'.cursor.Some? && c'.cursor.value != "")
            && Entries(parent, c'.got, etag)
               == Entries(parent, c.got, etag) + Entries(parent, PageAfter(dir, c.cursor, limit), etag)
  {
    assert (served + [dir])[..|served|] == served;
    var c := Walk(served, limit);
    EntriesConcat(parent, c.got, PageAfter(dir, c.cursor, limit), etag);
  }

  /** One request of an open walk, its entries put behind those there are. */
  method Request(ghost served: seq<Dir>, dir: Dir, parent: string, cursor: Option<string>, limit: u32,
                 etag: string -> string, out0: seq<Entry<string>>)
    returns (out: seq<Entry<string>>, next: Option<string>)
    requires Walk(served, limit).open && Walk(served, limit).cursor == cursor && Listed(dir)
    requires out0 == Entries(parent, Walk(served, limit).got, etag)
    ensures var c := Walk(served + [dir], limit);
            && out == Entries(parent, c.got, etag) && next == c.cursor
            && (c.open <==> next.Some? && next.value != "")
  {
    OnePage(served, dir, parent, limit, etag);
    var page;
    page, next := ListPage(dir, parent, cursor, limit, etag);
    out := out0 + page;
  }

  /** `ls`: page after page, request `k` finding `dirs[k]`, until no cursor comes back. It raises when the
      path cannot be listed any more, and is unfinished when it has used up `dirs`. */
  method Ls(dirs: seq<Option<Dir>>, parent: string, limit: u32, etag: string -> string)
    returns (out: seq<Entry<string>>, pages: nat, end: WalkEnd)
    requires forall k :: 0 <= k < |dirs| && dirs[k].Some? ==> Listed(dirs[k].value)
    ensures pages <= |dirs| && forall k :: 0 <= k < pages ==> dirs[k].Some?
    ensures out == Entries(parent, Walk(Values(dirs[..pages]), limit).got, etag)
    ensures end.Finished? <==> !Walk(Values(dirs[..pages]), limit).open
    ensures end.Raised? ==> pages < |dirs| && dirs[pages].None?
    ensures end.Unfinished? ==> pages == |dirs|
  {
    out, pages, end := [], 0, Unfinished;
    var cursor: Option<string> := None;
    ghost var served: seq<Dir> := [];
    while pages < |dirs| && end.Unfinished?
      invariant pages == |served| <= |dirs| && forall k :: 0 <= k < pages ==> dirs[k] == Some(served[k])
      invariant AllListed(served)
      invariant out == Entries(parent, Walk(served, limit).got, etag) && cursor == Walk(served, limit).cursor
      invariant end.Finished? <==> !Walk(served, limit).open
      invariant end.Raised? ==> pages < |dirs| && dirs[pages].None?
      decreases |dirs| - pages, end.Unfinished?
    {
      if dirs[pages].None? {
        end := Raised;
      } else {
        var dir := dirs[pages].value;
        out, cursor := Request(served, dir, parent, cursor, limit, etag, out);
        pages := pages + 1;
        served := served + [dir];
        if cursor.None? || cursor.value == "" {
          end := Finished;
        }
      }
    }
    assert Values(dirs[..pages]) == served;
  }

  /** The client's names so far are ascending and not beyond its cursor. */
  predicate Ordered(c: Client) {
    && Listed(c.got)
    && (c.open && c.cursor.None? ==> c.got == [])
    && (forall k :: 0 <= k < |c.got| ==> UpTo(c.got[k].name, c.cursor))
  }

  lemma TurnKeepsOrder(c: Client, dir: Dir, limit: u32)
    requires Ordered(c) && c.open && Listed(dir)
    ensures Ordered(Turn(c, dir, limit))
  {
    var page, s, next := PageAfter(dir, c.cursor, limit), StartAfter(dir, c.cursor), NextCursor(dir, c.cursor, limit);
    forall j | 0 <= j < |page|
      ensures page[j] == dir[s + j] && Before(c.cursor, page[j].name) && UpTo(page[j].name, next)
    {
      PageIsInterval(dir, c.cursor, limit, s + j);
    }
    forall i, j | 0 <= i < |c.got| && 0 <= j < |page|
      ensures Less(c.got[i].name, page[j].name)
    {
      LessIsTotal(c.got[i].name, c.cursor.value);
      LessIsStrict(c.got[i].name, c.cursor.value, page[j].name);
    }
    forall i | 0 <= i < |c.got|
      ensures UpTo(c.got[i].name, next)
    {
      if next.Some? {
        var last := page[|page| - 1].name;
        assert last == next.value;
        LessIsStrict(c.got[i].name, last, c.got[i].name);
        LessIsStrict(c.got[i].name, c.got[i].name, c.got[i].name);
      }
    }
  }

  /** Whatever the directory becomes between pages, the names come out strictly ascending: none twice. */
  lemma {:induction false} WalkAscends(dirs: seq<Dir>, limit: u32)
    requires AllListed(dirs)
    ensures Ordered(Walk(dirs, limit)) && Sorted(Walk(dirs, limit).got)
  {
    if dirs != [] {
      WalkAscends(dirs[..|dirs| - 1], limit);
      var c := Walk(dirs[..|dirs| - 1], limit);
      if c.open { TurnKeepsOrder(c, dirs[|dirs| - 1], limit); }
    }
  }

  predicate Everywhere(dirs: seq<Dir>, name: string) {
    forall q :: 0 <= q < |dirs| ==> Has(dirs[q], name)
  }

  /** The client is past this name. */
  predicate Passed(c: Client, name: string) {
    !c.open || (c.cursor.Some? && !Less(c.cursor.value, name))
  }

  lemma TurnCovers(c: Client, dir: Dir, limit: u32, name: string)
    requires c.open && Listed(dir) && Has(dir, name)
    requires Passed(c, name) ==> Has(c.got, name)
    requires Passed(Turn(c, dir, limit), name)
    ensures Has(Turn(c, dir, limit).got, name)
  {
    var c' := Turn(c, dir, limit);
    if Passed(c, name) {
      var i :| 0 <= i < |c.got| && c.got[i].name == name;
      assert c'.got[i].name == name;
    } else {
      var k :| 0 <= k < |dir| && dir[k].name == name;
      PageIsInterval(dir, c.cursor, limit, k);
      assert c'.got[|c.got| + k - StartAfter(dir, c.cursor)].name == name;
    }
  }

  lemma {:induction false} PassedIsGot(dirs: seq<Dir>, limit: u32, name: string)
    requires AllListed(dirs) && Everywhere(dirs, name)
    requires Passed(Walk(dirs, limit), name)
    ensures Has(Walk(dirs, limit).got, name)
  {
    if dirs != [] {
      var n := |dirs| - 1;
      var c := Walk(dirs[..n], limit);
      if Passed(c, name) { PassedIsGot(dirs[..n], limit, name); }
      if c.open { TurnCovers(c, dirs[n], limit, name); }
    }
  }

  /** A finished walk has every name that was there each time a page was served, exactly once. */
  lemma FinishedWalkIsComplete(dirs: seq<Dir>, limit: u32, name: string)
    requires AllListed(dirs) && !Walk(dirs, limit).open && Everywhere(dirs, name)
    ensures var got := Walk(dirs, limit).got;
            exists i :: 0 <= i < |got| && got[i].name == name
                        && forall j :: 0 <= j < |got| && got[j].name == name ==> i == j
  {
    PassedIsGot(dirs, limit, name);
    WalkAscends(dirs, limit);
    var got := Walk(dirs, limit).got;
    var i :| 0 <= i < |got| && got[i].name == name;
    LessIsStrict(name, name, name);
  }

  /** Nothing is made up: every entry was in the directory when some page was served. */
  lemma {:induction false} WalkIsServed(dirs: seq<Dir>, limit: u32, i: nat)
    requires AllListed(dirs) && i < |Walk(dirs, limit).got|
    ensures exists q :: 0 <= q < |dirs| && Walk(dirs, limit).got[i] in dirs[q]
  {
    var n := |dirs| - 1;
    var c := Walk(dirs[..n], limit);
    if i < |c.got| {
      WalkIsServed(dirs[..n], limit, i);
      var q :| 0 <= q < n && c.got[i] in dirs[..n][q];
      assert c.got[i] in dirs[q];
    } else {
      assert Walk(dirs, limit).got[i] in dirs[n];
    }
  }

  // ----- the walk ends -----

  /** A page that hands out a cursor holds at least one entry. */
  lemma {:induction false} OpenWalkAdvances(dirs: seq<Dir>, limit: u32)
    requires AllListed(dirs) && Walk(dirs, limit).open
    ensures |Walk(dirs, limit).got| >= |dirs|
  {
    if dirs != [] { OpenWalkAdvances(dirs[..|dirs| - 1], limit); }
  }

  lemma {:induction false} DistinctNamesFit(got: Dir, names: set<string>)
    requires Sorted(got) && forall e <- got :: e.name in names
    ensures |got| <= |names|
  {
    if got != [] {
      var n := |got| - 1;
      LessIsStrict(got[n].name, got[n].name, got[n].name);
      DistinctNamesFit(got[..n], names - {got[n].name});
    }
  }

  /** As long as the names that ever appear are among `names`, the walk ends within one page more than
      there are names. */
  lemma WalkEnds(dirs: seq<Dir>, limit: u32, names: set<string>)
    requires AllListed(dirs) && forall q, k :: 0 <= q < |dirs| && 0 <= k < |dirs[q]| ==> dirs[q][k].name in names
    requires |dirs| > |names|
    ensures !Walk(dirs, limit).open
  {
    var got := Walk(dirs, limit).got;
    WalkAscends(dirs, limit);
    forall i | 0 <= i < |got|
      ensures got[i].name in names
    {
      WalkIsServed(dirs, limit, i);
    }
    DistinctNamesFit(got, names);
    if Walk(dirs, limit).open { OpenWalkAdvances(dirs, limit); }
  }

  // ----- a directory that holds still -----

  /** Paging after a listed name resumes right behind it. */
  lemma StartAfterIndex(dir: Dir, k: nat)
    requires Listed(dir) && k < |dir|
    ensures StartAfter(dir, Some(dir[k].name)) == k + 1
  {
    var cursor := Some(dir[k].name);
    StartSplits(dir, cursor);
    LessIsStrict(dir[k].name, dir[k].name, dir[k].name);
    assert k + 1 < |dir| ==> Less(dir[k].name, dir[k + 1].name);
  }

  /** The client has the directory up to its cursor, all of it once it is done. */
  predicate Abreast(c: Client, dir: Dir) {
    c.got == dir[..if c.open then StartAfter(dir, c.cursor) else |dir|]
  }

  lemma TurnKeepsAbreast(c: Client, dir: Dir, limit: u32)
    requires Listed(dir) && c.open && Abreast(c, dir)
    ensures Abreast(Turn(c, dir, limit), dir)
  {
    var s, e := StartAfter(dir, c.cursor), PageEnd(dir, c.cursor, limit);
    assert Turn(c, dir, limit).got == dir[..e] by {
      assert dir[..s] + dir[s..e] == dir[..e];
    }
    if Turn(c, dir, limit).open { StartAfterIndex(dir, e - 1); }
  }

  lemma {:induction false} StillWalkIsAbreast(dirs: seq<Dir>, dir: Dir, limit: u32)
    requires Listed(dir) && forall q :: 0 <= q < |dirs| ==> dirs[q] == dir
    ensures Abreast(Walk(dirs, limit), dir)
  {
    if dirs == [] {
      assert StartAfter(dir, None) == 0;
    } else {
      StillWalkIsAbreast(dirs[..|dirs| - 1], dir, limit);
      if Walk(dirs[..|dirs| - 1], limit).open { TurnKeepsAbreast(Walk(dirs[..|dirs| - 1], limit), dir, limit); }
    }
  }

  /** On a directory that holds still the walk ends and returns exactly the directory, in order. */
  lemma StillWalkIsTheDirectory(dirs: seq<Dir>, dir: Dir, limit: u32)
    requires Listed(dir) && forall q :: 0 <= q < |dirs| ==> dirs[q] == dir
    ensures !Walk(dirs, limit).open ==> Walk(dirs, limit).got == dir
    ensures |dirs| > |dir| ==> !Walk(dirs, limit).open
  {
    StillWalkIsAbreast(dirs, dir, limit);
    if Walk(dirs, limit).open { OpenWalkAdvances(dirs, limit); }
  }
}
