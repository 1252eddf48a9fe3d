/**
 JavaScript's `ls` (sdk/js/cedrive.js): the loop of `Listing.Ls`, but the cursor a page hands out is read
 by `TextDecoder`, which drops a byte order mark (U+FEFF) in front, before it is sent back. A name can
 begin with that character, so the next page need not start where the last one stopped.

 The entries are the host's; `Text` says how their text is read.
 */
module JsListing {
  import opened Math
  import opened Wrappers
  import opened WireTypes
  import opened Listing

  function Decoded(s: string): string {
    if s != "" && s[0] == '\U{FEFF}' then s[1..] else s
  }

  function DecodedCursor(cursor: Option<string>): Option<string> {
    match cursor
    case None => None
    case Some(s) => Some(Decoded(s))
  }

  function JsTurn(c: Client, dir: Dir, limit: u32): Client {
    var next := DecodedCursor(NextCursor(dir, c.cursor, limit));
    Turn(c, dir, limit).(cursor := next, open := next.Some? && next.value != "")
  }

  /** The client after as many pages, page `k` served from `dirs[k]`. */
  function JsWalk(dirs: seq<Dir>, limit: u32): Client {
    if dirs == [] then Client([], None, true)
    else
      var c := JsWalk(dirs[..|dirs| - 1], limit);
      if c.open then JsTurn(c, dirs[|dirs| - 1], limit) else c
  }

  lemma OneMore(served: seq<Dir>, dir: Dir, limit: u32)
    ensures var c := JsWalk(served, limit);
            JsWalk(served + [dir], limit) == if c.open then JsTurn(c, dir, limit) else c
  {
    assert (served + [dir])[..|served|] == served;
  }

  /** One request of an open walk, its entries put behind those there are. */
  method JsRequest(ghost served: seq<Dir>, dir: Dir, parent: string, cursor: Option<string>, limit: u32,
                   etag: string -> string, out0: seq<Entry<string>>)
    returns (out: seq<Entry<string>>, next: Option<string>)
    requires JsWalk(served, limit).open && JsWalk(served, limit).cursor == cursor && Listed(dir)
    requires out0 == Entries(parent, JsWalk(served, limit).got, etag)
    ensures var c := JsWalk(served + [dir], limit);
            && out == Entries(parent, c.got, etag) && next == c.cursor
            && (c.open <==> next.Some? && next.value != "")
  {
    OneMore(served, dir, limit);
    EntriesConcat(parent, JsWalk(served, limit).got, PageAfter(dir, cursor, limit), etag);
    var page, nextCursor := ListPage(dir, parent, cursor, limit, etag);
    out, next := out0 + page, DecodedCursor(nextCursor);
  }

  /** `ls`, request `k` finding `dirs[k]`. */
  method JsLs(dirs: seq<Option<Dir>>, parent: string, limit: u32, etag: string -> string)
    returns (out: seq<Entry<string>>, pages: nat, end: WalkEnd)
    requires forall k :: 0 <= k < |dirs| && dirs[k].Some? ==> Listed(dirs[k].value)
    ensures pages <= |dirs| && forall k :: 0 <= k < pages ==> dirs[k].Some?
    ensures out == Entries(parent, JsWalk(Values(dirs[..pages]), limit).got, etag)
    ensures end.Finished? <==> !JsWalk(Values(dirs[..pages]), limit).open
    ensures end.Raised? ==> pages < |dirs| && dirs[pages].None?
    ensures end.Unfinished? ==> pages == |dirs|
  {
    out, pages, end := [], 0, Unfinished;
    var cursor: Option<string> := None;
    ghost var served: seq<Dir> := [];
    while pages < |dirs| && end.Unfinished?
      invariant pages == |served| <= |dirs| && forall k :: 0 <= k < pages ==> dirs[k] == Some(served[k])
      invariant out == Entries(parent, JsWalk(served, limit).got, etag) && cursor == JsWalk(served, limit).cursor
      invariant end.Finished? <==> !JsWalk(served, limit).open
      invariant end.Raised? ==> pages < |dirs| && dirs[pages].None?
      decreases |dirs| - pages, end.Unfinished?
    {
      if dirs[pages].None? {
        end := Raised;
      } else {
        var dir := dirs[pages].value;
        out, cursor := JsRequest(served, dir, parent, cursor, limit, etag, out);
        pages := pages + 1;
        served := served + [dir];
        if cursor.None? || cursor.value == "" {
          end := Finished;
        }
      }
    }
    assert Values(dirs[..pages]) == served;
  }

  // ----- when the walk is Python's -----

  /** The same entries, and as far. */
  predicate Level(j: Client, p: Client) {
    j.got == p.got && j.open == p.open
  }

  predicate AlwaysLevel(dirs: seq<Dir>, limit: u32) {
    forall n :: 0 <= n <= |dirs| ==> Level(JsWalk(dirs[..n], limit), Walk(dirs[..n], limit))
  }

  /** No name of the directory is between the cursor and what it decodes to. */
  predicate NoneBetween(dir: Dir, cursor: string) {
    forall k :: 0 <= k < |dir| ==> (Less(Decoded(cursor), dir[k].name) <==> Less(cursor, dir[k].name))
  }

  /** One page after those in `before`: it starts behind the last one, and a cursor it hands out is not
      lost. */
  predicate Resumes(before: seq<Dir>, dir: Dir, limit: u32) {
    var c, next := Walk(before, limit), Walk(before + [dir], limit);
    c.open ==>
      && (c.cursor.Some? ==> NoneBetween(dir, c.cursor.value))
      && (next.open ==> Decoded(next.cursor.value) != "")
  }

  lemma NoneBetweenIff(dir: Dir, cursor: string)
    requires Listed(dir)
    ensures NoneBetween(dir, cursor) <==> StartAfter(dir, Some(Decoded(cursor))) == StartAfter(dir, Some(cursor))
  {
    var s, t := StartAfter(dir, Some(Decoded(cursor))), StartAfter(dir, Some(cursor));
    StartSplits(dir, Some(Decoded(cursor)));
    StartSplits(dir, Some(cursor));
    if s != t {
      var k := Min(s, t);
      assert Before(Some(Decoded(cursor)), dir[k].name) != Before(Some(cursor), dir[k].name);
    } else {
      forall k | 0 <= k < |dir|
        ensures Less(Decoded(cursor), dir[k].name) <==> Less(cursor, dir[k].name)
      {
        assert Before(Some(Decoded(cursor)), dir[k].name) <==> Before(Some(cursor), dir[k].name);
      }
    }
  }

  /** Pages are the same only if they start at the same entry. */
  lemma SamePageSameStart(dir: Dir, a: Option<string>, b: Option<string>, limit: u32)
    requires Listed(dir)
    ensures PageAfter(dir, a, limit) == PageAfter(dir, b, limit) <==> StartAfter(dir, a) == StartAfter(dir, b)
  {
    var s, t := StartAfter(dir, a), StartAfter(dir, b);
    if PageAfter(dir, a, limit) == PageAfter(dir, b, limit) && s < |dir| && t < |dir| {
      assert dir[s] == PageAfter(dir, a, limit)[0] == PageAfter(dir, b, limit)[0] == dir[t];
      LessIsStrict(dir[s].name, dir[s].name, dir[s].name);
    }
  }

  lemma TurnsLevelIff(j: Client, p: Client, dir: Dir, limit: u32)
    requires Listed(dir) && Level(j, p) && p.open && j.cursor == DecodedCursor(p.cursor)
    ensures var j', p' := JsTurn(j, dir, limit), Turn(p, dir, limit);
            && (Level(j', p') <==> (p.cursor.Some? ==> NoneBetween(dir, p.cursor.value))
                                   && (p'.open ==> Decoded(p'.cursor.value) != ""))
            && (Level(j', p') ==> j'.cursor == DecodedCursor(p'.cursor))
  {
    var a, b := PageAfter(dir, j.cursor, limit), PageAfter(dir, p.cursor, limit);
    assert j.got + a == p.got + b <==> a == b by {
      assert (j.got + a)[|j.got|..] == a && (p.got + b)[|p.got|..] == b;
    }
    SamePageSameStart(dir, j.cursor, p.cursor, limit);
    if p.cursor.Some? { NoneBetweenIff(dir, p.cursor.value); }
  }

  predicate AlwaysResumes(dirs: seq<Dir>, limit: u32) {
    forall n :: 0 <= n < |dirs| ==> Resumes(dirs[..n], dirs[n], limit)
  }

  lemma LevelBefore(before: seq<Dir>, dir: Dir, limit: u32)
    ensures var dirs := before + [dir];
            AlwaysLevel(dirs, limit) <==> AlwaysLevel(before, limit) && Level(JsWalk(dirs, limit), Walk(dirs, limit))
  {
    var dirs := before + [dir];
    assert forall n :: 0 <= n <= |before| ==> before[..n] == dirs[..n];
    assert dirs[..|dirs|] == dirs;
  }

  lemma ResumesBefore(before: seq<Dir>, dir: Dir, limit: u32)
    ensures AlwaysResumes(before + [dir], limit) <==> AlwaysResumes(before, limit) && Resumes(before, dir, limit)
  {
    var dirs := before + [dir];
    assert forall n :: 0 <= n <= |before| ==> before[..n] == dirs[..n];
    assert before[..|before|] == before;
  }

  lemma LevelStep(before: seq<Dir>, dir: Dir, limit: u32)
    requires Listed(dir)
    requires var j, p := JsWalk(before, limit), Walk(before, limit); Level(j, p) && j.cursor == DecodedCursor(p.cursor)
    ensures var j, p := JsWalk(before + [dir], limit), Walk(before + [dir], limit);
            (Level(j, p) <==> Resumes(before, dir, limit)) && (Level(j, p) ==> j.cursor == DecodedCursor(p.cursor))
  {
    var j, p := JsWalk(before, limit), Walk(before, limit);
    OneMore(before, dir, limit);
    assert (before + [dir])[..|before|] == before;
    if p.open { TurnsLevelIff(j, p, dir, limit); }
  }

  /** The two SDKs walk alike throughout exactly when every page starts where the last one stopped, by name,
      and no cursor is lost. JavaScript's cursor is then Python's, decoded. */
  lemma {:induction false} WalksAlikeIff(dirs: seq<Dir>, limit: u32)
    requires AllListed(dirs)
    ensures AlwaysLevel(dirs, limit) <==> AlwaysResumes(dirs, limit)
    ensures AlwaysLevel(dirs, limit) ==> JsWalk(dirs, limit).cursor == DecodedCursor(Walk(dirs, limit).cursor)
  {
    if dirs == [] {
      assert dirs[..0] == dirs;
    } else {
      var before, dir := dirs[..|dirs| - 1], dirs[|dirs| - 1];
      assert before + [dir] == dirs;
      WalksAlikeIff(before, limit);
      LevelBefore(before, dir, limit);
      ResumesBefore(before, dir, limit);
      if AlwaysLevel(before, limit) {
        assert before[..|before|] == before;
        LevelStep(before, dir, limit);
      }
    }
  }

  /** Names that do not begin with the mark are walked alike, whatever the directory becomes meanwhile. */
  lemma UnmarkedNamesWalkAlike(dirs: seq<Dir>, limit: u32)
    requires AllListed(dirs)
    requires forall q, k :: 0 <= q < |dirs| && 0 <= k < |dirs[q]| ==> Decoded(dirs[q][k].name) == dirs[q][k].name
    ensures AlwaysLevel(dirs, limit)
  {
    forall n | 0 <= n < |dirs|
      ensures Resumes(dirs[..n], dirs[n], limit)
    {
      assert (dirs[..n] + [dirs[n]])[..n] == dirs[..n];
      if n > 0 {
        assert dirs[..n][n - 1] == dirs[n - 1];
      }
    }
    WalksAlikeIff(dirs, limit);
  }

  // ----- a directory that holds still -----

  /** The first `n` requests all find `dir`. */
  function Still(dir: Dir, limit: u32, n: nat): Client {
    JsWalk(seq(n, _ => dir), limit)
  }

  lemma StillStep(dir: Dir, limit: u32, n: nat)
    ensures var c := Still(dir, limit, n); Still(dir, limit, n + 1) == if c.open then JsTurn(c, dir, limit) else c
  {
    var dirs: seq<Dir> := seq(n, _ => dir);
    assert seq(n + 1, _ => dir) == dirs + [dir];
    OneMore(dirs, dir, limit);
  }

  lemma {:induction false} StillGrows(dir: Dir, limit: u32, n: nat, m: nat)
    requires n <= m
    ensures Still(dir, limit, n).got <= Still(dir, limit, m).got
    ensures Still(dir, limit, m).open ==> Still(dir, limit, n).open
    ensures !Still(dir, limit, n).open ==> Still(dir, limit, m) == Still(dir, limit, n)
  {
    if n < m {
      StillGrows(dir, limit, n, m - 1);
      StillStep(dir, limit, m - 1);
    }
  }

  /** After `n` requests the walk is done, with exactly the directory. */
  predicate Exact(dir: Dir, limit: u32, n: nat) {
    !Still(dir, limit, n).open && Still(dir, limit, n).got == dir
  }

  /** Open, with the first `from` entries, and about to ask for what follows. */
  predicate At(dir: Dir, limit: u32, n: nat, from: nat) {
    var c := Still(dir, limit, n);
    c.open && from <= |dir| && c.got == dir[..from] && StartAfter(dir, c.cursor) == from
  }

  /** A page that ends before entry `i` is followed by one that begins with it. */
  predicate ResumesBehind(dir: Dir, i: nat)
    requires 0 < i <= |dir|
  {
    Decoded(dir[i - 1].name) != "" && NoneBetween(dir, dir[i - 1].name)
  }

  lemma ResumesIff(dir: Dir, i: nat)
    requires Listed(dir) && 0 < i <= |dir|
    ensures StartAfter(dir, Some(Decoded(dir[i - 1].name))) == i <==> NoneBetween(dir, dir[i - 1].name)
  {
    StartAfterIndex(dir, i - 1);
    NoneBetweenIff(dir, dir[i - 1].name);
  }

  predicate PagesResume(dir: Dir, from: nat, size: nat)
    requires size > 0
    decreases |dir| - from
  {
    from + size < |dir| ==> ResumesBehind(dir, from + size) && PagesResume(dir, from + size, size)
  }

  /** The page behind the first `from` entries. */
  lemma PageAt(dir: Dir, limit: u32, n: nat, from: nat)
    requires At(dir, limit, n, from)
    ensures var size := Max(limit, 1);
            && Still(dir, limit, n + 1).got == dir[..Min(from + size, |dir|)]
            && (from + size >= |dir| ==> Exact(dir, limit, n + 1))
  {
    var e := Min(from + Max(limit, 1), |dir|);
    StillStep(dir, limit, n);
    assert dir[..from] + dir[from..e] == dir[..e];
    assert dir[..|dir|] == dir;
  }

  /** The cursor it hands out. */
  lemma CursorAt(dir: Dir, limit: u32, n: nat, from: nat)
    requires At(dir, limit, n, from) && from + Max(limit, 1) < |dir|
    ensures var c, name := Still(dir, limit, n + 1), dir[from + Max(limit, 1) - 1].name;
            c.cursor == Some(Decoded(name)) && (c.open <==> Decoded(name) != "")
  {
    StillStep(dir, limit, n);
    assert NextCursor(dir, Still(dir, limit, n).cursor, limit) == Some(dir[from + Max(limit, 1) - 1].name);
  }

  lemma NextIsAt(dir: Dir, limit: u32, n: nat, from: nat)
    requires Listed(dir) && At(dir, limit, n, from) && from + Max(limit, 1) < |dir|
    ensures At(dir, limit, n + 1, from + Max(limit, 1)) <==> ResumesBehind(dir, from + Max(limit, 1))
  {
    PageAt(dir, limit, n, from);
    CursorAt(dir, limit, n, from);
    ResumesIff(dir, from + Max(limit, 1));
  }

  lemma {:induction false} ResumedIsExact(dir: Dir, limit: u32, n: nat, from: nat) returns (m: nat)
    requires Listed(dir) && At(dir, limit, n, from) && PagesResume(dir, from, Max(limit, 1))
    ensures Exact(dir, limit, m) && m <= n + 1 + |dir| - from
    decreases |dir| - from
  {
    var next := from + Max(limit, 1);
    if next >= |dir| {
      PageAt(dir, limit, n, from);
      m := n + 1;
    } else {
      NextIsAt(dir, limit, n, from);
      m := ResumedIsExact(dir, limit, n + 1, next);
    }
  }

  /** A walk that closed short, or has an entry out of place, never becomes exact. */
  lemma OffIsForever(dir: Dir, limit: u32, n: nat, m: nat)
    requires !(Still(dir, limit, n).got <= dir) || (!Still(dir, limit, n).open && Still(dir, limit, n).got != dir)
    ensures !Exact(dir, limit, m)
  {
    StillGrows(dir, limit, if n <= m then n else m, if n <= m then m else n);
  }

  /** A page that starts in the wrong place puts its first entry there, or is empty and the last. */
  lemma WrongStart(dir: Dir, limit: u32, n: nat, from: nat)
    requires Listed(dir) && from < |dir|
    requires var c := Still(dir, limit, n); c.open && c.got == dir[..from] && StartAfter(dir, c.cursor) != from
    ensures var c := Still(dir, limit, n + 1); !(c.got <= dir) || (!c.open && c.got != dir)
  {
    StillStep(dir, limit, n);
    var c, c' := Still(dir, limit, n), Still(dir, limit, n + 1);
    var s := StartAfter(dir, c.cursor);
    if s < |dir| {
      assert c'.got[from] == PageAfter(dir, c.cursor, limit)[0] == dir[s];
      LessIsStrict(dir[s].name, dir[s].name, dir[s].name);
    } else {
      assert PageAfter(dir, c.cursor, limit) == [];
      assert |c'.got| == from;
    }
  }

  lemma NextIsOff(dir: Dir, limit: u32, n: nat, from: nat, m: nat)
    requires Listed(dir) && At(dir, limit, n, from) && from + Max(limit, 1) < |dir|
    requires !At(dir, limit, n + 1, from + Max(limit, 1))
    ensures !Exact(dir, limit, m)
  {
    PageAt(dir, limit, n, from);
    if Still(dir, limit, n + 1).open {
      WrongStart(dir, limit, n + 1, from + Max(limit, 1));
      OffIsForever(dir, limit, n + 2, m);
    } else {
      assert |Still(dir, limit, n + 1).got| < |dir|;
      OffIsForever(dir, limit, n + 1, m);
    }
  }

  lemma {:induction false} UnresumedIsNotExact(dir: Dir, limit: u32, n: nat, from: nat, m: nat)
    requires Listed(dir) && At(dir, limit, n, from) && !PagesResume(dir, from, Max(limit, 1))
    ensures !Exact(dir, limit, m)
    decreases |dir| - from
  {
    var next := from + Max(limit, 1);
    NextIsAt(dir, limit, n, from);
    if ResumesBehind(dir, next) {
      UnresumedIsNotExact(dir, limit, n + 1, next, m);
    } else {
      NextIsOff(dir, limit, n, from, m);
    }
  }

  /** `i` entries fill whole pages. */
  predicate WholePages(i: nat, size: nat)
    requires size > 0
  {
    i >= size && (i == size || WholePages(i - size, size))
  }

  predicate EveryEndResumes(dir: Dir, from: nat, size: nat)
    requires size > 0
  {
    forall i :: from < i < |dir| && WholePages(i - from, size) ==> ResumesBehind(dir, i)
  }

  lemma FirstEnd(dir: Dir, from: nat, size: nat)
    requires size > 0 && from + size < |dir|
    ensures EveryEndResumes(dir, from, size)
       <==> ResumesBehind(dir, from + size) && EveryEndResumes(dir, from + size, size)
  {
    var next := from + size;
    assert WholePages(next - from, size);
    if EveryEndResumes(dir, from, size) {
      forall i | next < i < |dir| && WholePages(i - next, size)
        ensures ResumesBehind(dir, i)
      {
        assert WholePages(i - from, size);
      }
    } else {
      var i :| from < i < |dir| && WholePages(i - from, size) && !ResumesBehind(dir, i);
      assert i == next || WholePages(i - next, size);
    }
  }

  /** `PagesResume`, page end by page end. */
  lemma {:induction false} PageEnds(dir: Dir, from: nat, size: nat)
    requires size > 0
    ensures PagesResume(dir, from, size) <==> EveryEndResumes(dir, from, size)
    decreases |dir| - from
  {
    if from + size < |dir| {
      FirstEnd(dir, from, size);
      PageEnds(dir, from + size, size);
    }
  }

  /** On a directory that holds still, JavaScript's walk ends with exactly the directory if and only if,
      for the name of each entry that a page ends with, the last page aside: it is not the mark alone, and
      decoding it passes over no name of the directory. It then takes at most a page more than entries. */
  lemma StillWalkIsExactIff(dir: Dir, limit: u32)
    requires Listed(dir)
    ensures (exists n: nat :: Exact(dir, limit, n))
       <==> (forall i :: 0 < i < |dir| && WholePages(i, Max(limit, 1)) ==> ResumesBehind(dir, i))
    ensures (exists n: nat :: Exact(dir, limit, n)) ==> exists n: nat :: n <= |dir| + 1 && Exact(dir, limit, n)
  {
    var size := Max(limit, 1);
    PageEnds(dir, 0, size);
    assert At(dir, limit, 0, 0);
    if PagesResume(dir, 0, size) {
      var n := ResumedIsExact(dir, limit, 0, 0);
    } else {
      forall n ensures !Exact(dir, limit, n) { UnresumedIsNotExact(dir, limit, 0, 0, n); }
    }
  }

  // ----- a directory it never gets out of -----

  function File(name: string): DirEntry {
    DirEntry(name, name, false, None)
  }

  /** Its last two names differ by the mark from names that sort before the first one, or are it. */
  function MarkedDir(): Dir {
    [File("b"), File("\U{FEFF}a"), File("\U{FEFF}b")]
  }

  lemma MarkedDirIsListed()
    ensures Listed(MarkedDir())
  {
    assert Less("b", "\U{FEFF}a") && Less("b", "\U{FEFF}b");
    assert Less("a", "b") && "\U{FEFF}a"[1..] == "a" && "\U{FEFF}b"[1..] == "b";
  }

  lemma MarkedTurn(c: Client)
    requires c.cursor in {None, Some("a"), Some("b")}
    ensures var c' := JsTurn(c, MarkedDir(), 1);
            && c'.open && |c'.got| == |c.got| + 1
            && c'.cursor == Some(if c.cursor == Some("b") then "a" else "b")
  {
    MarkedDirIsListed();
    if c.cursor == Some("b") {
      StartAfterIndex(MarkedDir(), 0);
    } else {
      assert c.cursor.Some? ==> Less("a", "b");
    }
    assert "\U{FEFF}a"[1..] == "a";
  }

  /** One name a page: after every `n` requests the walk is open, with `n` entries for a directory of three. */
  lemma {:induction false} MarkedDirIsWalkedForever(n: nat)
    ensures Listed(MarkedDir())
    ensures var c := Still(MarkedDir(), 1, n);
            c.open && |c.got| == n && c.cursor in {None, Some("a"), Some("b")}
  {
    MarkedDirIsListed();
    if n > 0 {
      MarkedDirIsWalkedForever(n - 1);
      StillStep(MarkedDir(), 1, n - 1);
      MarkedTurn(Still(MarkedDir(), 1, n - 1));
    }
  }
}
