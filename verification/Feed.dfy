/**
 The per-drive change feed (src/feed.rs) and a client that follows it: records are numbered as they
 arrive, a poll returns those numbered after a cursor, and the client polls again from where it got to.
 */
module Feed {
  import opened Math
  import opened WireTypes
  import Seqs

  type Delta = Change<string>
  type Log = seq<Delta>

  /** Numbered 1, 2, ... in the order recorded. */
  predicate Gapless(log: Log) {
    forall k :: 0 <= k < |log| ==> log[k].seqNo == k + 1
  }

  /** The number of the last record, 0 when there is none. */
  function Latest(log: Log): u64 {
    if log == [] then 0 else log[|log| - 1].seqNo
  }

  /** The records numbered after `cursor`. */
  function Newer(log: Log, cursor: u64): Log {
    if log == [] then []
    else
      var n := |log| - 1;
      Newer(log[..n], cursor) + if log[n].seqNo > cursor then [log[n]] else []
  }

  function Take(log: Log, n: nat): Log {
    log[..Min(n, |log|)]
  }

  /** What a poll returns: a limit of 0 counts as 1. */
  function PageOf(log: Log, cursor: u64, limit: u32): Log {
    Take(Newer(log, cursor), Max(limit, 1))
  }

  function CursorAfter(page: Log, cursor: u64): u64 {
    if page == [] then cursor else Latest(page)
  }

  class ChangeFeed {
    var changes: Log

    ghost predicate Valid()
      reads this
    {
      Gapless(changes) && |changes| < TWO_64
    }

    constructor ()
      ensures Valid() && changes == []
    {
      changes := [];
    }

    method Cursor() returns (cursor: u64)
      requires Valid()
      ensures cursor == |changes|
    {
      if |changes| == 0 {
        return 0;
      }
      cursor := changes[|changes| - 1].seqNo;
    }

    method Record(path: string, nodeId: string, kind: ChangeKind<string>, etag: string) returns (seqNo: u64)
      requires Valid() && |changes| + 1 < TWO_64
      modifies this
      ensures Valid() && seqNo == |changes|
      ensures changes == old(changes) + [Change(seqNo, path, nodeId, kind, etag)]
    {
      var cursor := Cursor();
      seqNo := cursor + 1;
      changes := changes + [Change(seqNo, path, nodeId, kind, etag)];
    }

    method Poll(cursor: u64, limit: u32) returns (page: Log, newCursor: u64)
      requires Valid()
      ensures page == PageOf(changes, cursor, limit)
      ensures newCursor == CursorAfter(page, cursor)
    {
      var most := Max(limit, 1);
      page := [];
      for k := 0 to |changes|
        invariant page == Take(Newer(changes[..k], cursor), most)
      {
        assert changes[..k + 1][..k] == changes[..k];
        if changes[k].seqNo > cursor && |page| < most {
          page := page + [changes[k]];
        }
      }
      assert changes[..|changes|] == changes;
      newCursor := if |page| == 0 then cursor else page[|page| - 1].seqNo;
    }
  }

  // ----- what a poll returns of a gapless log -----

  lemma {:induction false} NewerIsSuffix(log: Log, cursor: u64)
    requires Gapless(log)
    ensures Newer(log, cursor) == log[Min(cursor, |log|)..]
  {
    if log != [] {
      var n := |log| - 1;
      NewerIsSuffix(log[..n], cursor);
      if cursor <= n {
        Seqs.SuffixSnoc(log, cursor);
      }
    }
  }

  /** A page is the stretch of the log right after the cursor, never empty while there is something
      after it, and the new cursor is where the stretch ends. A cursor past the end stays put. */
  lemma PageIsNextStretch(log: Log, cursor: u64, limit: u32)
    requires Gapless(log)
    ensures var page := PageOf(log, cursor, limit);
            && page == log[Min(cursor, |log|)..Min(cursor + Max(limit, 1), |log|)]
            && CursorAfter(page, cursor) == cursor + |page|
            && (page == [] <==> cursor >= |log|)
  {
    NewerIsSuffix(log, cursor);
    var lo, hi := Min(cursor, |log|), Min(cursor + Max(limit, 1), |log|);
    Seqs.SliceOfSlice(log, lo, |log|, lo, hi);
    assert PageOf(log, cursor, limit) == log[lo..][..hi - lo];
  }

  /** Polling until an empty page: the client ends with everything after its cursor, whatever limits it
      used. In particular a client that starts at 0 ends with the whole feed, and one that comes with a
      cursor `k` from before a restart (the feed restarts at 0) never sees the first `k` records. */
  method Drain(feed: ChangeFeed, start: u64, limits: nat -> u32) returns (got: Log, cursor: u64)
    requires feed.Valid()
    ensures got == feed.changes[Min(start, |feed.changes|)..]
    ensures cursor == Max(start, |feed.changes|)
  {
    got, cursor := [], start;
    var more := true;
    ghost var lo := Min(start, |feed.changes|);
    while more
      invariant start <= cursor <= Max(start, |feed.changes|)
      invariant got == feed.changes[lo..Min(cursor, |feed.changes|)]
      invariant !more ==> cursor >= |feed.changes|
      decreases more, |feed.changes| - cursor
    {
      var page, next := feed.Poll(cursor, limits(cursor));
      PageIsNextStretch(feed.changes, cursor, limits(cursor));
      more := page != [];
      got, cursor := got + page, next;
    }
  }

  // ----- a client that polls while the drive changes -----

  datatype Act =
    | Put(path: string, nodeId: string, kind: ChangeKind<string>, etag: string)
    | Ask(limit: u32)

  datatype World = World(log: Log, cursor: u64, got: Log)

  /** Records and polls in any order, the client always polling from its last cursor. */
  function Play(acts: seq<Act>): World
    requires |acts| < TWO_64
    ensures |Play(acts).log| <= |acts| && Gapless(Play(acts).log)
  {
    if acts == [] then World([], 0, [])
    else
      var w := Play(acts[..|acts| - 1]);
      match acts[|acts| - 1]
      case Put(path, nodeId, kind, etag) =>
        w.(log := w.log + [Change(Latest(w.log) + 1, path, nodeId, kind, etag)])
      case Ask(limit) =>
        var page := PageOf(w.log, w.cursor, limit);
        w.(cursor := CursorAfter(page, w.cursor), got := w.got + page)
  }

  lemma PrefixGrows(log: Log, cursor: u64, got: Log, limit: u32)
    requires Gapless(log) && got <= log && cursor == |got|
    ensures got + PageOf(log, cursor, limit) <= log
  {
    PageIsNextStretch(log, cursor, limit);
    var hi := Min(cursor + Max(limit, 1), |log|);
    assert log[..hi] == log[..cursor] + log[cursor..hi];
  }

  /** At every moment the client holds exactly a prefix of the feed, and its cursor is its length. */
  lemma {:induction false} FollowerHoldsPrefix(acts: seq<Act>)
    requires |acts| < TWO_64
    ensures var w := Play(acts); w.got <= w.log && w.cursor == |w.got|
  {
    if acts != [] {
      FollowerHoldsPrefix(acts[..|acts| - 1]);
      var w := Play(acts[..|acts| - 1]);
      if acts[|acts| - 1].Ask? {
        PrefixGrows(w.log, w.cursor, w.got, acts[|acts| - 1].limit);
        PageIsNextStretch(w.log, w.cursor, acts[|acts| - 1].limit);
      } else {
        assert Play(acts).got == w.got && w.log <= Play(acts).log;
      }
    }
  }

  /** Every poll brings the client one record closer at least, so once the drive falls silent as many
      polls as there are records bring it up to date. */
  lemma {:induction false} FollowerCatchesUp(acts: seq<Act>, quiet: nat)
    requires |acts| < TWO_64 && quiet <= |acts|
    requires forall k :: quiet <= k < |acts| ==> acts[k].Ask?
    ensures var w := Play(acts); |w.got| >= Min(|w.log|, |acts| - quiet)
    ensures |acts| - quiet >= |Play(acts).log| ==> Play(acts).got == Play(acts).log
    decreases |acts|
  {
    FollowerHoldsPrefix(acts);
    if quiet < |acts| {
      var before := acts[..|acts| - 1];
      FollowerCatchesUp(before, quiet);
      FollowerHoldsPrefix(before);
      PageIsNextStretch(Play(before).log, Play(before).cursor, acts[|acts| - 1].limit);
    }
  }
}
