/**
 A hosted drive as the handlers see it (src/serve.rs `op_write`, `op_mkdir`, `op_move`, `op_copy`,
 `op_delete` and the three lock sections of `op_open`; src/tenant.rs `Tenant`). The tree itself belongs
 to another crate: what it answers to a lookup and what it does with an operation are parameters, and
 each method is one stretch of code under the lock.
 */
module Hosting {
  import opened Wrappers
  import opened WireTypes
  import Bootstrap
  import opened Feed
  import Paths

  /** What the tree does with an operation; `nodeId` and `etag` are the touched node's. */
  datatype CoreAnswer<D> = Applied(drive: D, nodeId: string, etag: string) | Refused(reason: string)

  /** What the tree knows about a path. */
  datatype Node = Node(id: string, etag: string, hasContent: bool)

  type Reply = Result<DriveOk<string>, DriveErr<string>>

  class Tenant<D> {
    var drive: D
    const feed: ChangeFeed
    const quota: Quota<string>
    var snapshot: Option<(string, u64)>
    /** What happened since boot, as the protocol sees it. */
    ghost var run: seq<Bootstrap.Event>

    /** The fields are what the run makes of a booted host. */
    ghost predicate Valid()
      reads this, feed
    {
      && feed.Valid() && Bootstrap.ValidRun(run)
      && Now().log == feed.changes
      && (snapshot.Some? <==> Now().cache.Some?)
      && (snapshot.Some? ==> snapshot.value.1 == Now().cache.value.cursor)
    }

    ghost function Now(): Bootstrap.Host
      requires Bootstrap.ValidRun(run)
      reads this
    {
      Bootstrap.At(run, |run|)
    }

    constructor (initial: D, quota: Quota<string>)
      ensures Valid() && run == [] && feed.changes == [] && snapshot == None
      ensures drive == initial && this.quota == quota && fresh(feed)
    {
      drive, this.quota, snapshot := initial, quota, None;
      feed := new ChangeFeed();
      run := [];
    }

    /** The operation took effect: the tree is what the core made of it, exactly one change with the
        next number was recorded. */
    twostate predicate Took(core: CoreAnswer<D>, nodeId: string, path: string, kind: ChangeKind<string>,
                            etag: string)
      requires core.Applied?
      reads this, feed
    {
      && drive == core.drive
      && run == old(run) + [Bootstrap.Record(path, nodeId, kind, etag)]
      && |feed.changes| < TWO_64
      && feed.changes == old(feed.changes) + [Change(|feed.changes|, path, nodeId, kind, etag)]
    }

    /** It did not: neither the tree nor the feed moved. */
    twostate predicate Untouched()
      reads this, feed
    {
      drive == old(drive) && run == old(run) && feed.changes == old(feed.changes)
    }

    method Commit(core: CoreAnswer<D>, nodeId: string, path: string, kind: ChangeKind<string>, etag: string)
      returns (seqNo: u64)
      requires Valid() && core.Applied? && |feed.changes| + 1 < TWO_64
      modifies this`drive, this`run, feed
      ensures Valid() && Took(core, nodeId, path, kind, etag) && seqNo == |feed.changes|
    {
      Bootstrap.Extends(run, Bootstrap.Record(path, nodeId, kind, etag));
      drive := core.drive;
      seqNo := feed.Record(path, nodeId, kind, etag);
      run := run + [Bootstrap.Record(path, nodeId, kind, etag)];
    }

    method Write(path: string, baseEtag: Option<string>, existing: Option<Node>, core: CoreAnswer<D>)
      returns (r: Reply, beacon: Option<u64>)
      requires Valid() && |feed.changes| + 1 < TWO_64
      modifies this`drive, this`run, feed
      ensures Valid()
      ensures beacon == (if r.Success? then Some(|feed.changes|) else None)
      ensures r.Failure? ==> Untouched()
      ensures r.Success? ==> core.Applied? && Took(core, core.nodeId, Paths.NormPath(path), Modified, core.etag)
                             && r.value == Written(core.etag, core.nodeId, |feed.changes|)
      ensures r == Failure(BadPath) <==> Paths.SplitPath(path).None?
      ensures Paths.SplitPath(path).Some? && existing.Some? && baseEtag.Some? && baseEtag != Some(existing.value.etag)
              ==> r == Failure(Conflict(existing.value.etag))
      ensures Paths.SplitPath(path).Some? && (existing.None? || baseEtag.None? || baseEtag == Some(existing.value.etag))
              ==> if core.Refused? then r == Failure(Internal(core.reason)) else r.Success?
    {
      if Paths.SplitPath(path).None? { return Failure(BadPath), None; }
      if existing.Some? {
        var current := existing.value.etag;
        if baseEtag.Some? && baseEtag.value != current { return Failure(Conflict(current)), None; }
      }
      if core.Refused? { return Failure(Internal(core.reason)), None; }
      var seqNo := Commit(core, core.nodeId, Paths.NormPath(path), Modified, core.etag);
      r, beacon := Success(Written(core.etag, core.nodeId, seqNo)), Some(seqNo);
    }

    method Mkdir(path: string, core: CoreAnswer<D>) returns (r: Reply, beacon: Option<u64>)
      requires Valid() && |feed.changes| + 1 < TWO_64
      modifies this`drive, this`run, feed
      ensures Valid()
      ensures beacon == (if r.Success? then Some(|feed.changes|) else None)
      ensures r.Failure? ==> Untouched()
      ensures r.Success? ==> core.Applied? && Took(core, core.nodeId, Paths.NormPath(path), Created, core.etag)
                             && r.value == Made(core.nodeId)
      ensures r.Success? <==> Paths.SplitPath(path).Some? && core.Applied?
      ensures r == Failure(BadPath) <==> Paths.SplitPath(path).None?
      ensures Paths.SplitPath(path).Some? && core.Refused? ==> r == Failure(Internal(core.reason))
    {
      if Paths.SplitPath(path).None? { return Failure(BadPath), None; }
      if core.Refused? { return Failure(Internal(core.reason)), None; }
      var seqNo := Commit(core, core.nodeId, Paths.NormPath(path), Created, core.etag);
      r, beacon := Success(Made(core.nodeId)), Some(seqNo);
    }

    /** The moved node keeps its id; the change says where it came from. */
    method Move(src: string, dst: string, found: Option<Node>, core: CoreAnswer<D>)
      returns (r: Reply, beacon: Option<u64>)
      requires Valid() && |feed.changes| + 1 < TWO_64
      modifies this`drive, this`run, feed
      ensures Valid()
      ensures beacon == (if r.Success? then Some(|feed.changes|) else None)
      ensures r.Failure? ==> Untouched()
      ensures r.Success? ==> found.Some? && core.Applied? && r.value == Made(found.value.id)
                             && Took(core, found.value.id, Paths.NormPath(dst), Moved(Paths.NormPath(src)), core.etag)
      ensures r.Success? <==> Paths.SplitPath(dst).Some? && found.Some? && core.Applied?
      ensures r == Failure(BadPath) <==> Paths.SplitPath(dst).None?
      ensures r == Failure(NotFound) <==> Paths.SplitPath(dst).Some? && found.None?
      ensures Paths.SplitPath(dst).Some? && found.Some? && core.Refused? ==> r == Failure(Internal(core.reason))
    {
      if Paths.SplitPath(dst).None? { return Failure(BadPath), None; }
      if found.None? { return Failure(NotFound), None; }
      if core.Refused? { return Failure(Internal(core.reason)), None; }
      var seqNo := Commit(core, found.value.id, Paths.NormPath(dst), Moved(Paths.NormPath(src)), core.etag);
      r, beacon := Success(Made(found.value.id)), Some(seqNo);
    }

    /** Only a file can be copied. */
    method Copy(src: string, dst: string, found: Option<Node>, core: CoreAnswer<D>)
      returns (r: Reply, beacon: Option<u64>)
      requires Valid() && |feed.changes| + 1 < TWO_64
      modifies this`drive, this`run, feed
      ensures Valid()
      ensures beacon == (if r.Success? then Some(|feed.changes|) else None)
      ensures r.Failure? ==> Untouched()
      ensures r.Success? ==> core.Applied? && Took(core, core.nodeId, Paths.NormPath(dst), Created, core.etag)
                             && r.value == Made(core.nodeId)
      ensures r.Success? <==> Paths.SplitPath(dst).Some? && found.Some? && found.value.hasContent && core.Applied?
      ensures r == Failure(BadPath) <==> Paths.SplitPath(dst).None?
      ensures r == Failure(NotFound) <==> Paths.SplitPath(dst).Some? && (found.None? || !found.value.hasContent)
      ensures Paths.SplitPath(dst).Some? && found.Some? && found.value.hasContent && core.Refused?
              ==> r == Failure(Internal(core.reason))
    {
      if Paths.SplitPath(dst).None? { return Failure(BadPath), None; }
      if found.None? || !found.value.hasContent { return Failure(NotFound), None; }
      if core.Refused? { return Failure(Internal(core.reason)), None; }
      var seqNo := Commit(core, core.nodeId, Paths.NormPath(dst), Created, core.etag);
      r, beacon := Success(Made(core.nodeId)), Some(seqNo);
    }

    /** A deletion is recorded with an empty etag. */
    method Delete(path: string, found: Option<Node>, core: CoreAnswer<D>) returns (r: Reply, beacon: Option<u64>)
      requires Valid() && |feed.changes| + 1 < TWO_64
      modifies this`drive, this`run, feed
      ensures Valid()
      ensures beacon == (if r.Success? then Some(|feed.changes|) else None)
      ensures r.Failure? ==> Untouched()
      ensures r.Success? ==> found.Some? && core.Applied? && r.value == DeletedOk
                             && Took(core, found.value.id, Paths.NormPath(path), Deleted, "")
      ensures r.Success? <==> found.Some? && core.Applied?
      ensures found.None? ==> r == Failure(NotFound)
      ensures found.Some? && core.Refused? ==> r == Failure(Internal(core.reason))
    {
      if found.None? { return Failure(NotFound), None; }
      if core.Refused? { return Failure(Internal(core.reason)), None; }
      var seqNo := Commit(core, found.value.id, Paths.NormPath(path), Deleted, "");
      r, beacon := Success(DeletedOk), Some(seqNo);
    }

    // ----- Open -----

    /** The cached snapshot, if the feed has not moved since it was installed. */
    method OpenCached(id: Bootstrap.Id, granted: Vec<string>) returns (hit: Option<DriveOk<string>>)
      requires Valid() && Bootstrap.Enabled(Now(), Bootstrap.Begin(id))
      modifies this`run
      ensures Valid() && run == old(run) + [Bootstrap.Begin(id)]
      ensures var reply := Bootstrap.ReplyAt(run, |run| - 1);
              && (hit.Some? <==> reply.Some?)
              && (hit.Some? ==> snapshot.Some? && snapshot.value.1 == reply.value.cursor)
              && (hit.Some? ==> hit == Some(Opened(snapshot.value.0, snapshot.value.1, granted, quota)))
    {
      Bootstrap.Extends(run, Bootstrap.Begin(id));
      run := run + [Bootstrap.Begin(id)];
      var cursor := feed.Cursor();
      if snapshot.Some? && snapshot.value.1 == cursor {
        return Some(Opened(snapshot.value.0, snapshot.value.1, granted, quota));
      }
      hit := None;
    }

    method CaptureState(id: Bootstrap.Id) returns (state: D)
      requires Valid() && Bootstrap.Enabled(Now(), Bootstrap.Capture(id))
      modifies this`run
      ensures Valid() && run == old(run) + [Bootstrap.Capture(id)]
      ensures state == drive
    {
      Bootstrap.Extends(run, Bootstrap.Capture(id));
      run := run + [Bootstrap.Capture(id)];
      state := drive;
    }

    method InstallSnapshot(id: Bootstrap.Id, cid: string, granted: Vec<string>) returns (reply: DriveOk<string>)
      requires Valid() && Bootstrap.Enabled(Now(), Bootstrap.Install(id))
      modifies this`snapshot, this`run
      ensures Valid() && run == old(run) + [Bootstrap.Install(id)]
      ensures snapshot == Some((cid, |feed.changes|)) && reply == Opened(cid, |feed.changes|, granted, quota)
      ensures var sent := Bootstrap.ReplyAt(run, |run| - 1); sent.Some? && sent.value.cursor == |feed.changes|
    {
      Bootstrap.Extends(run, Bootstrap.Install(id));
      run := run + [Bootstrap.Install(id)];
      var serverSeq := feed.Cursor();
      snapshot := Some((cid, serverSeq));
      reply := Opened(cid, serverSeq, granted, quota);
    }

    /** A poll without a cursor starts at 0. */
    method Poll(cursor: Option<u64>, limit: u32) returns (reply: DriveOk<string>)
      requires Valid()
      ensures var from: u64 := if cursor.Some? then cursor.value else 0;
              var page := PageOf(feed.changes, from, limit);
              |page| < TWO_64 && reply == Changes(page, CursorAfter(page, from))
    {
      var from: u64 := if cursor.Some? then cursor.value else 0;
      var page, newCursor := feed.Poll(from, limit);
      PageIsNextStretch(feed.changes, from, limit);
      reply := Changes(page, newCursor);
    }
  }
}
