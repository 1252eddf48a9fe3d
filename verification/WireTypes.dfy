/**
 The `ce-drive/v1` messages (src/wire.rs). `S` is the text type: byte strings on the wire,
 character strings once the host has decoded them.
 */
module WireTypes {
  import opened Wrappers

  const TWO_32 := 0x1_0000_0000
  const TWO_64 := 0x1_0000_0000_0000_0000

  type u8 = x: nat | x < 256
  type u32 = x: nat | x < TWO_32
  type u64 = x: nat | x < TWO_64

  /** A sequence whose length fits the wire's u64 count. */
  type Vec<T> = s: seq<T> | |s| < TWO_64

  datatype ShareCaveats = ShareCaveats(notAfter: u64, maxBytesRead: Option<u64>, maxBytesWrite: Option<u64>)

  datatype DriveOp<S> =
    | Open
    | Stat(path: S)
    | List(path: S, after: Option<S>, limit: u32)
    | Read(path: S, offset: u64, len: Option<u64>)
    | Write(path: S, objectCid: S, size: u64, baseEtag: Option<S>)
    | Mkdir(path: S)
    | Move(src: S, dst: S)
    | Copy(src: S, dst: S)
    | Delete(path: S, recursive: bool)
    | Share(path: S, audience: S, abilities: Vec<S>, caveats: ShareCaveats)
    | Poll(cursor: Option<u64>, limit: u32)
    | Watch
    | Meta(path: S)
    | SetProp(path: S, key: S, value: Option<S>)
    | Tag(path: S, tag: S, remove: bool)
    | Link(path: S, rel: S, target: S, remove: bool)
    | Backlinks(target: S)
    | Versions(path: S)

  datatype DriveReq<S> = DriveReq(drive: S, cap: S, op: DriveOp<S>)

  datatype EntryKind = File | Dir

  datatype Entry<S> = Entry(path: S, kind: EntryKind, size: u64, mtimeMs: u64, etag: S, nodeId: S,
                            objectCid: Option<S>, docId: Option<S>)

  datatype ChunkRef<S> = ChunkRef(cid: S, offset: u64, len: u64)

  datatype ReadPlan<S> = ReadPlan(objectCid: S, totalSize: u64, chunkSize: u64, chunks: Vec<ChunkRef<S>>,
                                  encrypted: bool, keyHint: Option<S>)

  /** `Unrecognised` is what a client makes of a kind a newer host added; no host here sends it. */
  datatype ChangeKind<S> = Created | Modified | Deleted | Moved(origin: S) | Unrecognised

  datatype Change<S> = Change(seqNo: u64, path: S, nodeId: S, kind: ChangeKind<S>, etag: S)

  datatype Quota<S> = Quota(pricePerGibMonth: S, pricePerGibEgress: S, freeTierBytes: u64, channelRequired: bool)

  datatype VersionInfo<S> = VersionInfo(setAtMs: u64, locator: S, size: u64, conflict: bool)

  datatype DriveOk<S> =
    | Opened(driveRootCid: S, serverSeq: u64, grantedAbilities: Vec<S>, quota: Quota<S>)
    | EntryOk(entry: Entry<S>)
    | Listing(entries: Vec<Entry<S>>, nextCursor: Option<S>)
    | PlanOk(plan: ReadPlan<S>)
    | Written(etag: S, nodeId: S, versionSeq: u64)
    | Made(nodeId: S)
    | DeletedOk
    | Shared(chain: S)
    | Changes(changes: Vec<Change<S>>, newCursor: u64)
    | Watching(topic: S, cursor: u64)
    | MetaOk(nodeId: S, props: Vec<(S, S)>, tags: Vec<S>, links: Vec<(S, S)>)
    | BacklinksOk(sources: Vec<(S, S)>)
    | VersionsOk(versions: Vec<VersionInfo<S>>)

  datatype DriveErr<S> =
    | Unauthorized | Revoked | Expired | OutOfScope | NotFound
    | Conflict(currentEtag: S)
    | QuotaExceeded | PaymentRequired | BadPath
    | Internal(reason: S)
}
