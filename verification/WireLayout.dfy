/**
 The bytes of the `ce-drive/v1` messages, written out (src/wire.rs; bincode 1.x): the tag of every variant,
 the order of the fields, the byte order of numbers, the marks of options, flags and lists. The round
 trips of `WireProofs` hold of any grammar that printer and parser share; this is the one they share.
 */
module WireLayout {
  import opened Wrappers
  import opened WireTypes
  import opened Wire

  /** Least significant byte first. */
  function Le4(v: u32): Bytes {
    [v % 256, v / 0x100 % 256, v / 0x1_0000 % 256, v / 0x100_0000]
  }

  function Le8(v: u64): Bytes {
    [v % 256, v / 0x100 % 256, v / 0x1_0000 % 256, v / 0x100_0000 % 256, v / 0x1_0000_0000 % 256,
     v / 0x100_0000_0000 % 256, v / 0x1_0000_0000_0000 % 256, v / 0x100_0000_0000_0000]
  }

  function Flag(b: bool): Bytes {
    if b then [1] else [0]
  }

  function Text(s: Str): Bytes {
    Le8(|s|) + s
  }

  function OptText(o: Option<Str>): Bytes {
    match o
    case None => [0]
    case Some(s) => [1] + Text(s)
  }

  function OptLe8(o: Option<u64>): Bytes {
    match o
    case None => [0]
    case Some(v) => [1] + Le8(v)
  }

  // ----- numbers, texts, options, lists -----

  lemma OneByte(x: u8, k: Bytes)
    ensures EncU8(x, k) == [x] + k
  {
    assert EncInt(0, x / 256, k) == k;
  }

  lemma FourBytes(n: nat, x: nat, k: Bytes)
    requires n >= 4
    ensures EncInt(n, x, k) == [x % 256, x / 0x100 % 256, x / 0x1_0000 % 256, x / 0x100_0000 % 256]
                               + EncInt(n - 4, x / 0x1_0000_0000, k)
  {
    var k4 := EncInt(n - 4, x / 0x1_0000_0000, k);
    var k3 := EncInt(n - 3, x / 0x100_0000, k);
    var k2 := EncInt(n - 2, x / 0x1_0000, k);
    var k1 := EncInt(n - 1, x / 0x100, k);
    assert k3 == [x / 0x100_0000 % 256] + k4;
    assert k2 == [x / 0x1_0000 % 256] + k3;
    assert k1 == [x / 0x100 % 256] + k2;
    assert EncInt(n, x, k) == [x % 256] + k1;
  }

  lemma Number4(v: u32, k: Bytes)
    ensures EncU32(v, k) == Le4(v) + k
  {
    FourBytes(4, v, k);
  }

  lemma Halves(v: u64)
    ensures Le8(v) == [v % 256, v / 0x100 % 256, v / 0x1_0000 % 256, v / 0x100_0000 % 256] + Le4(v / 0x1_0000_0000)
  {
  }

  lemma Number8(v: u64, k: Bytes)
    ensures EncU64(v, k) == Le8(v) + k
  {
    FourBytes(8, v, k);
    Number4(v / 0x1_0000_0000, k);
    Halves(v);
  }

  lemma TextAt(s: Str, k: Bytes)
    ensures EncStr(s, k) == Text(s) + k
  {
    Number8(|s|, s + k);
    assert Le8(|s|) + (s + k) == Le8(|s|) + s + k;
  }

  lemma FlagAt(b: bool, k: Bytes)
    ensures EncBool(b, k) == Flag(b) + k
  {
    OneByte(if b then 1 else 0, k);
  }

  lemma OptTextAt(o: Option<Str>, k: Bytes)
    ensures EncOptStr(o, k) == OptText(o) + k
  {
    match o
    case None => OneByte(0, k);
    case Some(s) => OneByte(1, EncStr(s, k)); TextAt(s, k);
  }

  lemma OptNumberAt(o: Option<u64>, k: Bytes)
    ensures EncOptU64(o, k) == OptLe8(o) + k
  {
    match o
    case None => OneByte(0, k);
    case Some(v) => OneByte(1, EncU64(v, k)); Number8(v, k);
  }

  lemma TagBytes(tag: u8, k: Bytes)
    ensures EncU32(tag, k) == [tag, 0, 0, 0] + k
  {
    Number4(tag, k);
  }

  lemma TwoTexts(p: Str, q: Str, k: Bytes)
    ensures EncStr(p, EncStr(q, k)) == Text(p) + (Text(q) + k)
  {
    TextAt(q, k);
    TextAt(p, Text(q) + k);
  }

  lemma VecBytes<T>(enc: (T, Bytes) -> Bytes, xs: Vec<T>, k: Bytes)
    ensures EncVec(enc, xs, k) == Le8(|xs|) + EncAll(enc, xs, k)
  {
    Number8(|xs|, EncAll(enc, xs, k));
  }

  // ----- operations -----

  lemma BareOps(k: Bytes)
    ensures EncOp(Open, k) == [0, 0, 0, 0] + k
    ensures EncOp(Watch, k) == [11, 0, 0, 0] + k
  {
    TagBytes(0, k);
    TagBytes(11, k);
  }

  lemma LookupOps(p: Str, k: Bytes)
    ensures EncOp(Stat(p), k) == [1, 0, 0, 0] + (Text(p) + k)
    ensures EncOp(Mkdir(p), k) == [5, 0, 0, 0] + (Text(p) + k)
  {
    TextAt(p, k);
    TagBytes(1, Text(p) + k);
    TagBytes(5, Text(p) + k);
  }

  lemma MetadataOps(p: Str, k: Bytes)
    ensures EncOp(Meta(p), k) == [12, 0, 0, 0] + (Text(p) + k)
    ensures EncOp(Backlinks(p), k) == [16, 0, 0, 0] + (Text(p) + k)
    ensures EncOp(Versions(p), k) == [17, 0, 0, 0] + (Text(p) + k)
  {
    TextAt(p, k);
    TagBytes(12, Text(p) + k);
    TagBytes(16, Text(p) + k);
    TagBytes(17, Text(p) + k);
  }

  lemma TwoEndedOps(p: Str, q: Str, k: Bytes)
    ensures EncOp(Move(p, q), k) == [6, 0, 0, 0] + (Text(p) + (Text(q) + k))
    ensures EncOp(Copy(p, q), k) == [7, 0, 0, 0] + (Text(p) + (Text(q) + k))
  {
    TwoTexts(p, q, k);
    TagBytes(6, Text(p) + (Text(q) + k));
    TagBytes(7, Text(p) + (Text(q) + k));
  }

  lemma ListBytes(path: Str, after: Option<Str>, limit: u32, k: Bytes)
    ensures EncOp(List(path, after, limit), k) == [2, 0, 0, 0] + (Text(path) + (OptText(after) + (Le4(limit) + k)))
  {
    Number4(limit, k);
    OptTextAt(after, Le4(limit) + k);
    TextAt(path, OptText(after) + (Le4(limit) + k));
    TagBytes(2, Text(path) + (OptText(after) + (Le4(limit) + k)));
  }

  lemma ReadBytes(path: Str, offset: u64, len: Option<u64>, k: Bytes)
    ensures EncOp(Read(path, offset, len), k) == [3, 0, 0, 0] + (Text(path) + (Le8(offset) + (OptLe8(len) + k)))
  {
    OptNumberAt(len, k);
    Number8(offset, OptLe8(len) + k);
    TextAt(path, Le8(offset) + (OptLe8(len) + k));
    TagBytes(3, Text(path) + (Le8(offset) + (OptLe8(len) + k)));
  }

  lemma WriteBytes(path: Str, cid: Str, size: u64, etag: Option<Str>, k: Bytes)
    ensures EncOp(Write(path, cid, size, etag), k)
         == [4, 0, 0, 0] + (Text(path) + (Text(cid) + (Le8(size) + (OptText(etag) + k))))
  {
    OptTextAt(etag, k);
    Number8(size, OptText(etag) + k);
    TwoTexts(path, cid, Le8(size) + (OptText(etag) + k));
    TagBytes(4, Text(path) + (Text(cid) + (Le8(size) + (OptText(etag) + k))));
  }

  lemma DeleteBytes(path: Str, recursive: bool, k: Bytes)
    ensures EncOp(Delete(path, recursive), k) == [8, 0, 0, 0] + (Text(path) + (Flag(recursive) + k))
  {
    FlagAt(recursive, k);
    TextAt(path, Flag(recursive) + k);
    TagBytes(8, Text(path) + (Flag(recursive) + k));
  }

  lemma CaveatBytes(c: ShareCaveats, k: Bytes)
    ensures EncCaveats(c, k) == Le8(c.notAfter) + (OptLe8(c.maxBytesRead) + (OptLe8(c.maxBytesWrite) + k))
  {
    OptNumberAt(c.maxBytesWrite, k);
    OptNumberAt(c.maxBytesRead, OptLe8(c.maxBytesWrite) + k);
    Number8(c.notAfter, OptLe8(c.maxBytesRead) + (OptLe8(c.maxBytesWrite) + k));
  }

  lemma ShareBytes(path: Str, audience: Str, abilities: Vec<Str>, c: ShareCaveats, k: Bytes)
    ensures EncOp(Share(path, audience, abilities, c), k)
         == [9, 0, 0, 0] + (Text(path) + (Text(audience) + EncVec(EncStr, abilities, EncCaveats(c, k))))
  {
    var rest := EncVec(EncStr, abilities, EncCaveats(c, k));
    TwoTexts(path, audience, rest);
    TagBytes(9, Text(path) + (Text(audience) + rest));
  }

  lemma PollBytes(cursor: Option<u64>, limit: u32, k: Bytes)
    ensures EncOp(Poll(cursor, limit), k) == [10, 0, 0, 0] + (OptLe8(cursor) + (Le4(limit) + k))
  {
    Number4(limit, k);
    OptNumberAt(cursor, Le4(limit) + k);
    TagBytes(10, OptLe8(cursor) + (Le4(limit) + k));
  }

  lemma SetPropBytes(path: Str, key: Str, value: Option<Str>, k: Bytes)
    ensures EncOp(SetProp(path, key, value), k) == [13, 0, 0, 0] + (Text(path) + (Text(key) + (OptText(value) + k)))
  {
    OptTextAt(value, k);
    TwoTexts(path, key, OptText(value) + k);
    TagBytes(13, Text(path) + (Text(key) + (OptText(value) + k)));
  }

  lemma TagOpBytes(path: Str, tag: Str, remove: bool, k: Bytes)
    ensures EncOp(Tag(path, tag, remove), k) == [14, 0, 0, 0] + (Text(path) + (Text(tag) + (Flag(remove) + k)))
  {
    FlagAt(remove, k);
    TwoTexts(path, tag, Flag(remove) + k);
    TagBytes(14, Text(path) + (Text(tag) + (Flag(remove) + k)));
  }

  lemma LinkBytes(path: Str, rel: Str, target: Str, remove: bool, k: Bytes)
    ensures EncOp(Link(path, rel, target, remove), k)
         == [15, 0, 0, 0] + (Text(path) + (Text(rel) + (Text(target) + (Flag(remove) + k))))
  {
    FlagAt(remove, k);
    TextAt(target, Flag(remove) + k);
    TwoTexts(path, rel, Text(target) + (Flag(remove) + k));
    TagBytes(15, Text(path) + (Text(rel) + (Text(target) + (Flag(remove) + k))));
  }

  /** A request is the drive, the capability and the operation. */
  lemma RequestBytes(drive: Str, cap: Str, op: DriveOp<Str>, k: Bytes)
    ensures EncReq(DriveReq(drive, cap, op), k) == Text(drive) + (Text(cap) + EncOp(op, k))
  {
    TwoTexts(drive, cap, EncOp(op, k));
  }

  /** A list is its items, the first one first. */
  lemma {:induction false} ItemsInOrder<T>(enc: (T, Bytes) -> Bytes, xs: seq<T>, ys: seq<T>, k: Bytes)
    ensures EncAll(enc, xs + ys, k) == EncAll(enc, xs, EncAll(enc, ys, k))
    ensures |xs| == 1 ==> EncAll(enc, xs, k) == enc(xs[0], k)
  {
    if xs == [] {
      assert xs + ys == ys;
    } else {
      ItemsInOrder(enc, xs[1..], ys, k);
      assert (xs + ys)[1..] == xs[1..] + ys;
    }
  }

  // ----- what replies hold -----

  lemma EntryBytes(e: Entry<Str>, k: Bytes)
    ensures var kind := if e.kind.File? then [0, 0, 0, 0] else [1, 0, 0, 0];
            EncEntry(e, k) == Text(e.path) + (kind + (Le8(e.size) + (Le8(e.mtimeMs) + (Text(e.etag) + (Text(e.nodeId)
                              + (OptText(e.objectCid) + (OptText(e.docId) + k)))))))
  {
    OptTextAt(e.docId, k);
    OptTextAt(e.objectCid, OptText(e.docId) + k);
    var cids := OptText(e.objectCid) + (OptText(e.docId) + k);
    TwoTexts(e.etag, e.nodeId, cids);
    var names := Text(e.etag) + (Text(e.nodeId) + cids);
    Number8(e.mtimeMs, names);
    Number8(e.size, Le8(e.mtimeMs) + names);
    TagBytes(if e.kind.File? then 0 else 1, Le8(e.size) + (Le8(e.mtimeMs) + names));
    TextAt(e.path, EncKind(e.kind, Le8(e.size) + (Le8(e.mtimeMs) + names)));
  }

  lemma ChunkBytes(c: ChunkRef<Str>, k: Bytes)
    ensures EncChunk(c, k) == Text(c.cid) + (Le8(c.offset) + (Le8(c.len) + k))
  {
    Number8(c.len, k);
    Number8(c.offset, Le8(c.len) + k);
    TextAt(c.cid, Le8(c.offset) + (Le8(c.len) + k));
  }

  lemma PlanBytes(p: ReadPlan<Str>, k: Bytes)
    ensures EncPlan(p, k) == Text(p.objectCid) + (Le8(p.totalSize) + (Le8(p.chunkSize)
            + EncVec(EncChunk, p.chunks, Flag(p.encrypted) + (OptText(p.keyHint) + k))))
  {
    OptTextAt(p.keyHint, k);
    FlagAt(p.encrypted, OptText(p.keyHint) + k);
    var rest := EncVec(EncChunk, p.chunks, Flag(p.encrypted) + (OptText(p.keyHint) + k));
    Number8(p.chunkSize, rest);
    Number8(p.totalSize, Le8(p.chunkSize) + rest);
    TextAt(p.objectCid, Le8(p.totalSize) + (Le8(p.chunkSize) + rest));
  }

  lemma KindBytes(origin: Str, k: Bytes)
    ensures EncChangeKind(Created, k) == [0, 0, 0, 0] + k
    ensures EncChangeKind(Modified, k) == [1, 0, 0, 0] + k
    ensures EncChangeKind(Deleted, k) == [2, 0, 0, 0] + k
    ensures EncChangeKind(Moved(origin), k) == [3, 0, 0, 0] + (Text(origin) + k)
  {
    TagBytes(0, k);
    TagBytes(1, k);
    TagBytes(2, k);
    TextAt(origin, k);
    TagBytes(3, Text(origin) + k);
  }

  lemma ChangeBytes(c: Change<Str>, k: Bytes)
    ensures EncChange(c, k)
         == Le8(c.seqNo) + (Text(c.path) + (Text(c.nodeId) + EncChangeKind(c.kind, Text(c.etag) + k)))
  {
    TextAt(c.etag, k);
    var rest := EncChangeKind(c.kind, Text(c.etag) + k);
    TwoTexts(c.path, c.nodeId, rest);
    Number8(c.seqNo, Text(c.path) + (Text(c.nodeId) + rest));
  }

  lemma QuotaBytes(q: Quota<Str>, k: Bytes)
    ensures EncQuota(q, k) == Text(q.pricePerGibMonth) + (Text(q.pricePerGibEgress)
                              + (Le8(q.freeTierBytes) + (Flag(q.channelRequired) + k)))
  {
    FlagAt(q.channelRequired, k);
    Number8(q.freeTierBytes, Flag(q.channelRequired) + k);
    TwoTexts(q.pricePerGibMonth, q.pricePerGibEgress, Le8(q.freeTierBytes) + (Flag(q.channelRequired) + k));
  }

  lemma VersionBytes(v: VersionInfo<Str>, k: Bytes)
    ensures EncVersion(v, k) == Le8(v.setAtMs) + (Text(v.locator) + (Le8(v.size) + (Flag(v.conflict) + k)))
  {
    FlagAt(v.conflict, k);
    Number8(v.size, Flag(v.conflict) + k);
    TextAt(v.locator, Le8(v.size) + (Flag(v.conflict) + k));
    Number8(v.setAtMs, Text(v.locator) + (Le8(v.size) + (Flag(v.conflict) + k)));
  }

  lemma PairBytes(p: (Str, Str), k: Bytes)
    ensures EncPair(p, k) == Text(p.0) + (Text(p.1) + k)
  {
    TwoTexts(p.0, p.1, k);
  }

  // ----- replies -----

  lemma OpenedBytes(root: Str, seqNo: u64, abilities: Vec<Str>, quota: Quota<Str>, k: Bytes)
    ensures EncOk(Opened(root, seqNo, abilities, quota), k)
         == [0, 0, 0, 0] + (Text(root) + (Le8(seqNo) + EncVec(EncStr, abilities, EncQuota(quota, k))))
  {
    var rest := EncVec(EncStr, abilities, EncQuota(quota, k));
    Number8(seqNo, rest);
    TextAt(root, Le8(seqNo) + rest);
    TagBytes(0, Text(root) + (Le8(seqNo) + rest));
  }

  lemma ListingBytes(es: Vec<Entry<Str>>, next: Option<Str>, k: Bytes)
    ensures EncOk(Listing(es, next), k) == [2, 0, 0, 0] + EncVec(EncEntry, es, OptText(next) + k)
  {
    OptTextAt(next, k);
    TagBytes(2, EncVec(EncEntry, es, OptText(next) + k));
  }

  lemma ChangesBytes(cs: Vec<Change<Str>>, cursor: u64, k: Bytes)
    ensures EncOk(Changes(cs, cursor), k) == [8, 0, 0, 0] + EncVec(EncChange, cs, Le8(cursor) + k)
  {
    Number8(cursor, k);
    TagBytes(8, EncVec(EncChange, cs, Le8(cursor) + k));
  }

  lemma MetaBytes(node: Str, props: Vec<(Str, Str)>, tags: Vec<Str>, links: Vec<(Str, Str)>, k: Bytes)
    ensures EncOk(MetaOk(node, props, tags, links), k)
         == [10, 0, 0, 0] + (Text(node) + EncVec(EncPair, props, EncVec(EncStr, tags, EncVec(EncPair, links, k))))
  {
    var rest := EncVec(EncPair, props, EncVec(EncStr, tags, EncVec(EncPair, links, k)));
    TextAt(node, rest);
    TagBytes(10, Text(node) + rest);
  }

  lemma PairListBytes(ps: Vec<(Str, Str)>, vs: Vec<VersionInfo<Str>>, k: Bytes)
    ensures EncOk(BacklinksOk(ps), k) == [11, 0, 0, 0] + EncVec(EncPair, ps, k)
    ensures EncOk(VersionsOk(vs), k) == [12, 0, 0, 0] + EncVec(EncVersion, vs, k)
  {
    TagBytes(11, EncVec(EncPair, ps, k));
    TagBytes(12, EncVec(EncVersion, vs, k));
  }

  lemma EntryReplyBytes(e: Entry<Str>, p: ReadPlan<Str>, k: Bytes)
    ensures EncOk(EntryOk(e), k) == [1, 0, 0, 0] + EncEntry(e, k)
    ensures EncOk(PlanOk(p), k) == [3, 0, 0, 0] + EncPlan(p, k)
  {
    TagBytes(1, EncEntry(e, k));
    TagBytes(3, EncPlan(p, k));
  }

  lemma NumberedReplyBytes(s: Str, t: Str, v: u64, k: Bytes)
    ensures EncOk(Written(s, t, v), k) == [4, 0, 0, 0] + (Text(s) + (Text(t) + (Le8(v) + k)))
    ensures EncOk(Watching(s, v), k) == [9, 0, 0, 0] + (Text(s) + (Le8(v) + k))
  {
    Number8(v, k);
    TwoTexts(s, t, Le8(v) + k);
    TagBytes(4, Text(s) + (Text(t) + (Le8(v) + k)));
    TextAt(s, Le8(v) + k);
    TagBytes(9, Text(s) + (Le8(v) + k));
  }

  lemma SmallReplyBytes(s: Str, k: Bytes)
    ensures EncOk(Made(s), k) == [5, 0, 0, 0] + (Text(s) + k)
    ensures EncOk(DeletedOk, k) == [6, 0, 0, 0] + k
    ensures EncOk(Shared(s), k) == [7, 0, 0, 0] + (Text(s) + k)
  {
    TextAt(s, k);
    TagBytes(5, Text(s) + k);
    TagBytes(6, k);
    TagBytes(7, Text(s) + k);
  }

  lemma BareErrors(k: Bytes)
    ensures EncErr(Unauthorized, k) == [0, 0, 0, 0] + k
    ensures EncErr(Revoked, k) == [1, 0, 0, 0] + k
    ensures EncErr(Expired, k) == [2, 0, 0, 0] + k
    ensures EncErr(OutOfScope, k) == [3, 0, 0, 0] + k
    ensures EncErr(NotFound, k) == [4, 0, 0, 0] + k
    ensures EncErr(QuotaExceeded, k) == [6, 0, 0, 0] + k
    ensures EncErr(PaymentRequired, k) == [7, 0, 0, 0] + k
    ensures EncErr(BadPath, k) == [8, 0, 0, 0] + k
  {
    TagBytes(0, k);
    TagBytes(1, k);
    TagBytes(2, k);
    TagBytes(3, k);
    TagBytes(4, k);
    TagBytes(6, k);
    TagBytes(7, k);
    TagBytes(8, k);
  }

  lemma TextErrors(s: Str, k: Bytes)
    ensures EncErr(Conflict(s), k) == [5, 0, 0, 0] + (Text(s) + k)
    ensures EncErr(Internal(s), k) == [9, 0, 0, 0] + (Text(s) + k)
  {
    TextAt(s, k);
    TagBytes(5, Text(s) + k);
    TagBytes(9, Text(s) + k);
  }

  /** Success is tag 0 and failure tag 1. */
  lemma ReplyBytes(r: Result<DriveOk<Str>, DriveErr<Str>>, k: Bytes)
    ensures EncReply(r, k) == match r
                              case Success(ok) => [0, 0, 0, 0] + EncOk(ok, k)
                              case Failure(e) => [1, 0, 0, 0] + EncErr(e, k)
  {
    match r
    case Success(ok) => TagBytes(0, EncOk(ok, k));
    case Failure(e) => TagBytes(1, EncErr(e, k));
  }
}
