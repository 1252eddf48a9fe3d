/**
 The bincode 1.x grammar of the `ce-drive/v1` messages: what the SDK prints and the host parses
 (requests), and what the host prints and the SDKs parse (replies).

 A printer `EncX(x, k)` gives the bytes of `x` followed by `k`; a parser takes the bytes still to be
 read and gives a value and the bytes left over.
 */
module Wire {
  import opened Wrappers
  import opened WireTypes

  type Bytes = seq<u8>
  type Str = Vec<u8>

  /** Who is reading. bincode in the host accepts only canonical flags; the SDKs take any non-zero
      byte for true, and differ from each other on entry kinds. */
  datatype Reader = Host | Python | JavaScript

  datatype Parse<+T> = Done(value: T, rest: Bytes) | Stuck {
    predicate IsFailure() {
      Stuck?
    }

    function PropagateFailure<U>(): Parse<U>
      requires Stuck?
    {
      Stuck
    }

    function Extract(): (T, Bytes)
      requires Done?
    {
      (value, rest)
    }
  }

  // ----- printing -----

  function Pow256(n: nat): nat {
    if n == 0 then 1 else 256 * Pow256(n - 1)
  }

  /** `n` bytes, least significant first. */
  function EncInt(n: nat, v: nat, k: Bytes): Bytes {
    if n == 0 then k else [v % 256] + EncInt(n - 1, v / 256, k)
  }

  function EncU8(v: u8, k: Bytes): Bytes { EncInt(1, v, k) }
  function EncU32(v: u32, k: Bytes): Bytes { EncInt(4, v, k) }
  function EncU64(v: u64, k: Bytes): Bytes { EncInt(8, v, k) }
  function EncBool(v: bool, k: Bytes): Bytes { EncU8(if v then 1 else 0, k) }
  function EncStr(s: Str, k: Bytes): Bytes { EncU64(|s|, s + k) }

  function EncOpt<T>(enc: (T, Bytes) -> Bytes, o: Option<T>, k: Bytes): Bytes {
    match o
    case None => EncU8(0, k)
    case Some(x) => EncU8(1, enc(x, k))
  }

  function EncOptU64(o: Option<u64>, k: Bytes): Bytes { EncOpt(EncU64, o, k) }
  function EncOptStr(o: Option<Str>, k: Bytes): Bytes { EncOpt(EncStr, o, k) }

  function EncAll<T>(enc: (T, Bytes) -> Bytes, xs: seq<T>, k: Bytes): Bytes {
    if xs == [] then k else enc(xs[0], EncAll(enc, xs[1..], k))
  }

  function EncVec<T>(enc: (T, Bytes) -> Bytes, xs: Vec<T>, k: Bytes): Bytes {
    EncU64(|xs|, EncAll(enc, xs, k))
  }

  function EncPair(p: (Str, Str), k: Bytes): Bytes {
    EncStr(p.0, EncStr(p.1, k))
  }

  function EncCaveats(c: ShareCaveats, k: Bytes): Bytes {
    EncU64(c.notAfter, EncOptU64(c.maxBytesRead, EncOptU64(c.maxBytesWrite, k)))
  }

  function EncOp(op: DriveOp<Str>, k: Bytes): Bytes {
    match op
    case Open => EncU32(0, k)
    case Stat(path) => EncU32(1, EncStr(path, k))
    case List(path, after, limit) => EncU32(2, EncStr(path, EncOptStr(after, EncU32(limit, k))))
    case Read(path, offset, len) => EncU32(3, EncStr(path, EncU64(offset, EncOptU64(len, k))))
    case Write(path, cid, size, etag) => EncU32(4, EncStr(path, EncStr(cid, EncU64(size, EncOptStr(etag, k)))))
    case Mkdir(path) => EncU32(5, EncStr(path, k))
    case Move(src, dst) => EncU32(6, EncStr(src, EncStr(dst, k)))
    case Copy(src, dst) => EncU32(7, EncStr(src, EncStr(dst, k)))
    case Delete(path, recursive) => EncU32(8, EncStr(path, EncBool(recursive, k)))
    case Share(path, audience, abilities, caveats) =>
      EncU32(9, EncStr(path, EncStr(audience, EncVec(EncStr, abilities, EncCaveats(caveats, k)))))
    case Poll(cursor, limit) => EncU32(10, EncOptU64(cursor, EncU32(limit, k)))
    case Watch => EncU32(11, k)
    case Meta(path) => EncU32(12, EncStr(path, k))
    case SetProp(path, key, value) => EncU32(13, EncStr(path, EncStr(key, EncOptStr(value, k))))
    case Tag(path, tag, remove) => EncU32(14, EncStr(path, EncStr(tag, EncBool(remove, k))))
    case Link(path, rel, target, remove) =>
      EncU32(15, EncStr(path, EncStr(rel, EncStr(target, EncBool(remove, k)))))
    case Backlinks(target) => EncU32(16, EncStr(target, k))
    case Versions(path) => EncU32(17, EncStr(path, k))
  }

  function EncReq(r: DriveReq<Str>, k: Bytes): Bytes {
    EncStr(r.drive, EncStr(r.cap, EncOp(r.op, k)))
  }

  function EncKind(kind: EntryKind, k: Bytes): Bytes {
    EncU32(if kind == Dir then 1 else 0, k)
  }

  function EncEntry(e: Entry<Str>, k: Bytes): Bytes {
    EncStr(e.path, EncKind(e.kind, EncU64(e.size, EncU64(e.mtimeMs, EncStr(e.etag, EncStr(e.nodeId,
      EncOptStr(e.objectCid, EncOptStr(e.docId, k))))))))
  }

  function EncChunk(c: ChunkRef<Str>, k: Bytes): Bytes {
    EncStr(c.cid, EncU64(c.offset, EncU64(c.len, k)))
  }

  function EncPlan(p: ReadPlan<Str>, k: Bytes): Bytes {
    EncStr(p.objectCid, EncU64(p.totalSize, EncU64(p.chunkSize,
      EncVec(EncChunk, p.chunks, EncBool(p.encrypted, EncOptStr(p.keyHint, k))))))
  }

  function EncChangeKind(kind: ChangeKind<Str>, k: Bytes): Bytes {
    match kind
    case Created => EncU32(0, k)
    case Modified => EncU32(1, k)
    case Deleted => EncU32(2, k)
    case Moved(origin) => EncU32(3, EncStr(origin, k))
    case Unrecognised => EncU32(4, k)
  }

  function EncChange(c: Change<Str>, k: Bytes): Bytes {
    EncU64(c.seqNo, EncStr(c.path, EncStr(c.nodeId, EncChangeKind(c.kind, EncStr(c.etag, k)))))
  }

  function EncQuota(q: Quota<Str>, k: Bytes): Bytes {
    EncStr(q.pricePerGibMonth, EncStr(q.pricePerGibEgress, EncU64(q.freeTierBytes, EncBool(q.channelRequired, k))))
  }

  function EncVersion(v: VersionInfo<Str>, k: Bytes): Bytes {
    EncU64(v.setAtMs, EncStr(v.locator, EncU64(v.size, EncBool(v.conflict, k))))
  }

  function EncOk(ok: DriveOk<Str>, k: Bytes): Bytes {
    match ok
    case Opened(root, seqNo, abilities, quota) =>
      EncU32(0, EncStr(root, EncU64(seqNo, EncVec(EncStr, abilities, EncQuota(quota, k)))))
    case EntryOk(entry) => EncU32(1, EncEntry(entry, k))
    case Listing(entries, next) => EncU32(2, EncVec(EncEntry, entries, EncOptStr(next, k)))
    case PlanOk(plan) => EncU32(3, EncPlan(plan, k))
    case Written(etag, node, version) => EncU32(4, EncStr(etag, EncStr(node, EncU64(version, k))))
    case Made(node) => EncU32(5, EncStr(node, k))
    case DeletedOk => EncU32(6, k)
    case Shared(chain) => EncU32(7, EncStr(chain, k))
    case Changes(changes, cursor) => EncU32(8, EncVec(EncChange, changes, EncU64(cursor, k)))
    case Watching(topic, cursor) => EncU32(9, EncStr(topic, EncU64(cursor, k)))
    case MetaOk(node, props, tags, links) =>
      EncU32(10, EncStr(node, EncVec(EncPair, props, EncVec(EncStr, tags, EncVec(EncPair, links, k)))))
    case BacklinksOk(sources) => EncU32(11, EncVec(EncPair, sources, k))
    case VersionsOk(versions) => EncU32(12, EncVec(EncVersion, versions, k))
  }

  function EncErr(e: DriveErr<Str>, k: Bytes): Bytes {
    match e
    case Unauthorized => EncU32(0, k)
    case Revoked => EncU32(1, k)
    case Expired => EncU32(2, k)
    case OutOfScope => EncU32(3, k)
    case NotFound => EncU32(4, k)
    case Conflict(etag) => EncU32(5, EncStr(etag, k))
    case QuotaExceeded => EncU32(6, k)
    case PaymentRequired => EncU32(7, k)
    case BadPath => EncU32(8, k)
    case Internal(reason) => EncU32(9, EncStr(reason, k))
  }

  function EncReply(r: Result<DriveOk<Str>, DriveErr<Str>>, k: Bytes): Bytes {
    match r
    case Success(ok) => EncU32(0, EncOk(ok, k))
    case Failure(err) => EncU32(1, EncErr(err, k))
  }

  // ----- parsing -----

  function ParseInt(n: nat, s: Bytes): (r: Parse<nat>)
    ensures r.Done? ==> r.value < Pow256(n)
  {
    if n == 0 then Done(0, s)
    else if s == [] then Stuck
    else
      var (v, t) :- ParseInt(n - 1, s[1..]);
      Done(s[0] + 256 * v, t)
  }

  lemma Widths()
    ensures Pow256(1) == 256 && Pow256(4) == TWO_32 && Pow256(8) == TWO_64
  {
    assert Pow256(2) == 0x1_0000 && Pow256(3) == 0x100_0000;
    assert Pow256(5) == 0x100_0000_0000 && Pow256(6) == 0x1_0000_0000_0000;
  }

  function ParseU8(s: Bytes): Parse<u8> {
    var (v, t) :- ParseInt(1, s);
    Widths(); Done(v, t)
  }

  function ParseU32(s: Bytes): Parse<u32> {
    var (v, t) :- ParseInt(4, s);
    Widths(); Done(v, t)
  }

  function ParseU64(s: Bytes): Parse<u64> {
    var (v, t) :- ParseInt(8, s);
    Widths(); Done(v, t)
  }

  /** A flag byte: a bool, or the tag of an option. */
  function ParseFlag(rd: Reader, s: Bytes): Parse<bool> {
    var (b, t) :- ParseU8(s);
    if rd.Host? && b > 1 then Stuck else Done(b != 0, t)
  }

  function ParseStr(s: Bytes): Parse<Str> {
    var (n, t) :- ParseU64(s);
    if n > |t| then Stuck else Done(t[..n], t[n..])
  }

  function ParseOpt<T>(rd: Reader, p: Bytes -> Parse<T>, s: Bytes): Parse<Option<T>> {
    var (some, t) :- ParseFlag(rd, s);
    if some then
      var (x, u) :- p(t);
      Done(Some(x), u)
    else Done(None, t)
  }

  function ParseOptU64(rd: Reader, s: Bytes): Parse<Option<u64>> { ParseOpt(rd, ParseU64, s) }
  function ParseOptStr(rd: Reader, s: Bytes): Parse<Option<Str>> { ParseOpt(rd, ParseStr, s) }

  function ParseMany<T>(p: Bytes -> Parse<T>, n: nat, s: Bytes): (r: Parse<seq<T>>)
    ensures r.Done? ==> |r.value| == n
  {
    if n == 0 then Done([], s)
    else
      var (x, t) :- p(s);
      var (xs, u) :- ParseMany(p, n - 1, t);
      Done([x] + xs, u)
  }

  function ParseVec<T>(p: Bytes -> Parse<T>, s: Bytes): Parse<Vec<T>> {
    var (n, t) :- ParseU64(s);
    match ParseMany(p, n, t)
    case Stuck => Stuck
    case Done(xs, u) => Done(xs, u)
  }

  function ParsePair(s: Bytes): Parse<(Str, Str)> {
    var (a, t) :- ParseStr(s);
    var (b, u) :- ParseStr(t);
    Done((a, b), u)
  }

  function ParseCaveats(rd: Reader, s: Bytes): Parse<ShareCaveats> {
    var (notAfter, t) :- ParseU64(s);
    var (maxRead, u) :- ParseOptU64(rd, t);
    var (maxWrite, w) :- ParseOptU64(rd, u);
    Done(ShareCaveats(notAfter, maxRead, maxWrite), w)
  }

  function ParseOp(s: Bytes): Parse<DriveOp<Str>> {
    var (v, t) :- ParseU32(s);
    if v == 0 then Done(Open, t)
    else if v == 11 then Done(Watch, t)
    else if v == 10 then
      var (cursor, u) :- ParseOptU64(Host, t);
      var (limit, w) :- ParseU32(u);
      Done(Poll(cursor, limit), w)
    else if v > 17 then Stuck
    else
      var (path, u) :- ParseStr(t);
      if v == 1 then Done(Stat(path), u)
      else if v == 5 then Done(Mkdir(path), u)
      else if v == 12 then Done(Meta(path), u)
      else if v == 16 then Done(Backlinks(path), u)
      else if v == 17 then Done(Versions(path), u)
      else ParseWide(v, path, u)
  }

  /** The operations with more than one field, after their first string. */
  function ParseWide(v: u32, path: Str, s: Bytes): Parse<DriveOp<Str>> {
    if v == 2 then
      var (after, t) :- ParseOptStr(Host, s);
      var (limit, u) :- ParseU32(t);
      Done(List(path, after, limit), u)
    else if v == 3 then
      var (offset, t) :- ParseU64(s);
      var (len, u) :- ParseOptU64(Host, t);
      Done(Read(path, offset, len), u)
    else if v == 8 then
      var (recursive, t) :- ParseFlag(Host, s);
      Done(Delete(path, recursive), t)
    else
      var (second, t) :- ParseStr(s);
      ParseLong(v, path, second, t)
  }

  /** ... and after their second. */
  function ParseLong(v: u32, path: Str, second: Str, s: Bytes): Parse<DriveOp<Str>> {
    if v == 4 then
      var (size, t) :- ParseU64(s);
      var (etag, u) :- ParseOptStr(Host, t);
      Done(Write(path, second, size, etag), u)
    else if v == 6 then Done(Move(path, second), s)
    else if v == 7 then Done(Copy(path, second), s)
    else if v == 9 then
      var (abilities, t) :- ParseVec(ParseStr, s);
      var (caveats, u) :- ParseCaveats(Host, t);
      Done(Share(path, second, abilities, caveats), u)
    else if v == 13 then
      var (value, t) :- ParseOptStr(Host, s);
      Done(SetProp(path, second, value), t)
    else if v == 14 then
      var (remove, t) :- ParseFlag(Host, s);
      Done(Tag(path, second, remove), t)
    else if v == 15 then
      var (target, t) :- ParseStr(s);
      var (remove, u) :- ParseFlag(Host, t);
      Done(Link(path, second, target, remove), u)
    else Stuck
  }

  /** `decode_req` (bytes after the request are tolerated). */
  function ParseReq(s: Bytes): Parse<DriveReq<Str>> {
    var (drive, t) :- ParseStr(s);
    var (cap, u) :- ParseStr(t);
    var (op, w) :- ParseOp(u);
    Done(DriveReq(drive, cap, op), w)
  }

  function ParseKind(rd: Reader, s: Bytes): Parse<EntryKind> {
    var (v, t) :- ParseU32(s);
    match rd
    case Host => if v > 1 then Stuck else Done(if v == 1 then Dir else File, t)
    case Python => Done(if v != 0 then Dir else File, t)
    case JavaScript => Done(if v == 1 then Dir else File, t)
  }

  function ParseEntry(rd: Reader, s: Bytes): Parse<Entry<Str>> {
    var (path, s1) :- ParseStr(s);
    var (kind, s2) :- ParseKind(rd, s1);
    var (size, s3) :- ParseU64(s2);
    var (mtime, s4) :- ParseU64(s3);
    var (etag, s5) :- ParseStr(s4);
    var (node, s6) :- ParseStr(s5);
    var (cid, s7) :- ParseOptStr(rd, s6);
    var (doc, s8) :- ParseOptStr(rd, s7);
    Done(Entry(path, kind, size, mtime, etag, node, cid, doc), s8)
  }

  function EntryParser(rd: Reader): Bytes -> Parse<Entry<Str>> {
    s => ParseEntry(rd, s)
  }

  function ParseChunk(s: Bytes): Parse<ChunkRef<Str>> {
    var (cid, t) :- ParseStr(s);
    var (offset, u) :- ParseU64(t);
    var (len, w) :- ParseU64(u);
    Done(ChunkRef(cid, offset, len), w)
  }

  function ParsePlan(rd: Reader, s: Bytes): Parse<ReadPlan<Str>> {
    var (cid, s1) :- ParseStr(s);
    var (total, s2) :- ParseU64(s1);
    var (chunkSize, s3) :- ParseU64(s2);
    var (chunks, s4) :- ParseVec(ParseChunk, s3);
    var (encrypted, s5) :- ParseFlag(rd, s4);
    var (hint, s6) :- ParseOptStr(rd, s5);
    Done(ReadPlan(cid, total, chunkSize, chunks, encrypted, hint), s6)
  }

  function ParseChangeKind(rd: Reader, s: Bytes): Parse<ChangeKind<Str>> {
    var (v, t) :- ParseU32(s);
    if v == 0 then Done(Created, t)
    else if v == 1 then Done(Modified, t)
    else if v == 2 then Done(Deleted, t)
    else if v == 3 then
      var (origin, u) :- ParseStr(t);
      Done(Moved(origin), u)
    else if rd.Host? then Stuck
    else Done(Unrecognised, t)
  }

  function ParseChange(rd: Reader, s: Bytes): Parse<Change<Str>> {
    var (seqNo, s1) :- ParseU64(s);
    var (path, s2) :- ParseStr(s1);
    var (node, s3) :- ParseStr(s2);
    var (kind, s4) :- ParseChangeKind(rd, s3);
    var (etag, s5) :- ParseStr(s4);
    Done(Change(seqNo, path, node, kind, etag), s5)
  }

  function ChangeParser(rd: Reader): Bytes -> Parse<Change<Str>> {
    (s: Bytes) => ParseChange(rd, s)
  }

  function ParseQuota(rd: Reader, s: Bytes): Parse<Quota<Str>> {
    var (month, s1) :- ParseStr(s);
    var (egress, s2) :- ParseStr(s1);
    var (free, s3) :- ParseU64(s2);
    var (channel, s4) :- ParseFlag(rd, s3);
    Done(Quota(month, egress, free, channel), s4)
  }

  function ParseVersion(rd: Reader, s: Bytes): Parse<VersionInfo<Str>> {
    var (setAt, s1) :- ParseU64(s);
    var (locator, s2) :- ParseStr(s1);
    var (size, s3) :- ParseU64(s2);
    var (conflict, s4) :- ParseFlag(rd, s3);
    Done(VersionInfo(setAt, locator, size, conflict), s4)
  }

  function VersionParser(rd: Reader): Bytes -> Parse<VersionInfo<Str>> {
    (s: Bytes) => ParseVersion(rd, s)
  }

  function ParseOk(rd: Reader, s: Bytes): Parse<DriveOk<Str>> {
    var (v, t) :- ParseU32(s);
    if v == 0 then
      var (root, s1) :- ParseStr(t);
      var (seqNo, s2) :- ParseU64(s1);
      var (abilities, s3) :- ParseVec(ParseStr, s2);
      var (quota, s4) :- ParseQuota(rd, s3);
      Done(Opened(root, seqNo, abilities, quota), s4)
    else if v == 1 then
      var (entry, u) :- ParseEntry(rd, t);
      Done(EntryOk(entry), u)
    else if v == 2 then
      var (entries, u) :- ParseVec(EntryParser(rd), t);
      var (next, w) :- ParseOptStr(rd, u);
      Done(Listing(entries, next), w)
    else if v == 3 then
      var (plan, u) :- ParsePlan(rd, t);
      Done(PlanOk(plan), u)
    else if v == 4 then
      var (etag, s1) :- ParseStr(t);
      var (node, s2) :- ParseStr(s1);
      var (version, s3) :- ParseU64(s2);
      Done(Written(etag, node, version), s3)
    else if v == 5 then
      var (node, u) :- ParseStr(t);
      Done(Made(node), u)
    else if v == 6 then Done(DeletedOk, t)
    else if v == 7 then
      var (chain, u) :- ParseStr(t);
      Done(Shared(chain), u)
    else if v == 8 then
      var (changes, u) :- ParseVec(ChangeParser(rd), t);
      var (cursor, w) :- ParseU64(u);
      Done(Changes(changes, cursor), w)
    else if v == 9 then
      var (topic, u) :- ParseStr(t);
      var (cursor, w) :- ParseU64(u);
      Done(Watching(topic, cursor), w)
    else if v == 10 then
      var (node, s1) :- ParseStr(t);
      var (props, s2) :- ParseVec(ParsePair, s1);
      var (tags, s3) :- ParseVec(ParseStr, s2);
      var (links, s4) :- ParseVec(ParsePair, s3);
      Done(MetaOk(node, props, tags, links), s4)
    else if v == 11 then
      var (sources, u) :- ParseVec(ParsePair, t);
      Done(BacklinksOk(sources), u)
    else if v == 12 then
      var (versions, u) :- ParseVec(VersionParser(rd), t);
      Done(VersionsOk(versions), u)
    else Stuck
  }

  /** What a client makes of a reply that parses. */
  datatype Seen = Okay(ok: DriveOk<Str>) | Refused(err: DriveErr<Str>) | RefusedUnknown

  function SeenOf(r: Result<DriveOk<Str>, DriveErr<Str>>): Seen {
    match r
    case Success(ok) => Okay(ok)
    case Failure(err) => Refused(err)
  }

  function ParseErr(rd: Reader, s: Bytes): Parse<Seen> {
    var (v, t) :- ParseU32(s);
    if v == 0 then Done(Refused(Unauthorized), t)
    else if v == 1 then Done(Refused(Revoked), t)
    else if v == 2 then Done(Refused(Expired), t)
    else if v == 3 then Done(Refused(OutOfScope), t)
    else if v == 4 then Done(Refused(NotFound), t)
    else if v == 5 then
      var (etag, u) :- ParseStr(t);
      Done(Refused(Conflict(etag)), u)
    else if v == 6 then Done(Refused(QuotaExceeded), t)
    else if v == 7 then Done(Refused(PaymentRequired), t)
    else if v == 8 then Done(Refused(BadPath), t)
    else if v == 9 then
      var (reason, u) :- ParseStr(t);
      Done(Refused(Internal(reason)), u)
    else if rd.Host? then Stuck
    else Done(RefusedUnknown, t)
  }

  /** `_dec_reply` / `decodeReply`: any tag but 0 is read as an error. */
  function ParseReply(rd: Reader, s: Bytes): Parse<Seen> {
    var (tag, t) :- ParseU32(s);
    if tag == 0 then
      var (ok, u) :- ParseOk(rd, t);
      Done(Okay(ok), u)
    else if rd.Host? && tag > 1 then Stuck
    else ParseErr(rd, t)
  }
}
