/**
 The bytes path: the SDK chunks and stores an object (`_put_object`), the host plans a ranged read over
 the manifest (`read_plan`), the SDK fetches the planned chunks, checks each against its CID and trims
 (`Drive.read`).

 The hash is an arbitrary function; what is claimed holds unless it collides.
 */
module ReadPath {
  import opened Math
  import opened Wrappers
  import opened WireTypes
  import Seqs

  type Bytes = seq<u8>
  type Cid = string
  type Plan = ReadPlan<Cid>

  datatype Manifest = Manifest(chunkSize: u64, totalSize: u64, chunks: Vec<Cid>)

  // ----- u64 arithmetic -----

  const U64_MAX: u64 := TWO_64 - 1

  function SaturatingAdd(a: u64, b: u64): u64 {
    if a + b > U64_MAX then U64_MAX else a + b
  }

  function SaturatingSub(a: u64, b: u64): u64 {
    if a < b then 0 else a - b
  }

  // Products and quotients by a variable are written as repeated addition and subtraction.

  function Times(k: nat, b: nat): nat {
    if k == 0 then 0 else Times(k - 1, b) + b
  }

  function FloorDiv(a: nat, b: nat): nat
    requires b > 0
  {
    if a < b then 0 else 1 + FloorDiv(a - b, b)
  }

  function CeilDiv(a: nat, b: nat): nat
    requires b > 0
  {
    if a == 0 then 0 else if a <= b then 1 else 1 + CeilDiv(a - b, b)
  }

  lemma {:induction false} TimesIsProduct(k: nat, b: nat)
    ensures Times(k, b) == k * b
  {
    if k > 0 { TimesIsProduct(k - 1, b); }
  }

  lemma {:induction false} MulMono(x: nat, y: nat, b: nat)
    requires x <= y
    ensures Times(x, b) <= Times(y, b)
  {
    if x < y { MulMono(x, y - 1, b); }
  }

  lemma {:induction false} FloorBound(k: nat, a: nat, b: nat)
    requires b > 0
    ensures FloorDiv(a, b) <= k <==> a < Times(k + 1, b)
  {
    if a < b {
      MulMono(1, k + 1, b);
      assert Times(1, b) == b;
    } else if k > 0 {
      FloorBound(k - 1, a - b, b);
    } else {
      assert Times(1, b) == b;
    }
  }

  lemma {:induction false} CeilBound(k: nat, a: nat, b: nat)
    requires b > 0
    ensures k < CeilDiv(a, b) <==> Times(k, b) < a
  {
    if a > b && k > 0 {
      CeilBound(k - 1, a - b, b);
    } else if k > 0 {
      MulMono(1, k, b);
      assert Times(1, b) == b;
    }
  }

  // ----- planning -----

  /** Where the requested range stops. */
  function RangeEnd(total: u64, offset: u64, len: Option<u64>): u64 {
    match len
    case Some(l) => Min(SaturatingAdd(offset, l), total)
    case None => total
  }

  /** Where chunk `k` starts in the object: every chunk is `chunkSize` long but the last. */
  function Start(m: Manifest, k: nat): u64 {
    Min(Times(k, m.chunkSize), m.totalSize)
  }

  /** Chunk `k`: its CID, where it starts and how long it is. */
  function Ref(m: Manifest, k: nat): ChunkRef<Cid>
    requires k < |m.chunks|
  {
    MulMono(k, k + 1, m.chunkSize);
    ChunkRef(m.chunks[k], Start(m, k), Start(m, k + 1) - Start(m, k))
  }

  /** Chunks `lo`, `lo + 1`, ... up to but not including `hi`. */
  function Refs(m: Manifest, lo: nat, hi: nat): (r: Vec<ChunkRef<Cid>>)
    requires hi <= |m.chunks|
    ensures |r| == if lo < hi then hi - lo else 0
    ensures forall k :: lo <= k < hi ==> r[k - lo] == Ref(m, k)
  {
    if lo >= hi then [] else Refs(m, lo, hi - 1) + [Ref(m, hi - 1)]
  }

  /** Index of the chunk that holds byte `offset`. */
  function FirstWanted(m: Manifest, offset: u64): nat {
    if m.chunkSize == 0 then 0 else FloorDiv(offset, m.chunkSize)
  }

  /** One past the index of the chunk that holds the byte before `end`. */
  function PastWanted(m: Manifest, end: u64): nat {
    if m.chunkSize == 0 then 0 else CeilDiv(end, m.chunkSize)
  }

  /** Chunk `k` holds at least one byte of `[offset, end)`. */
  predicate Meets(m: Manifest, k: nat, offset: u64, end: u64) {
    Start(m, k + 1) > offset && Start(m, k) < end
  }

  /** ... exactly when its index lies between the two. */
  lemma ChunkMeetsRange(m: Manifest, k: nat, offset: u64, end: u64)
    requires offset < end <= m.totalSize
    ensures Meets(m, k, offset, end) <==> FirstWanted(m, offset) <= k < PastWanted(m, end)
  {
    if m.chunkSize == 0 {
      TimesIsProduct(k, 0);
      TimesIsProduct(k + 1, 0);
    } else {
      FloorBound(k, offset, m.chunkSize);
      CeilBound(k, end, m.chunkSize);
    }
  }

  lemma StartStep(m: Manifest, k: nat)
    ensures Start(m, k + 1) == Start(m, k) + Min(m.chunkSize, SaturatingSub(m.totalSize, Start(m, k)))
  {
    assert Times(k + 1, m.chunkSize) == Times(k, m.chunkSize) + m.chunkSize;
  }

  /** The chunks from the one holding `offset` to the one holding the last wanted byte. */
  function Planned(m: Manifest, offset: u64, len: Option<u64>): Vec<ChunkRef<Cid>> {
    var end := RangeEnd(m.totalSize, offset, len);
    if offset >= end then [] else Refs(m, FirstWanted(m, offset), Min(|m.chunks|, PastWanted(m, end)))
  }

  // ----- the plan, said of bytes -----

  /** Chunk `k` of the object, said with products: its CID, its first byte and its length. */
  ghost predicate IsChunk(m: Manifest, k: nat, c: ChunkRef<Cid>)
    requires k < |m.chunks|
  {
    && c.cid == m.chunks[k] && c.offset == k * m.chunkSize
    && c.len == (if m.totalSize - k * m.chunkSize < m.chunkSize then m.totalSize - k * m.chunkSize else m.chunkSize)
  }

  /** Byte `i` of the object was asked for. */
  predicate Asked(m: Manifest, offset: u64, len: Option<u64>, i: nat) {
    offset <= i < m.totalSize && (len.Some? ==> i < offset + len.value)
  }

  /** Some byte of chunk `k` was asked for. */
  ghost predicate Wanted(m: Manifest, offset: u64, len: Option<u64>, k: nat) {
    exists i: nat :: k * m.chunkSize <= i < (k + 1) * m.chunkSize && Asked(m, offset, len, i)
  }

  /** The chunks from number `lo` on, and those are the listed ones with an asked-for byte. */
  ghost predicate WantedFrom(m: Manifest, offset: u64, len: Option<u64>, chunks: seq<ChunkRef<Cid>>, lo: nat) {
    && lo + |chunks| <= |m.chunks|
    && (forall j :: 0 <= j < |chunks| ==> IsChunk(m, lo + j, chunks[j]))
    && (forall k: nat :: k < |m.chunks| ==> (Wanted(m, offset, len, k) <==> lo <= k < lo + |chunks|))
  }

  /** Every listed chunk with an asked-for byte and no other, each once, in order. */
  ghost predicate ExactlyWanted(m: Manifest, offset: u64, len: Option<u64>, chunks: seq<ChunkRef<Cid>>) {
    exists lo: nat :: WantedFrom(m, offset, len, chunks, lo)
  }

  lemma AskedEnds(m: Manifest, offset: u64, len: Option<u64>, i: nat)
    ensures Asked(m, offset, len, i) <==> offset <= i < RangeEnd(m.totalSize, offset, len)
  {
  }

  lemma StartIsProduct(m: Manifest, k: nat)
    ensures Start(m, k) == if k * m.chunkSize < m.totalSize then k * m.chunkSize else m.totalSize
  {
    TimesIsProduct(k, m.chunkSize);
  }

  lemma RefIsChunk(m: Manifest, k: nat)
    requires k < |m.chunks| && Start(m, k) < m.totalSize
    ensures IsChunk(m, k, Ref(m, k))
  {
    StartStep(m, k);
    TimesIsProduct(k, m.chunkSize);
  }

  lemma WantedIffMeets(m: Manifest, offset: u64, len: Option<u64>, k: nat)
    ensures var end := RangeEnd(m.totalSize, offset, len);
            Wanted(m, offset, len, k) <==> offset < end && Meets(m, k, offset, end)
  {
    var end := RangeEnd(m.totalSize, offset, len);
    forall i: nat ensures Asked(m, offset, len, i) <==> offset <= i < end { AskedEnds(m, offset, len, i); }
    StartIsProduct(m, k);
    StartIsProduct(m, k + 1);
    assert (k + 1) * m.chunkSize == k * m.chunkSize + m.chunkSize;
    if offset < end && Meets(m, k, offset, end) {
      var i := if offset < k * m.chunkSize then k * m.chunkSize else offset;
      assert k * m.chunkSize <= i < (k + 1) * m.chunkSize && Asked(m, offset, len, i);
    }
  }

  lemma WantedIffListed(m: Manifest, offset: u64, len: Option<u64>, k: nat)
    ensures var end := RangeEnd(m.totalSize, offset, len);
            Wanted(m, offset, len, k) <==> offset < end && FirstWanted(m, offset) <= k < PastWanted(m, end)
  {
    var end := RangeEnd(m.totalSize, offset, len);
    WantedIffMeets(m, offset, len, k);
    if offset < end { ChunkMeetsRange(m, k, offset, end); }
  }

  lemma RefsAreChunks(m: Manifest, offset: u64, len: Option<u64>, lo: nat, hi: nat, j: nat)
    requires lo + j < hi <= |m.chunks| && Wanted(m, offset, len, lo + j)
    ensures IsChunk(m, lo + j, Refs(m, lo, hi)[j])
  {
    WantedIffMeets(m, offset, len, lo + j);
    RefIsChunk(m, lo + j);
    assert Refs(m, lo, hi)[lo + j - lo] == Ref(m, lo + j);
  }

  lemma PlannedIsExactlyWanted(m: Manifest, offset: u64, len: Option<u64>)
    ensures ExactlyWanted(m, offset, len, Planned(m, offset, len))
  {
    var end, chunks := RangeEnd(m.totalSize, offset, len), Planned(m, offset, len);
    var hi := Min(|m.chunks|, PastWanted(m, end));
    var lo := if chunks == [] then 0 else FirstWanted(m, offset);
    forall k: nat | k < |m.chunks|
      ensures Wanted(m, offset, len, k) <==> lo <= k < lo + |chunks|
    {
      WantedIffListed(m, offset, len, k);
    }
    forall j | 0 <= j < |chunks|
      ensures IsChunk(m, lo + j, chunks[j])
    {
      RefsAreChunks(m, offset, len, lo, hi, j);
    }
    assert WantedFrom(m, offset, len, chunks, lo);
  }

  /** The loop over the listed chunks: those with a byte in `[offset, end)`. The u64 types say that no step
      overflows. */
  method Intersecting(m: Manifest, offset: u64, end: u64) returns (chunks: seq<ChunkRef<Cid>>)
    requires offset < end <= m.totalSize
    ensures chunks == Refs(m, FirstWanted(m, offset), Min(|m.chunks|, PastWanted(m, end)))
  {
    chunks := [];
    var pos: u64 := 0;
    ghost var lo, hi := FirstWanted(m, offset), PastWanted(m, end);
    for k := 0 to |m.chunks|
      invariant pos == Start(m, k)
      invariant chunks == Refs(m, lo, Min(k, hi))
    {
      ChunkMeetsRange(m, k, offset, end);
      StartStep(m, k);
      var remaining: u64 := SaturatingSub(m.totalSize, pos);
      var thisLen: u64 := Min(m.chunkSize, remaining);
      var chunkStart: u64 := pos;
      var chunkEnd: u64 := pos + thisLen;
      if chunkEnd > offset && chunkStart < end {
        chunks := chunks + [ChunkRef(m.chunks[k], chunkStart, thisLen)];
      }
      pos := chunkEnd;
    }
  }

  /** `read_plan`: for any manifest, the plan is exactly the run of listed chunks from the one holding
      `offset` to the one holding the last wanted byte, that is, the listed chunks with a byte that was
      asked for. */
  method MakePlan(objectCid: Cid, m: Manifest, offset: u64, len: Option<u64>) returns (plan: Plan)
    ensures plan.objectCid == objectCid && plan.totalSize == m.totalSize && plan.chunkSize == m.chunkSize
    ensures !plan.encrypted && plan.keyHint == None
    ensures plan.chunks == Planned(m, offset, len)
    ensures ExactlyWanted(m, offset, len, plan.chunks)
    ensures len == Some(0) || offset >= m.totalSize ==> plan.chunks == []
  {
    var total := m.totalSize;
    var end: u64 := RangeEnd(total, offset, len);
    var chunks: seq<ChunkRef<Cid>> := [];
    if offset < end {
      chunks := Intersecting(m, offset, end);
    }
    PlannedIsExactlyWanted(m, offset, len);
    plan := ReadPlan(objectCid, total, m.chunkSize, chunks, false, None);
  }

  // ----- what the plan means -----

  /** The manifest lists as many chunks as the object has. */
  predicate WellFormed(m: Manifest) {
    m.chunkSize > 0 && |m.chunks| == CeilDiv(m.totalSize, m.chunkSize)
  }

  lemma PlanBounds(m: Manifest, offset: u64, end: u64)
    requires WellFormed(m) && offset < end <= m.totalSize
    ensures FirstWanted(m, offset) < PastWanted(m, end) <= |m.chunks|
    ensures Start(m, FirstWanted(m, offset)) <= offset && end <= Start(m, PastWanted(m, end))
  {
    var cs, lo, hi := m.chunkSize, FirstWanted(m, offset), PastWanted(m, end);
    if lo > 0 { FloorBound(lo - 1, offset, cs); }
    FloorBound(lo, offset, cs);
    CeilBound(hi, end, cs);
    CeilBound(lo, end, cs);
    CeilBound(hi - 1, end, cs);
    CeilBound(hi - 1, m.totalSize, cs);
  }

  /** For a well-formed manifest the planned chunks are non-empty, each starts where the one before
      ends, together they cover the range, and a chunk is planned exactly when it holds a wanted byte. */
  lemma PlanIsTight(m: Manifest, offset: u64, end: u64)
    requires WellFormed(m) && offset < end <= m.totalSize
    ensures var lo, hi := FirstWanted(m, offset), PastWanted(m, end);
            && lo < hi <= |m.chunks|
            && Start(m, lo) <= offset && end <= Start(m, hi)
            && (forall k :: lo <= k < hi ==> Ref(m, k).len > 0 && Ref(m, k).offset + Ref(m, k).len == Start(m, k + 1))
            && (forall k :: 0 <= k < |m.chunks| ==> (Meets(m, k, offset, end) <==> lo <= k < hi))
  {
    PlanBounds(m, offset, end);
    var lo, hi := FirstWanted(m, offset), PastWanted(m, end);
    forall k | lo <= k < hi
      ensures Ref(m, k).len > 0
    {
      ChunkMeetsRange(m, k, offset, end);
      StartStep(m, k);
    }
    forall k | 0 <= k < |m.chunks|
      ensures Meets(m, k, offset, end) <==> lo <= k < hi
    {
      ChunkMeetsRange(m, k, offset, end);
    }
  }

  // ----- storing and reading back -----

  ghost predicate Collides(hash: Bytes -> Cid) {
    exists a, b :: a != b && hash(a) == hash(b)
  }

  /** Bytes `[a * chunkSize, b * chunkSize)` of the data, as far as they exist. */
  function Stretch(data: Bytes, chunkSize: nat, a: nat, b: nat): Bytes
    requires a <= b
  {
    MulMono(a, b, chunkSize);
    data[Min(Times(a, chunkSize), |data|)..Min(Times(b, chunkSize), |data|)]
  }

  function ChunkAt(data: Bytes, chunkSize: nat, k: nat): Bytes {
    Stretch(data, chunkSize, k, k + 1)
  }

  /** The manifest is the one of `data`, chunk by chunk. */
  predicate Describes(hash: Bytes -> Cid, m: Manifest, data: Bytes) {
    && WellFormed(m) && m.totalSize == |data|
    && forall k :: 0 <= k < |m.chunks| ==> m.chunks[k] == hash(ChunkAt(data, m.chunkSize, k))
  }

  /** Every blob is filed under its hash. */
  predicate Addressed(hash: Bytes -> Cid, store: map<Cid, Bytes>) {
    forall c <- store :: c == hash(store[c])
  }

  /** The chunk loop of `_put_object`: post every chunk and list their CIDs. */
  method PutChunks(hash: Bytes -> Cid, data: Bytes, chunkSize: u64, store: map<Cid, Bytes>)
    returns (hashes: Vec<Cid>, grown: map<Cid, Bytes>)
    requires chunkSize > 0 && |data| < TWO_64
    ensures Describes(hash, Manifest(chunkSize, |data|, hashes), data)
    ensures store.Keys <= grown.Keys && forall c <- hashes :: c in grown
    ensures forall c <- grown.Keys - store.Keys :: c == hash(grown[c])
    ensures forall c <- store :: grown[c] == store[c] || c == hash(grown[c])
    ensures Addressed(hash, store) ==> Addressed(hash, grown)
  {
    var listed: seq<Cid> := [];
    grown := store;
    var off := 0;
    CeilBound(0, |data|, chunkSize);
    while off < |data|
      invariant off == Times(|listed|, chunkSize)
      invariant |listed| <= CeilDiv(|data|, chunkSize)
      invariant store.Keys <= grown.Keys
      invariant forall k :: 0 <= k < |listed| ==> listed[k] == hash(ChunkAt(data, chunkSize, k)) && listed[k] in grown
      invariant forall c <- grown.Keys - store.Keys :: c == hash(grown[c])
      invariant forall c <- store :: grown[c] == store[c] || c == hash(grown[c])
      invariant Addressed(hash, store) ==> Addressed(hash, grown)
      decreases |data| - off
    {
      var chunk := data[off..Min(off + chunkSize, |data|)];
      assert Times(|listed| + 1, chunkSize) == off + chunkSize;
      CeilBound(|listed|, |data|, chunkSize);
      assert chunk == ChunkAt(data, chunkSize, |listed|);
      grown := grown[hash(chunk) := chunk];
      listed := listed + [hash(chunk)];
      off := off + chunkSize;
    }
    CeilBound(|listed|, |data|, chunkSize);
    CountFits(|data|, chunkSize);
    hashes := listed;
  }

  /** How a manifest is written down and read back. */
  datatype Format = Format(write: Manifest -> Bytes, parse: Bytes -> Option<Manifest>) {
    ghost predicate Faithful() {
      forall m :: parse(write(m)) == Some(m)
    }
  }

  /** `_put_object`: post every chunk, then the manifest that describes them; its CID names the object. */
  method PutObject(hash: Bytes -> Cid, format: Format, data: Bytes, chunkSize: u64, store: map<Cid, Bytes>)
    returns (objectCid: Cid, ghost m: Manifest, grown: map<Cid, Bytes>)
    requires chunkSize > 0 && |data| < TWO_64
    ensures m.chunkSize == chunkSize && Describes(hash, m, data)
    ensures objectCid == hash(format.write(m)) && objectCid in grown && grown[objectCid] == format.write(m)
    ensures store.Keys <= grown.Keys && forall c <- m.chunks :: c in grown
    ensures forall c <- grown.Keys - store.Keys :: c == hash(grown[c])
    ensures forall c <- store :: grown[c] == store[c] || c == hash(grown[c])
    ensures Addressed(hash, store) ==> Addressed(hash, grown)
  {
    var hashes;
    hashes, grown := PutChunks(hash, data, chunkSize, store);
    var manifest := Manifest(chunkSize, |data|, hashes);
    var blob := format.write(manifest);
    objectCid := hash(blob);
    grown := grown[objectCid := blob];
    m := manifest;
  }

  lemma {:induction false} CountFits(size: nat, chunkSize: nat)
    requires chunkSize > 0
    ensures CeilDiv(size, chunkSize) <= size
  {
    if size > chunkSize { CountFits(size - chunkSize, chunkSize); }
  }

  datatype ReadError = NotFound | BadManifest | Unreachable | CidMismatch

  /** `op_read`: `target` is the object the path leads to on a drive that is served, if it does; `fetch` is
      what the host's own fetch of a blob gives. */
  method OpRead(format: Format, target: Option<Cid>, fetch: Cid -> Option<Bytes>, offset: u64, len: Option<u64>)
    returns (r: Result<Plan, ReadError>)
    ensures target.None? || fetch(target.value).None? ==> r == Failure(ReadError.NotFound)
    ensures target.Some? && fetch(target.value).Some? ==>
              var m := format.parse(fetch(target.value).value);
              if m.None? then r == Failure(BadManifest)
              else
                && r.Success? && r.value.objectCid == target.value && r.value.totalSize == m.value.totalSize
                && r.value.chunks == Planned(m.value, offset, len)
                && ExactlyWanted(m.value, offset, len, r.value.chunks)
  {
    if target.None? { return Failure(ReadError.NotFound); }
    var blob := fetch(target.value);
    if blob.None? { return Failure(ReadError.NotFound); }
    var m := format.parse(blob.value);
    if m.None? { return Failure(BadManifest); }
    var plan := MakePlan(target.value, m.value, offset, len);
    r := Success(plan);
  }

  /** Python's `buf[start:end]`. */
  function PySlice(buf: Bytes, start: int, end: int): Bytes {
    var lo := Clamp(start, |buf|);
    var hi := Clamp(end, |buf|);
    if lo < hi then buf[lo..hi] else []
  }

  function Clamp(i: int, n: nat): (r: nat)
    ensures r <= n
  {
    if i < 0 then (if i + n < 0 then 0 else i + n) else if i > n then n else i
  }

  /** Inside the buffer a slice is a slice; a negative end counts from the back, one too far is the end. */
  lemma PySliceCountsFromTheBack(buf: Bytes, start: int, end: int)
    ensures 0 <= start <= end <= |buf| ==> PySlice(buf, start, end) == buf[start..end]
    ensures 0 <= end < start ==> PySlice(buf, start, end) == []
    ensures -|buf| <= start < 0 ==> PySlice(buf, start, end) == PySlice(buf, start + |buf|, end)
    ensures -|buf| <= end < 0 ==> PySlice(buf, start, end) == PySlice(buf, start, end + |buf|)
    ensures start < -|buf| ==> PySlice(buf, start, end) == PySlice(buf, 0, end)
    ensures end < -|buf| ==> PySlice(buf, start, end) == []
    ensures end > |buf| ==> PySlice(buf, start, end) == PySlice(buf, start, |buf|)
  {
  }

  function Joined(replies: seq<Option<Bytes>>): Bytes {
    if replies == [] then []
    else Joined(replies[..|replies| - 1]) + match replies[|replies| - 1] case Some(b) => b case None => []
  }

  /** The client's cut: the buffer starts at the first planned chunk, the range somewhere inside. */
  function Trimmed(buf: Bytes, first: nat, offset: nat, length: Option<nat>): Bytes {
    var start := offset - first;
    PySlice(buf, start, if length.None? then |buf| else start + length.value)
  }

  /** Every planned chunk was answered with bytes of its CID. */
  predicate AllVerified(hash: Bytes -> Cid, chunks: seq<ChunkRef<Cid>>, replies: seq<Option<Bytes>>)
    requires |chunks| <= |replies|
  {
    forall k :: 0 <= k < |chunks| ==> replies[k].Some? && hash(replies[k].value) == chunks[k].cid
  }

  /** `Drive.read` once it has the plan: `replies[k]` is what the blob store answers to the k-th fetch
      (None when the fetch fails), whatever that is. */
  method ClientRead(hash: Bytes -> Cid, plan: Plan, offset: nat, length: Option<nat>, replies: seq<Option<Bytes>>)
    returns (r: Result<Bytes, ReadError>)
    requires |plan.chunks| <= |replies|
    ensures r.Success? <==> AllVerified(hash, plan.chunks, replies)
    ensures r.Success? && plan.chunks == [] ==> r.value == []
    ensures r.Success? && plan.chunks != [] ==>
              r.value == Trimmed(Joined(replies[..|plan.chunks|]), plan.chunks[0].offset, offset, length)
    ensures r.Failure? ==>
              exists k :: 0 <= k < |plan.chunks| && AllVerified(hash, plan.chunks[..k], replies)
                          && r.error == if replies[k].None? then Unreachable else CidMismatch
  {
    if |plan.chunks| == 0 {
      return Success([]);
    }
    var buf: Bytes := [];
    for k := 0 to |plan.chunks|
      invariant buf == Joined(replies[..k])
      invariant AllVerified(hash, plan.chunks[..k], replies)
    {
      if replies[k].None? {
        return Failure(Unreachable);
      }
      var data := replies[k].value;
      if hash(data) != plan.chunks[k].cid {
        return Failure(CidMismatch);
      }
      assert replies[..k + 1][..k] == replies[..k];
      buf := buf + data;
    }
    assert plan.chunks[..|plan.chunks|] == plan.chunks;
    var start := offset - plan.chunks[0].offset;
    var end := if length.None? then |buf| else start + length.value;
    r := Success(PySlice(buf, start, end));
  }

  // ----- end to end -----

  /** The bytes that were asked for. */
  function Wanting(data: Bytes, offset: nat, length: Option<nat>): Bytes {
    var end := if length.None? then |data| else Min(offset + length.value, |data|);
    if offset < end then data[offset..end] else []
  }

  lemma StretchSnoc(data: Bytes, chunkSize: nat, a: nat, b: nat)
    requires a <= b
    ensures Stretch(data, chunkSize, a, b + 1) == Stretch(data, chunkSize, a, b) + ChunkAt(data, chunkSize, b)
  {
    MulMono(a, b, chunkSize);
    MulMono(b, b + 1, chunkSize);
    var x, y := Min(Times(a, chunkSize), |data|), Min(Times(b, chunkSize), |data|);
    var z := Min(Times(b + 1, chunkSize), |data|);
    assert data[x..z] == data[x..y] + data[y..z];
  }

  lemma JoinedSnoc(data: Bytes, chunkSize: nat, lo: nat, n: nat, replies: seq<Option<Bytes>>)
    requires |replies| == n + 1 && replies[n] == Some(ChunkAt(data, chunkSize, lo + n))
    requires Joined(replies[..n]) == Stretch(data, chunkSize, lo, lo + n)
    ensures Joined(replies) == Stretch(data, chunkSize, lo, lo + n + 1)
  {
    StretchSnoc(data, chunkSize, lo, lo + n);
  }

  lemma {:induction false} JoinedChunks(data: Bytes, chunkSize: nat, lo: nat, replies: seq<Option<Bytes>>)
    requires forall k :: 0 <= k < |replies| ==> replies[k] == Some(ChunkAt(data, chunkSize, lo + k))
    ensures Joined(replies) == Stretch(data, chunkSize, lo, lo + |replies|)
    decreases |replies|
  {
    if replies == [] {
      assert Stretch(data, chunkSize, lo, lo) == [];
    } else {
      var n := |replies| - 1;
      JoinedChunks(data, chunkSize, lo, replies[..n]);
      JoinedSnoc(data, chunkSize, lo, n, replies);
    }
  }

  /** Trimming a stretch `[a, b)` that covers the range gives the wanted bytes. */
  lemma TrimIsExact(data: Bytes, offset: u64, length: Option<u64>, a: nat, b: nat)
    requires |data| < TWO_64
    requires a <= offset < RangeEnd(|data|, offset, length) <= b <= |data|
    ensures Trimmed(data[a..b], a, offset, length) == Wanting(data, offset, length)
  {
    var end := RangeEnd(|data|, offset, length);
    var buf, start := data[a..b], offset - a;
    var stop := if length.None? then |buf| else start + length.value;
    assert Clamp(stop, |buf|) == end - a by {
      assert end < |data| ==> length.Some? && end == offset + length.value;
    }
    Seqs.SliceOfSlice(data, a, b, offset, end);
  }

  lemma VerifiedIsChunk(hash: Bytes -> Cid, m: Manifest, data: Bytes, lo: nat, hi: nat, replies: seq<Option<Bytes>>,
                        k: nat)
    requires !Collides(hash) && Describes(hash, m, data) && lo + k < hi <= |m.chunks|
    requires |replies| == hi - lo && AllVerified(hash, Refs(m, lo, hi), replies)
    ensures replies[k] == Some(ChunkAt(data, m.chunkSize, lo + k))
  {
    assert Refs(m, lo, hi)[lo + k - lo] == Ref(m, lo + k);
    assert m.chunks[lo + k] == hash(ChunkAt(data, m.chunkSize, lo + k));
  }

  /** What the client makes of verified replies for chunks `lo..hi` that cover the range. */
  lemma CoveredReadIsExact(hash: Bytes -> Cid, m: Manifest, data: Bytes, offset: u64, length: Option<u64>,
                           lo: nat, hi: nat, replies: seq<Option<Bytes>>)
    requires !Collides(hash) && Describes(hash, m, data) && |data| < TWO_64
    requires lo < hi <= |m.chunks|
    requires Start(m, lo) <= offset < RangeEnd(|data|, offset, length) <= Start(m, hi)
    requires |replies| == hi - lo && AllVerified(hash, Refs(m, lo, hi), replies)
    ensures Trimmed(Joined(replies), Start(m, lo), offset, length) == Wanting(data, offset, length)
  {
    forall k | 0 <= k < hi - lo
      ensures replies[k] == Some(ChunkAt(data, m.chunkSize, lo + k))
    {
      VerifiedIsChunk(hash, m, data, lo, hi, replies, k);
    }
    JoinedChunks(data, m.chunkSize, lo, replies);
    TrimIsExact(data, offset, length, Start(m, lo), Start(m, hi));
  }

  /** Any plan the host makes for the object, answered by verified bytes, trims to the wanted bytes. */
  lemma PlannedReadIsExact(hash: Bytes -> Cid, m: Manifest, data: Bytes, offset: u64, length: Option<u64>,
                           replies: seq<Option<Bytes>>)
    requires !Collides(hash) && Describes(hash, m, data) && |data| < TWO_64
    requires |replies| == |Planned(m, offset, length)| && AllVerified(hash, Planned(m, offset, length), replies)
    ensures var chunks := Planned(m, offset, length);
            if chunks == [] then Wanting(data, offset, length) == []
            else Trimmed(Joined(replies), chunks[0].offset, offset, length) == Wanting(data, offset, length)
  {
    var end := RangeEnd(|data|, offset, length);
    if offset < end {
      var lo, hi := FirstWanted(m, offset), PastWanted(m, end);
      PlanBounds(m, offset, end);
      assert Refs(m, lo, hi)[lo - lo] == Ref(m, lo);
      CoveredReadIsExact(hash, m, data, offset, length, lo, hi, replies);
    }
  }

  /** Every planned chunk is one that was listed. */
  lemma PlannedAreListed(m: Manifest, offset: u64, length: Option<u64>, k: nat)
    requires WellFormed(m) && k < |Planned(m, offset, length)|
    ensures Planned(m, offset, length)[k].cid in m.chunks
  {
    var end := RangeEnd(m.totalSize, offset, length);
    var lo, hi := FirstWanted(m, offset), PastWanted(m, end);
    PlanBounds(m, offset, end);
    assert Refs(m, lo, hi)[lo + k - lo] == Ref(m, lo + k);
  }

  /** The store answers every fetch of a blob it holds with that blob. */
  ghost predicate Serves(answer: (Cid, nat) -> Option<Bytes>, store: map<Cid, Bytes>) {
    forall c, n :: c in store ==> answer(c, n) == Some(store[c])
  }

  /** What a fetch gave has the hash that was asked for, if it gave anything. */
  predicate Authentic(hash: Bytes -> Cid, c: Cid, blob: Option<Bytes>) {
    blob.Some? ==> hash(blob.value) == c
  }

  /** Store, plan, fetch, verify, trim. `manifest` is what the host's own fetch of the manifest answers,
      `answer` what the client's n-th fetch of a chunk does. Whatever chunks come back, the client raises
      or returns the bytes that were asked for; and when both fetches are served from the store that the
      upload filled, it does not raise. */
  method RangedRead(hash: Bytes -> Cid, format: Format, data: Bytes, chunkSize: u64, offset: u64, length: Option<u64>,
                    store: map<Cid, Bytes>, manifest: Cid -> Option<Bytes>, answer: (Cid, nat) -> Option<Bytes>)
    returns (objectCid: Cid, grown: map<Cid, Bytes>, r: Result<Bytes, ReadError>)
    requires chunkSize > 0 && |data| < TWO_64 && format.Faithful()
    ensures store.Keys <= grown.Keys && objectCid in grown
    ensures !Collides(hash) && Authentic(hash, objectCid, manifest(objectCid)) && r.Success?
            ==> r.value == Wanting(data, offset, length)
    ensures Addressed(hash, store) && Serves(answer, grown) && manifest(objectCid) == Some(grown[objectCid])
            ==> r.Success?
  {
    ghost var m;
    objectCid, m, grown := PutObject(hash, format, data, chunkSize, store);
    var planned := OpRead(format, Some(objectCid), manifest, offset, length);
    if planned.Failure? { return objectCid, grown, Failure(planned.error); }
    var plan := planned.value;
    var chunks := plan.chunks;
    var replies := seq(|chunks|, k requires 0 <= k < |chunks| => answer(chunks[k].cid, k));
    r := ClientRead(hash, plan, offset, length, replies);
    assert replies[..|chunks|] == replies;
    if !Collides(hash) && Authentic(hash, objectCid, manifest(objectCid)) {
      assert manifest(objectCid).value == format.write(m);
      if r.Success? { PlannedReadIsExact(hash, m, data, offset, length, replies); }
    }
    if Addressed(hash, store) && Serves(answer, grown) && manifest(objectCid) == Some(grown[objectCid]) {
      forall k | 0 <= k < |chunks|
        ensures replies[k].Some? && hash(replies[k].value) == chunks[k].cid
      {
        PlannedAreListed(m, offset, length, k);
        assert answer(chunks[k].cid, k) == Some(grown[chunks[k].cid]);
      }
    }
  }
}
