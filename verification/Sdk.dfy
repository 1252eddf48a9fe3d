/**
 The SDK's codec as it is written: an encoder that grows a buffer and a decoder that advances a
 cursor (sdk/py/cedrive.py `_Enc`, `_Dec`, `_enc_req`, `_dec_reply`; sdk/js/cedrive.js `Enc`, `Dec`).
 Each method is proved against the grammar of module Wire.
 */
module Sdk {
  import opened Wrappers
  import opened WireTypes
  import opened Wire
  import opened WireProofs

  /** Every writer appends its value; `rest` stands for whatever is written after it. */
  class Enc {
    var buf: Bytes

    constructor ()
      ensures buf == []
    {
      buf := [];
    }

    method Int(n: nat, v: nat, ghost rest: Bytes)
      modifies this
      ensures buf + rest == old(buf) + EncInt(n, v, rest)
    {
      buf := buf + EncInt(n, v, []);
      IntPrepends(n, v, [], rest);
      assert [] + rest == rest;
    }

    method U8(v: u8, ghost rest: Bytes)
      modifies this
      ensures buf + rest == old(buf) + EncU8(v, rest)
    {
      Int(1, v, rest);
    }

    method U32(v: u32, ghost rest: Bytes)
      modifies this
      ensures buf + rest == old(buf) + EncU32(v, rest)
    {
      Int(4, v, rest);
    }

    method U64(v: u64, ghost rest: Bytes)
      modifies this
      ensures buf + rest == old(buf) + EncU64(v, rest)
    {
      Int(8, v, rest);
    }

    method Bool(v: bool, ghost rest: Bytes)
      modifies this
      ensures buf + rest == old(buf) + EncBool(v, rest)
    {
      U8(if v then 1 else 0, rest);
    }

    method Str(s: Wire.Str, ghost rest: Bytes)
      modifies this
      ensures buf + rest == old(buf) + EncStr(s, rest)
    {
      U64(|s|, s + rest);
      ghost var was := buf;
      buf := buf + s;
      assert buf + rest == was + (s + rest);
    }

    method OptStr(o: Option<Wire.Str>, ghost rest: Bytes)
      modifies this
      ensures buf + rest == old(buf) + EncOptStr(o, rest)
    {
      if o.None? {
        U8(0, rest);
      } else {
        U8(1, EncStr(o.value, rest));
        Str(o.value, rest);
      }
    }

    method OptU64(o: Option<u64>, ghost rest: Bytes)
      modifies this
      ensures buf + rest == old(buf) + EncOptU64(o, rest)
    {
      if o.None? {
        U8(0, rest);
      } else {
        U8(1, EncU64(o.value, rest));
        U64(o.value, rest);
      }
    }

    method SeqStr(items: Vec<Wire.Str>, ghost rest: Bytes)
      modifies this
      ensures buf + rest == old(buf) + EncVec(EncStr, items, rest)
    {
      U64(|items|, EncAll(EncStr, items, rest));
      ghost var whole := buf + EncAll(EncStr, items, rest);
      assert items[0..] == items;
      for n := 0 to |items|
        invariant buf + EncAll(EncStr, items[n..], rest) == whole
      {
        assert items[n..][0] == items[n] && items[n..][1..] == items[n + 1..];
        Str(items[n], EncAll(EncStr, items[n + 1..], rest));
      }
    }
  }

  /** `_enc_req` with the field writer each SDK call passes to it. */
  method EncodeReq(r: DriveReq<Wire.Str>) returns (out: Bytes)
    ensures out == EncReq(r, [])
  {
    ghost var op := EncOp(r.op, []);
    ghost var cap := EncStr(r.cap, op);
    var e := new Enc();
    e.Str(r.drive, cap);
    e.Str(r.cap, op);
    EncodeOp(e, r.op, []);
    out := e.buf;
    assert out + [] == out && [] + EncReq(r, []) == EncReq(r, []);
  }

  /** The field writers of the SDK calls, each after its tag. */
  method WritePath(e: Enc, tag: u32, path: Wire.Str, ghost rest: Bytes)
    modifies e
    ensures e.buf + rest == old(e.buf) + EncU32(tag, EncStr(path, rest))
  {
    ghost var k1 := EncStr(path, rest);
    e.U32(tag, k1);
    e.Str(path, rest);
  }

  method WritePaths(e: Enc, tag: u32, a: Wire.Str, b: Wire.Str, ghost rest: Bytes)
    modifies e
    ensures e.buf + rest == old(e.buf) + EncU32(tag, EncStr(a, EncStr(b, rest)))
  {
    ghost var k1 := EncStr(b, rest);
    WritePath(e, tag, a, k1);
    e.Str(b, rest);
  }

  method WriteList(e: Enc, path: Wire.Str, after: Option<Wire.Str>, limit: u32, ghost rest: Bytes)
    modifies e
    ensures e.buf + rest == old(e.buf) + EncOp(List(path, after, limit), rest)
  {
    ghost var k2 := EncU32(limit, rest);
    ghost var k1 := EncOptStr(after, k2);
    WritePath(e, 2, path, k1);
    e.OptStr(after, k2);
    e.U32(limit, rest);
  }

  method WriteRead(e: Enc, path: Wire.Str, offset: u64, len: Option<u64>, ghost rest: Bytes)
    modifies e
    ensures e.buf + rest == old(e.buf) + EncOp(Read(path, offset, len), rest)
  {
    ghost var k2 := EncOptU64(len, rest);
    ghost var k1 := EncU64(offset, k2);
    WritePath(e, 3, path, k1);
    e.U64(offset, k2);
    e.OptU64(len, rest);
  }

  method WriteWrite(e: Enc, path: Wire.Str, cid: Wire.Str, size: u64, etag: Option<Wire.Str>, ghost rest: Bytes)
    modifies e
    ensures e.buf + rest == old(e.buf) + EncOp(Write(path, cid, size, etag), rest)
  {
    ghost var k2 := EncOptStr(etag, rest);
    ghost var k1 := EncU64(size, k2);
    WritePaths(e, 4, path, cid, k1);
    e.U64(size, k2);
    e.OptStr(etag, rest);
  }

  method WriteDelete(e: Enc, path: Wire.Str, recursive: bool, ghost rest: Bytes)
    modifies e
    ensures e.buf + rest == old(e.buf) + EncOp(Delete(path, recursive), rest)
  {
    ghost var k1 := EncBool(recursive, rest);
    WritePath(e, 8, path, k1);
    e.Bool(recursive, rest);
  }

  method WriteCaveats(e: Enc, c: ShareCaveats, ghost rest: Bytes)
    modifies e
    ensures e.buf + rest == old(e.buf) + EncCaveats(c, rest)
  {
    ghost var k2 := EncOptU64(c.maxBytesWrite, rest);
    ghost var k1 := EncOptU64(c.maxBytesRead, k2);
    e.U64(c.notAfter, k1);
    e.OptU64(c.maxBytesRead, k2);
    e.OptU64(c.maxBytesWrite, rest);
  }

  method WriteShare(e: Enc, path: Wire.Str, audience: Wire.Str, abilities: Vec<Wire.Str>, caveats: ShareCaveats,
                    ghost rest: Bytes)
    modifies e
    ensures e.buf + rest == old(e.buf) + EncOp(Share(path, audience, abilities, caveats), rest)
  {
    ghost var k2 := EncCaveats(caveats, rest);
    ghost var k1 := EncVec(EncStr, abilities, k2);
    WritePaths(e, 9, path, audience, k1);
    e.SeqStr(abilities, k2);
    WriteCaveats(e, caveats, rest);
  }

  method WritePoll(e: Enc, cursor: Option<u64>, limit: u32, ghost rest: Bytes)
    modifies e
    ensures e.buf + rest == old(e.buf) + EncOp(Poll(cursor, limit), rest)
  {
    ghost var k2 := EncU32(limit, rest);
    ghost var k1 := EncOptU64(cursor, k2);
    e.U32(10, k1);
    e.OptU64(cursor, k2);
    e.U32(limit, rest);
  }

  method WriteSetProp(e: Enc, path: Wire.Str, key: Wire.Str, value: Option<Wire.Str>, ghost rest: Bytes)
    modifies e
    ensures e.buf + rest == old(e.buf) + EncOp(SetProp(path, key, value), rest)
  {
    ghost var k1 := EncOptStr(value, rest);
    WritePaths(e, 13, path, key, k1);
    e.OptStr(value, rest);
  }

  method WriteTag(e: Enc, path: Wire.Str, tag: Wire.Str, remove: bool, ghost rest: Bytes)
    modifies e
    ensures e.buf + rest == old(e.buf) + EncOp(Tag(path, tag, remove), rest)
  {
    ghost var k1 := EncBool(remove, rest);
    WritePaths(e, 14, path, tag, k1);
    e.Bool(remove, rest);
  }

  method WriteLink(e: Enc, path: Wire.Str, rel: Wire.Str, target: Wire.Str, remove: bool, ghost rest: Bytes)
    modifies e
    ensures e.buf + rest == old(e.buf) + EncOp(Link(path, rel, target, remove), rest)
  {
    ghost var k2 := EncBool(remove, rest);
    ghost var k1 := EncStr(target, k2);
    WritePaths(e, 15, path, rel, k1);
    e.Str(target, k2);
    e.Bool(remove, rest);
  }

  method EncodeOp(e: Enc, op: DriveOp<Wire.Str>, ghost rest: Bytes)
    modifies e
    ensures e.buf + rest == old(e.buf) + EncOp(op, rest)
  {
    match op
    case Open => e.U32(0, rest);
    case Stat(path) => WritePath(e, 1, path, rest);
    case List(path, after, limit) => WriteList(e, path, after, limit, rest);
    case Read(path, offset, len) => WriteRead(e, path, offset, len, rest);
    case Write(path, cid, size, etag) => WriteWrite(e, path, cid, size, etag, rest);
    case Mkdir(path) => WritePath(e, 5, path, rest);
    case Move(src, dst) => WritePaths(e, 6, src, dst, rest);
    case Copy(src, dst) => WritePaths(e, 7, src, dst, rest);
    case Delete(path, recursive) => WriteDelete(e, path, recursive, rest);
    case Share(path, audience, abilities, caveats) => WriteShare(e, path, audience, abilities, caveats, rest);
    case Poll(cursor, limit) => WritePoll(e, cursor, limit, rest);
    case Watch => e.U32(11, rest);
    case Meta(path) => WritePath(e, 12, path, rest);
    case SetProp(path, key, value) => WriteSetProp(e, path, key, value, rest);
    case Tag(path, tag, remove) => WriteTag(e, path, tag, remove, rest);
    case Link(path, rel, target, remove) => WriteLink(e, path, rel, target, remove, rest);
    case Backlinks(target) => WritePath(e, 16, target, rest);
    case Versions(path) => WritePath(e, 17, path, rest);
  }

  // ----- decoding -----

  datatype SdkError = EmptyReply | Truncated | UnknownVariant

  /** The outcome of a decoder method is what the parser made of the bytes that were left. */
  predicate Agrees<T(==)>(r: Result<T, SdkError>, p: Parse<T>, rest: Bytes) {
    match p
    case Done(v, t) => r == Success(v) && rest == t
    case Stuck => r.Failure?
  }

  /** A list read in two parts: `xs`, then what `p` reads. */
  ghost function After<T>(xs: seq<T>, p: Parse<seq<T>>): Parse<seq<T>> {
    match p
    case Stuck => Stuck
    case Done(ys, t) => Done(xs + ys, t)
  }

  lemma {:induction false} IntNeeds(n: nat, s: Bytes)
    ensures ParseInt(n, s).Done? <==> n <= |s|
    ensures n <= |s| ==> ParseInt(n, s[..n]).Done? && ParseInt(n, s) == Done(ParseInt(n, s[..n]).value, s[n..])
  {
    if n != 0 && s != [] {
      IntNeeds(n - 1, s[1..]);
      if n <= |s| {
        assert s[1..][..n - 1] == s[..n][1..];
        IntNeeds(n - 1, s[..n][1..]);
      }
    }
  }

  /** Of the `n` elements at `start`, `out` has been read and the rest begins at `left`: reading the rest
      there is reading the whole. */
  ghost predicate Remaining<T>(p: Bytes -> Parse<T>, n: nat, start: Bytes, out: seq<T>, left: Bytes) {
    && |out| <= n
    && ParseMany(p, n, start) == After(out, ParseMany(p, n - |out|, left))
  }

  lemma ManyStarts<T>(p: Bytes -> Parse<T>, n: nat, start: Bytes)
    ensures Remaining(p, n, start, [], start)
  {
    if ParseMany(p, n, start).Done? {
      assert [] + ParseMany(p, n, start).value == ParseMany(p, n, start).value;
    }
  }

  lemma ManyNext<T>(p: Bytes -> Parse<T>, n: nat, start: Bytes, out: seq<T>, left: Bytes, x: T, t: Bytes)
    requires Remaining(p, n, start, out, left) && |out| < n && p(left) == Done(x, t)
    ensures Remaining(p, n, start, out + [x], t)
  {
    var m := n - |out|;
    if ParseMany(p, m, left).Done? {
      var ys := ParseMany(p, m - 1, t).value;
      assert out + ([x] + ys) == (out + [x]) + ys;
    }
  }

  lemma ManyFails<T>(p: Bytes -> Parse<T>, n: nat, start: Bytes, out: seq<T>, left: Bytes)
    requires Remaining(p, n, start, out, left) && |out| < n && p(left).Stuck?
    ensures ParseMany(p, n, start).Stuck?
  {
  }

  lemma ManyEnds<T>(p: Bytes -> Parse<T>, n: nat, start: Bytes, out: seq<T>, left: Bytes)
    requires Remaining(p, n, start, out, left) && |out| == n
    ensures ParseMany(p, n, start) == Done(out, left)
  {
    assert out + [] == out;
  }

  class Dec {
    const rd: Reader
    const d: Bytes
    var i: nat

    constructor (rd: Reader, data: Bytes)
      ensures this.rd == rd && d == data && i == 0
    {
      this.rd, d, i := rd, data, 0;
    }

    predicate Valid()
      reads this
    {
      i <= |d|
    }

    function Left(): Bytes
      requires Valid()
      reads this
    {
      d[i..]
    }

    method Take(n: nat) returns (r: Result<Bytes, SdkError>)
      requires Valid()
      modifies this
      ensures Valid()
      ensures Agrees(r, if n > |old(Left())| then Stuck else Done(old(Left())[..n], old(Left())[n..]), Left())
    {
      if i + n > |d| {
        return Failure(Truncated);
      }
      assert d[i..][..n] == d[i..i + n] && d[i..][n..] == d[i + n..];
      r := Success(d[i..i + n]);
      i := i + n;
    }

    method Unpack(n: nat) returns (r: Result<nat, SdkError>)
      requires Valid()
      modifies this
      ensures Valid() && Agrees(r, ParseInt(n, old(Left())), Left())
      ensures r.Success? ==> r.value < Pow256(n)
    {
      IntNeeds(n, Left());
      var b :- Take(n);
      r := Success(ParseInt(n, b).value);
    }

    method U8() returns (r: Result<u8, SdkError>)
      requires Valid()
      modifies this
      ensures Valid() && Agrees(r, ParseU8(old(Left())), Left())
    {
      Widths();
      var v :- Unpack(1);
      r := Success(v);
    }

    method U32() returns (r: Result<u32, SdkError>)
      requires Valid()
      modifies this
      ensures Valid() && Agrees(r, ParseU32(old(Left())), Left())
    {
      Widths();
      var v :- Unpack(4);
      r := Success(v);
    }

    method U64() returns (r: Result<u64, SdkError>)
      requires Valid()
      modifies this
      ensures Valid() && Agrees(r, ParseU64(old(Left())), Left())
    {
      Widths();
      var v :- Unpack(8);
      r := Success(v);
    }

    method Bool() returns (r: Result<bool, SdkError>)
      requires Valid() && !rd.Host?
      modifies this
      ensures Valid() && Agrees(r, ParseFlag(rd, old(Left())), Left())
    {
      var v :- U8();
      r := Success(v != 0);
    }

    method Str() returns (r: Result<Wire.Str, SdkError>)
      requires Valid()
      modifies this
      ensures Valid() && Agrees(r, ParseStr(old(Left())), Left())
    {
      var n :- U64();
      var s :- Take(n);
      r := Success(s);
    }

    method OptStr() returns (r: Result<Option<Wire.Str>, SdkError>)
      requires Valid() && !rd.Host?
      modifies this
      ensures Valid() && Agrees(r, ParseOptStr(rd, old(Left())), Left())
    {
      var some :- U8();
      if some != 0 {
        var s :- Str();
        r := Success(Some(s));
      } else {
        r := Success(None);
      }
    }

    method OptU64() returns (r: Result<Option<u64>, SdkError>)
      requires Valid() && !rd.Host?
      modifies this
      ensures Valid() && Agrees(r, ParseOptU64(rd, old(Left())), Left())
    {
      var some :- U8();
      if some != 0 {
        var v :- U64();
        r := Success(Some(v));
      } else {
        r := Success(None);
      }
    }

    method Pair() returns (r: Result<(Wire.Str, Wire.Str), SdkError>)
      requires Valid()
      modifies this
      ensures Valid() && Agrees(r, ParsePair(old(Left())), Left())
    {
      var a :- Str();
      var b :- Str();
      r := Success((a, b));
    }

    method Chunk() returns (r: Result<ChunkRef<Wire.Str>, SdkError>)
      requires Valid()
      modifies this
      ensures Valid() && Agrees(r, ParseChunk(old(Left())), Left())
    {
      var cid :- Str();
      var offset :- U64();
      var len :- U64();
      r := Success(ChunkRef(cid, offset, len));
    }

    method Kind() returns (r: Result<ChangeKind<Wire.Str>, SdkError>)
      requires Valid() && !rd.Host?
      modifies this
      ensures Valid() && Agrees(r, ParseChangeKind(rd, old(Left())), Left())
    {
      var v :- U32();
      match v
      case 0 => r := Success(Created);
      case 1 => r := Success(Modified);
      case 2 => r := Success(Deleted);
      case 3 =>
        var origin :- Str();
        r := Success(Moved(origin));
      case _ => r := Success(Unrecognised);
    }

    method Change() returns (r: Result<WireTypes.Change<Wire.Str>, SdkError>)
      requires Valid() && !rd.Host?
      modifies this
      ensures Valid() && Agrees(r, ParseChange(rd, old(Left())), Left())
    {
      var seqNo :- U64();
      var path :- Str();
      var node :- Str();
      var kind :- Kind();
      var etag :- Str();
      r := Success(WireTypes.Change(seqNo, path, node, kind, etag));
    }

    method Version() returns (r: Result<VersionInfo<Wire.Str>, SdkError>)
      requires Valid() && !rd.Host?
      modifies this
      ensures Valid() && Agrees(r, ParseVersion(rd, old(Left())), Left())
    {
      var setAt :- U64();
      var locator :- Str();
      var size :- U64();
      var conflict :- Bool();
      r := Success(VersionInfo(setAt, locator, size, conflict));
    }

    method Entry() returns (r: Result<WireTypes.Entry<Wire.Str>, SdkError>)
      requires Valid() && !rd.Host?
      modifies this
      ensures Valid() && Agrees(r, ParseEntry(rd, old(Left())), Left())
    {
      var path :- Str();
      var kind :- U32();
      var isDir := if rd.Python? then kind != 0 else kind == 1;
      var size :- U64();
      var mtime :- U64();
      var etag :- Str();
      var node :- Str();
      var cid :- OptStr();
      var doc :- OptStr();
      r := Success(WireTypes.Entry(path, if isDir then Dir else File, size, mtime, etag, node, cid, doc));
    }

    /** `seq(d.str)`: the count, then that many strings. */
    method Strs() returns (r: Result<Vec<Wire.Str>, SdkError>)
      requires Valid() && !rd.Host?
      modifies this
      ensures Valid() && Agrees(r, ParseVec(ParseStr, old(Left())), Left())
    {
      var n :- U64();
      ghost var start := Left();
      var out: seq<Wire.Str> := [];
      ManyStarts(ParseStr, n, start);
      for k := 0 to n
        invariant Valid() && |out| == k
        invariant Remaining(ParseStr, n, start, out, Left())
      {
        ghost var before := Left();
        var one := Str();
        if one.Failure? {
          ManyFails(ParseStr, n, start, out, before);
          return Failure(one.error);
        }
        ManyNext(ParseStr, n, start, out, before, one.value, Left());
        out := out + [one.value];
      }
      ManyEnds(ParseStr, n, start, out, Left());
      r := Success(out);
    }

    /** ... that many pairs. */
    method Pairs() returns (r: Result<Vec<(Wire.Str, Wire.Str)>, SdkError>)
      requires Valid() && !rd.Host?
      modifies this
      ensures Valid() && Agrees(r, ParseVec(ParsePair, old(Left())), Left())
    {
      var n :- U64();
      ghost var start := Left();
      var out: seq<(Wire.Str, Wire.Str)> := [];
      ManyStarts(ParsePair, n, start);
      for k := 0 to n
        invariant Valid() && |out| == k
        invariant Remaining(ParsePair, n, start, out, Left())
      {
        ghost var before := Left();
        var one := Pair();
        if one.Failure? {
          ManyFails(ParsePair, n, start, out, before);
          return Failure(one.error);
        }
        ManyNext(ParsePair, n, start, out, before, one.value, Left());
        out := out + [one.value];
      }
      ManyEnds(ParsePair, n, start, out, Left());
      r := Success(out);
    }

    /** ... that many chunk references. */
    method Chunks() returns (r: Result<Vec<ChunkRef<Wire.Str>>, SdkError>)
      requires Valid() && !rd.Host?
      modifies this
      ensures Valid() && Agrees(r, ParseVec(ParseChunk, old(Left())), Left())
    {
      var n :- U64();
      ghost var start := Left();
      var out: seq<ChunkRef<Wire.Str>> := [];
      ManyStarts(ParseChunk, n, start);
      for k := 0 to n
        invariant Valid() && |out| == k
        invariant Remaining(ParseChunk, n, start, out, Left())
      {
        ghost var before := Left();
        var one := Chunk();
        if one.Failure? {
          ManyFails(ParseChunk, n, start, out, before);
          return Failure(one.error);
        }
        ManyNext(ParseChunk, n, start, out, before, one.value, Left());
        out := out + [one.value];
      }
      ManyEnds(ParseChunk, n, start, out, Left());
      r := Success(out);
    }

    /** ... that many entries. */
    method Entries() returns (r: Result<Vec<WireTypes.Entry<Wire.Str>>, SdkError>)
      requires Valid() && !rd.Host?
      modifies this
      ensures Valid() && Agrees(r, ParseVec(EntryParser(rd), old(Left())), Left())
    {
      var n :- U64();
      ghost var start := Left();
      var out: seq<WireTypes.Entry<Wire.Str>> := [];
      ManyStarts(EntryParser(rd), n, start);
      for k := 0 to n
        invariant Valid() && |out| == k
        invariant Remaining(EntryParser(rd), n, start, out, Left())
      {
        ghost var before := Left();
        var one := Entry();
        if one.Failure? {
          ManyFails(EntryParser(rd), n, start, out, before);
          return Failure(one.error);
        }
        ManyNext(EntryParser(rd), n, start, out, before, one.value, Left());
        out := out + [one.value];
      }
      ManyEnds(EntryParser(rd), n, start, out, Left());
      r := Success(out);
    }

    /** ... that many changes. */
    method Changes() returns (r: Result<Vec<WireTypes.Change<Wire.Str>>, SdkError>)
      requires Valid() && !rd.Host?
      modifies this
      ensures Valid() && Agrees(r, ParseVec(ChangeParser(rd), old(Left())), Left())
    {
      var n :- U64();
      ghost var start := Left();
      var out: seq<WireTypes.Change<Wire.Str>> := [];
      ManyStarts(ChangeParser(rd), n, start);
      for k := 0 to n
        invariant Valid() && |out| == k
        invariant Remaining(ChangeParser(rd), n, start, out, Left())
      {
        ghost var before := Left();
        var one := Change();
        if one.Failure? {
          ManyFails(ChangeParser(rd), n, start, out, before);
          return Failure(one.error);
        }
        ManyNext(ChangeParser(rd), n, start, out, before, one.value, Left());
        out := out + [one.value];
      }
      ManyEnds(ChangeParser(rd), n, start, out, Left());
      r := Success(out);
    }

    /** ... that many versions. */
    method Versions() returns (r: Result<Vec<VersionInfo<Wire.Str>>, SdkError>)
      requires Valid() && !rd.Host?
      modifies this
      ensures Valid() && Agrees(r, ParseVec(VersionParser(rd), old(Left())), Left())
    {
      var n :- U64();
      ghost var start := Left();
      var out: seq<VersionInfo<Wire.Str>> := [];
      ManyStarts(VersionParser(rd), n, start);
      for k := 0 to n
        invariant Valid() && |out| == k
        invariant Remaining(VersionParser(rd), n, start, out, Left())
      {
        ghost var before := Left();
        var one := Version();
        if one.Failure? {
          ManyFails(VersionParser(rd), n, start, out, before);
          return Failure(one.error);
        }
        ManyNext(VersionParser(rd), n, start, out, before, one.value, Left());
        out := out + [one.value];
      }
      ManyEnds(VersionParser(rd), n, start, out, Left());
      r := Success(out);
    }

    method Plan() returns (r: Result<ReadPlan<Wire.Str>, SdkError>)
      requires Valid() && !rd.Host?
      modifies this
      ensures Valid() && Agrees(r, ParsePlan(rd, old(Left())), Left())
    {
      var cid :- Str();
      var total :- U64();
      var chunkSize :- U64();
      var chunks :- Chunks();
      var encrypted :- Bool();
      var hint :- OptStr();
      r := Success(ReadPlan(cid, total, chunkSize, chunks, encrypted, hint));
    }

    method Quota() returns (r: Result<WireTypes.Quota<Wire.Str>, SdkError>)
      requires Valid() && !rd.Host?
      modifies this
      ensures Valid() && Agrees(r, ParseQuota(rd, old(Left())), Left())
    {
      var month :- Str();
      var egress :- Str();
      var free :- U64();
      var channel :- Bool();
      r := Success(WireTypes.Quota(month, egress, free, channel));
    }

    /** The body of `_dec_reply` after the Ok tag. */
    method Ok() returns (r: Result<DriveOk<Wire.Str>, SdkError>)
      requires Valid() && !rd.Host?
      modifies this
      ensures Valid() && Agrees(r, ParseOk(rd, old(Left())), Left())
    {
      var v :- U32();
      match v
      case 0 =>
        var root :- Str();
        var seqNo :- U64();
        var abilities :- Strs();
        var quota :- Quota();
        r := Success(Opened(root, seqNo, abilities, quota));
      case 1 =>
        var entry :- Entry();
        r := Success(EntryOk(entry));
      case 2 =>
        var entries :- Entries();
        var next :- OptStr();
        r := Success(Listing(entries, next));
      case 3 =>
        var plan :- Plan();
        r := Success(PlanOk(plan));
      case 4 =>
        var etag :- Str();
        var node :- Str();
        var version :- U64();
        r := Success(Written(etag, node, version));
      case 5 =>
        var node :- Str();
        r := Success(Made(node));
      case 6 =>
        r := Success(DeletedOk);
      case 7 =>
        var chain :- Str();
        r := Success(Shared(chain));
      case 8 =>
        var changes :- Changes();
        var cursor :- U64();
        r := Success(DriveOk.Changes(changes, cursor));
      case 9 =>
        var topic :- Str();
        var cursor :- U64();
        r := Success(Watching(topic, cursor));
      case 10 =>
        var node :- Str();
        var props :- Pairs();
        var tags :- Strs();
        var links :- Pairs();
        r := Success(MetaOk(node, props, tags, links));
      case 11 =>
        var sources :- Pairs();
        r := Success(BacklinksOk(sources));
      case 12 =>
        var versions :- Versions();
        r := Success(VersionsOk(versions));
      case _ =>
        r := Failure(UnknownVariant);
    }

    /** `_raise_err`: the refusal the reply carries. */
    method Err() returns (r: Result<Seen, SdkError>)
      requires Valid() && !rd.Host?
      modifies this
      ensures Valid() && Agrees(r, ParseErr(rd, old(Left())), Left())
    {
      var v :- U32();
      match v
      case 0 => r := Success(Refused(Unauthorized));
      case 1 => r := Success(Refused(Revoked));
      case 2 => r := Success(Refused(Expired));
      case 3 => r := Success(Refused(OutOfScope));
      case 4 => r := Success(Refused(NotFound));
      case 5 =>
        var etag :- Str();
        r := Success(Refused(Conflict(etag)));
      case 6 => r := Success(Refused(QuotaExceeded));
      case 7 => r := Success(Refused(PaymentRequired));
      case 8 => r := Success(Refused(BadPath));
      case 9 =>
        var reason :- Str();
        r := Success(Refused(Internal(reason)));
      case _ => r := Success(RefusedUnknown);
    }
  }

  /** `_dec_reply`: whatever a host prints for a reply, with anything after it, is what the SDK sees,
      and every proper prefix of it is an error. */
  method DecodeReply(rd: Reader, payload: Bytes) returns (seen: Result<Seen, SdkError>)
    requires !rd.Host?
    ensures seen.Success? <==> ParseReply(rd, payload).Done?
    ensures seen.Success? ==> seen.value == ParseReply(rd, payload).value
    ensures forall r, k {:trigger EncReply(r, k)} :: payload == EncReply(r, k) ==> seen == Success(SeenOf(r))
    ensures forall r, n: nat {:trigger EncReply(r, [])[..n]} ::
      n < |EncReply(r, [])| && payload == EncReply(r, [])[..n] ==> seen.Failure?
  {
    forall r, k | payload == EncReply(r, k)
      ensures ParseReply(rd, payload) == Done(SeenOf(r), k) { ReplyRoundTrip(rd, r, k); }
    forall r, n: nat | n < |EncReply(r, [])| && payload == EncReply(r, [])[..n]
      ensures ParseReply(rd, payload).Stuck? { TruncatedReplyRejected(rd, r, n); }
    IntNeeds(4, payload);
    if payload == [] {
      return Failure(EmptyReply);
    }
    var dec := new Dec(rd, payload);
    assert dec.Left() == payload;
    var tag :- dec.U32();
    if tag != 0 {
      seen := dec.Err();
    } else {
      var ok :- dec.Ok();
      seen := Success(Okay(ok));
    }
  }
}
