/** Round trips, canonical form and truncation of the `ce-drive/v1` codec. */
module WireProofs {
  import opened Wrappers
  import opened WireTypes
  import opened Wire

  /** `p` reads back whatever `enc` printed and leaves what follows untouched. */
  ghost predicate Reads<T(!new)>(enc: (T, Bytes) -> Bytes, p: Bytes -> Parse<T>) {
    forall x: T, k: Bytes {:trigger enc(x, k)} :: p(enc(x, k)) == Done(x, k)
  }

  /** `p` accepts nothing but what `enc` prints. */
  ghost predicate Canonical<T>(enc: (T, Bytes) -> Bytes, p: Bytes -> Parse<T>) {
    forall s: Bytes {:trigger p(s)} :: p(s).Done? ==> s == enc(p(s).value, p(s).rest)
  }

  /** What `p` accepts it accepts unchanged when more bytes follow. */
  ghost predicate Extends<T>(p: Bytes -> Parse<T>) {
    forall s: Bytes, e: Bytes {:trigger p(s + e)} ::
      p(s).Done? ==> p(s + e) == Done(p(s).value, p(s).rest + e)
  }

  // ----- round trips -----

  lemma {:induction false} IntReads(n: nat, v: nat, k: Bytes)
    requires v < Pow256(n)
    ensures ParseInt(n, EncInt(n, v, k)) == Done(v, k)
  {
    if n != 0 {
      IntReads(n - 1, v / 256, k);
      assert EncInt(n, v, k)[1..] == EncInt(n - 1, v / 256, k);
    }
  }

  lemma FixedRead()
    ensures forall v: u8, k: Bytes {:trigger EncU8(v, k)} :: ParseU8(EncU8(v, k)) == Done(v, k)
    ensures forall v: u32, k: Bytes {:trigger EncU32(v, k)} :: ParseU32(EncU32(v, k)) == Done(v, k)
    ensures forall v: u64, k: Bytes {:trigger EncU64(v, k)} :: ParseU64(EncU64(v, k)) == Done(v, k)
  {
    Widths();
    forall v: u8, k: Bytes ensures ParseU8(EncU8(v, k)) == Done(v, k) { IntReads(1, v, k); }
    forall v: u32, k: Bytes ensures ParseU32(EncU32(v, k)) == Done(v, k) { IntReads(4, v, k); }
    forall v: u64, k: Bytes ensures ParseU64(EncU64(v, k)) == Done(v, k) { IntReads(8, v, k); }
  }

  lemma StrReads(s: Str, k: Bytes)
    ensures ParseStr(EncStr(s, k)) == Done(s, k)
  {
    FixedRead();
    assert (s + k)[..|s|] == s && (s + k)[|s|..] == k;
  }

  lemma OptReads<T(!new)>(rd: Reader, enc: (T, Bytes) -> Bytes, p: Bytes -> Parse<T>, o: Option<T>, k: Bytes)
    requires Reads(enc, p)
    ensures ParseOpt(rd, p, EncOpt(enc, o, k)) == Done(o, k)
  {
    FixedRead();
  }

  lemma {:induction false} ManyReads<T(!new)>(enc: (T, Bytes) -> Bytes, p: Bytes -> Parse<T>, xs: seq<T>, k: Bytes)
    requires Reads(enc, p)
    ensures ParseMany(p, |xs|, EncAll(enc, xs, k)) == Done(xs, k)
    decreases |xs|
  {
    if xs != [] {
      ManyReads(enc, p, xs[1..], k);
      assert xs == [xs[0]] + xs[1..];
    }
  }

  lemma VecReads<T(!new)>(enc: (T, Bytes) -> Bytes, p: Bytes -> Parse<T>, xs: Vec<T>, k: Bytes)
    requires Reads(enc, p)
    ensures ParseVec(p, EncVec(enc, xs, k)) == Done(xs, k)
  {
    FixedRead();
    ManyReads(enc, p, xs, k);
  }

  /** The field types every message is built from. */
  lemma FieldsRead(rd: Reader)
    ensures forall v: u32, k: Bytes {:trigger EncU32(v, k)} :: ParseU32(EncU32(v, k)) == Done(v, k)
    ensures forall v: u64, k: Bytes {:trigger EncU64(v, k)} :: ParseU64(EncU64(v, k)) == Done(v, k)
    ensures forall v: bool, k: Bytes {:trigger EncBool(v, k)} :: ParseFlag(rd, EncBool(v, k)) == Done(v, k)
    ensures forall s: Str, k: Bytes {:trigger EncStr(s, k)} :: ParseStr(EncStr(s, k)) == Done(s, k)
    ensures forall o: Option<u64>, k: Bytes {:trigger EncOptU64(o, k)} :: ParseOptU64(rd, EncOptU64(o, k)) == Done(o, k)
    ensures forall o: Option<Str>, k: Bytes {:trigger EncOptStr(o, k)} :: ParseOptStr(rd, EncOptStr(o, k)) == Done(o, k)
    ensures Reads(EncStr, ParseStr)
  {
    FixedRead();
    forall s: Str, k: Bytes ensures ParseStr(EncStr(s, k)) == Done(s, k) { StrReads(s, k); }
    forall o: Option<u64>, k: Bytes ensures ParseOptU64(rd, EncOptU64(o, k)) == Done(o, k) {
      OptReads(rd, EncU64, ParseU64, o, k);
    }
    forall o: Option<Str>, k: Bytes ensures ParseOptStr(rd, EncOptStr(o, k)) == Done(o, k) {
      OptReads(rd, EncStr, ParseStr, o, k);
    }
  }

  predicate OneField(op: DriveOp<Str>) {
    op.Open? || op.Stat? || op.Mkdir? || op.Poll? || op.Watch? || op.Meta? || op.Backlinks? || op.Versions?
  }

  lemma NarrowOpReads(op: DriveOp<Str>, k: Bytes)
    requires OneField(op)
    ensures ParseOp(EncOp(op, k)) == Done(op, k)
  {
    if op.Open? || op.Watch? || op.Poll? {
      PathlessOpReads(op, k);
    } else if op.Stat? || op.Mkdir? {
      PathOpReads(op, k);
    } else {
      NodeOpReads(op, k);
    }
  }

  lemma PathlessOpReads(op: DriveOp<Str>, k: Bytes)
    requires op.Open? || op.Watch? || op.Poll?
    ensures ParseOp(EncOp(op, k)) == Done(op, k)
  {
    FieldsRead(Host);
  }

  lemma NodeOpReads(op: DriveOp<Str>, k: Bytes)
    requires op.Meta? || op.Backlinks? || op.Versions?
    ensures ParseOp(EncOp(op, k)) == Done(op, k)
  {
    FieldsRead(Host);
  }

  lemma PathOpReads(op: DriveOp<Str>, k: Bytes)
    requires op.Stat? || op.Mkdir?
    ensures ParseOp(EncOp(op, k)) == Done(op, k)
  {
    FieldsRead(Host);
  }

  lemma ListOpReads(op: DriveOp<Str>, k: Bytes)
    requires op.List?
    ensures ParseOp(EncOp(op, k)) == Done(op, k)
  {
    FieldsRead(Host);
  }

  lemma RangeOpReads(op: DriveOp<Str>, k: Bytes)
    requires op.Read? || op.Delete?
    ensures ParseOp(EncOp(op, k)) == Done(op, k)
  {
    FieldsRead(Host);
  }

  lemma PairOpReads(op: DriveOp<Str>, k: Bytes)
    requires op.Move? || op.Copy?
    ensures ParseOp(EncOp(op, k)) == Done(op, k)
  {
    FieldsRead(Host);
  }

  lemma PropOpReads(op: DriveOp<Str>, k: Bytes)
    requires op.SetProp?
    ensures ParseOp(EncOp(op, k)) == Done(op, k)
  {
    FieldsRead(Host);
  }

  lemma TagOpReads(op: DriveOp<Str>, k: Bytes)
    requires op.Tag?
    ensures ParseOp(EncOp(op, k)) == Done(op, k)
  {
    FieldsRead(Host);
  }

  lemma WriteOpReads(op: DriveOp<Str>, k: Bytes)
    requires op.Write?
    ensures ParseOp(EncOp(op, k)) == Done(op, k)
  {
    FieldsRead(Host);
  }

  lemma LinkOpReads(op: DriveOp<Str>, k: Bytes)
    requires op.Link?
    ensures ParseOp(EncOp(op, k)) == Done(op, k)
  {
    FieldsRead(Host);
  }

  lemma ShareOpReads(op: DriveOp<Str>, k: Bytes)
    requires op.Share?
    ensures ParseOp(EncOp(op, k)) == Done(op, k)
  {
    FieldsRead(Host);
    VecReads(EncStr, ParseStr, op.abilities, EncCaveats(op.caveats, k));
  }

  lemma OpReads(op: DriveOp<Str>, k: Bytes)
    ensures ParseOp(EncOp(op, k)) == Done(op, k)
  {
    if OneField(op) {
      NarrowOpReads(op, k);
    } else if op.SetProp? {
      PropOpReads(op, k);
    } else if op.Tag? {
      TagOpReads(op, k);
    } else if op.Write? {
      WriteOpReads(op, k);
    } else if op.Link? {
      LinkOpReads(op, k);
    } else if op.Share? {
      ShareOpReads(op, k);
    } else if op.Move? || op.Copy? {
      PairOpReads(op, k);
    } else if op.List? {
      ListOpReads(op, k);
    } else {
      RangeOpReads(op, k);
    }
  }

  /** The host reads back every request the SDK prints, whatever follows it. */
  lemma ReqRoundTrip(r: DriveReq<Str>, k: Bytes)
    ensures ParseReq(EncReq(r, k)) == Done(r, k)
  {
    FieldsRead(Host);
    OpReads(r.op, k);
  }

  lemma EntryReads(rd: Reader)
    ensures Reads(EncEntry, EntryParser(rd))
  {
    forall e: Entry<Str>, k: Bytes
      ensures ParseEntry(rd, EncEntry(e, k)) == Done(e, k)
    {
      OneEntryReads(rd, e, k);
    }
  }

  lemma OneEntryReads(rd: Reader, e: Entry<Str>, k: Bytes)
    ensures ParseEntry(rd, EncEntry(e, k)) == Done(e, k)
  {
    FieldsRead(rd);
  }

  lemma ChunkReads()
    ensures Reads(EncChunk, ParseChunk)
  {
    FieldsRead(Host);
  }

  lemma PairReads()
    ensures Reads(EncPair, ParsePair)
  {
    FieldsRead(Host);
  }

  lemma ChangeKindReads(rd: Reader)
    requires !rd.Host?
    ensures forall c: ChangeKind<Str>, k: Bytes {:trigger EncChangeKind(c, k)} ::
      ParseChangeKind(rd, EncChangeKind(c, k)) == Done(c, k)
  {
    FieldsRead(rd);
  }

  lemma ChangeReads(rd: Reader)
    requires !rd.Host?
    ensures Reads(EncChange, ChangeParser(rd))
  {
    ChangeKindReads(rd);
    FieldsRead(rd);
  }

  lemma VersionReads(rd: Reader)
    ensures Reads(EncVersion, VersionParser(rd))
  {
    FieldsRead(rd);
  }

  lemma PlanReads(rd: Reader, p: ReadPlan<Str>, k: Bytes)
    ensures ParsePlan(rd, EncPlan(p, k)) == Done(p, k)
  {
    FieldsRead(rd);
    ChunkReads();
    VecReads(EncChunk, ParseChunk, p.chunks, EncBool(p.encrypted, EncOptStr(p.keyHint, k)));
  }

  lemma QuotaReads(rd: Reader, q: Quota<Str>, k: Bytes)
    ensures ParseQuota(rd, EncQuota(q, k)) == Done(q, k)
  {
    FieldsRead(rd);
  }

  lemma MetaReads(rd: Reader, ok: DriveOk<Str>, k: Bytes)
    requires ok.MetaOk?
    ensures ParseOk(rd, EncOk(ok, k)) == Done(ok, k)
  {
    FieldsRead(rd);
    PairReads();
    VecReads(EncPair, ParsePair, ok.props, EncVec(EncStr, ok.tags, EncVec(EncPair, ok.links, k)));
    VecReads(EncStr, ParseStr, ok.tags, EncVec(EncPair, ok.links, k));
    VecReads(EncPair, ParsePair, ok.links, k);
  }

  lemma ListingReads(rd: Reader, ok: DriveOk<Str>, k: Bytes)
    requires ok.Listing?
    ensures ParseOk(rd, EncOk(ok, k)) == Done(ok, k)
  {
    FieldsRead(rd);
    EntryReads(rd);
    VecReads(EncEntry, EntryParser(rd), ok.entries, EncOptStr(ok.nextCursor, k));
  }

  lemma ChangesRead(rd: Reader, ok: DriveOk<Str>, k: Bytes)
    requires !rd.Host? && ok.Changes?
    ensures ParseOk(rd, EncOk(ok, k)) == Done(ok, k)
  {
    FieldsRead(rd);
    ChangeReads(rd);
    VecReads(EncChange, ChangeParser(rd), ok.changes, EncU64(ok.newCursor, k));
  }

  lemma BacklinksRead(rd: Reader, ok: DriveOk<Str>, k: Bytes)
    requires ok.BacklinksOk?
    ensures ParseOk(rd, EncOk(ok, k)) == Done(ok, k)
  {
    FieldsRead(rd);
    PairReads();
    VecReads(EncPair, ParsePair, ok.sources, k);
  }

  lemma VersionsRead(rd: Reader, ok: DriveOk<Str>, k: Bytes)
    requires ok.VersionsOk?
    ensures ParseOk(rd, EncOk(ok, k)) == Done(ok, k)
  {
    FieldsRead(rd);
    VersionReads(rd);
    VecReads(EncVersion, VersionParser(rd), ok.versions, k);
  }

  lemma RecordsRead(rd: Reader, ok: DriveOk<Str>, k: Bytes)
    requires ok.Opened? || ok.EntryOk? || ok.PlanOk?
    ensures ParseOk(rd, EncOk(ok, k)) == Done(ok, k)
  {
    FieldsRead(rd);
    EntryReads(rd);
    match ok
    case Opened(_, _, abilities, quota) =>
      VecReads(EncStr, ParseStr, abilities, EncQuota(quota, k));
      QuotaReads(rd, quota, k);
    case EntryOk(entry) => assert ParseEntry(rd, EncEntry(entry, k)) == EntryParser(rd)(EncEntry(entry, k));
    case PlanOk(plan) => PlanReads(rd, plan, k);
  }

  lemma ScalarsRead(rd: Reader, ok: DriveOk<Str>, k: Bytes)
    requires ok.Written? || ok.Made? || ok.DeletedOk? || ok.Shared? || ok.Watching?
    ensures ParseOk(rd, EncOk(ok, k)) == Done(ok, k)
  {
    FieldsRead(rd);
  }

  lemma OkReads(rd: Reader, ok: DriveOk<Str>, k: Bytes)
    requires !rd.Host?
    ensures ParseOk(rd, EncOk(ok, k)) == Done(ok, k)
  {
    if ok.Opened? || ok.EntryOk? || ok.PlanOk? {
      RecordsRead(rd, ok, k);
    } else if ok.Listing? {
      ListingReads(rd, ok, k);
    } else if ok.Changes? {
      ChangesRead(rd, ok, k);
    } else if ok.BacklinksOk? {
      BacklinksRead(rd, ok, k);
    } else if ok.VersionsOk? {
      VersionsRead(rd, ok, k);
    } else if ok.MetaOk? {
      MetaReads(rd, ok, k);
    } else {
      ScalarsRead(rd, ok, k);
    }
  }

  lemma ErrReads(rd: Reader, e: DriveErr<Str>, k: Bytes)
    ensures ParseErr(rd, EncErr(e, k)) == Done(Refused(e), k)
  {
    FieldsRead(rd);
  }

  /** Both SDKs read back every reply the host prints, whatever follows it. */
  lemma ReplyRoundTrip(rd: Reader, r: Result<DriveOk<Str>, DriveErr<Str>>, k: Bytes)
    requires !rd.Host?
    ensures ParseReply(rd, EncReply(r, k)) == Done(SeenOf(r), k)
  {
    FieldsRead(rd);
    match r
    case Success(ok) => OkReads(rd, ok, k);
    case Failure(err) => ErrReads(rd, err, k);
  }

  // ----- canonical form: the host accepts a request only in the form the SDK prints -----

  lemma {:induction false} IntCanonical(n: nat, s: Bytes)
    ensures ParseInt(n, s).Done? ==> s == EncInt(n, ParseInt(n, s).value, ParseInt(n, s).rest)
  {
    if n != 0 && s != [] && ParseInt(n, s).Done? {
      IntCanonical(n - 1, s[1..]);
      var v := ParseInt(n - 1, s[1..]).value;
      assert (s[0] + 256 * v) % 256 == s[0] && (s[0] + 256 * v) / 256 == v;
      assert s == [s[0]] + s[1..];
    }
  }

  lemma FixedCanonical()
    ensures forall s: Bytes {:trigger ParseU8(s)} :: ParseU8(s).Done? ==> s == EncU8(ParseU8(s).value, ParseU8(s).rest)
    ensures Canonical(EncU32, ParseU32) && Canonical(EncU64, ParseU64)
    ensures forall s: Bytes {:trigger ParseU32(s)} ::
      ParseU32(s).Done? ==> s == EncU32(ParseU32(s).value, ParseU32(s).rest)
    ensures forall s: Bytes {:trigger ParseU64(s)} ::
      ParseU64(s).Done? ==> s == EncU64(ParseU64(s).value, ParseU64(s).rest)
  {
    forall n: nat, s: Bytes
      ensures ParseInt(n, s).Done? ==> s == EncInt(n, ParseInt(n, s).value, ParseInt(n, s).rest) { IntCanonical(n, s); }
  }

  lemma FlagCanonical(s: Bytes)
    ensures ParseFlag(Host, s).Done? ==> s == EncBool(ParseFlag(Host, s).value, ParseFlag(Host, s).rest)
  {
    FixedCanonical();
  }

  lemma StrCanonical(s: Bytes)
    ensures ParseStr(s).Done? ==> s == EncStr(ParseStr(s).value, ParseStr(s).rest)
  {
    FixedCanonical();
    if ParseStr(s).Done? {
      var t := ParseU64(s).rest;
      assert t == ParseStr(s).value + ParseStr(s).rest;
    }
  }

  lemma OptCanonical<T>(enc: (T, Bytes) -> Bytes, p: Bytes -> Parse<T>, s: Bytes)
    requires Canonical(enc, p)
    ensures ParseOpt(Host, p, s).Done? ==> s == EncOpt(enc, ParseOpt(Host, p, s).value, ParseOpt(Host, p, s).rest)
  {
    FlagCanonical(s);
  }

  lemma {:induction false} ManyCanonical<T>(enc: (T, Bytes) -> Bytes, p: Bytes -> Parse<T>, n: nat, s: Bytes)
    requires Canonical(enc, p)
    ensures ParseMany(p, n, s).Done? ==> s == EncAll(enc, ParseMany(p, n, s).value, ParseMany(p, n, s).rest)
  {
    if n != 0 && p(s).Done? {
      ManyCanonical(enc, p, n - 1, p(s).rest);
      if ParseMany(p, n, s).Done? {
        var xs := ParseMany(p, n, s).value;
        assert xs[0] == p(s).value && xs[1..] == ParseMany(p, n - 1, p(s).rest).value;
      }
    }
  }

  lemma VecCanonical<T>(enc: (T, Bytes) -> Bytes, p: Bytes -> Parse<T>, s: Bytes)
    requires Canonical(enc, p)
    ensures ParseVec(p, s).Done? ==> s == EncVec(enc, ParseVec(p, s).value, ParseVec(p, s).rest)
  {
    FixedCanonical();
    if ParseU64(s).Done? { ManyCanonical(enc, p, ParseU64(s).value, ParseU64(s).rest); }
  }

  lemma FieldsCanonical()
    ensures forall s: Bytes {:trigger ParseU32(s)} ::
      ParseU32(s).Done? ==> s == EncU32(ParseU32(s).value, ParseU32(s).rest)
    ensures forall s: Bytes {:trigger ParseU64(s)} ::
      ParseU64(s).Done? ==> s == EncU64(ParseU64(s).value, ParseU64(s).rest)
    ensures forall s: Bytes {:trigger ParseFlag(Host, s)} ::
      ParseFlag(Host, s).Done? ==> s == EncBool(ParseFlag(Host, s).value, ParseFlag(Host, s).rest)
    ensures forall s: Bytes {:trigger ParseStr(s)} ::
      ParseStr(s).Done? ==> s == EncStr(ParseStr(s).value, ParseStr(s).rest)
    ensures forall s: Bytes {:trigger ParseOptU64(Host, s)} ::
      ParseOptU64(Host, s).Done? ==> s == EncOptU64(ParseOptU64(Host, s).value, ParseOptU64(Host, s).rest)
    ensures forall s: Bytes {:trigger ParseOptStr(Host, s)} ::
      ParseOptStr(Host, s).Done? ==> s == EncOptStr(ParseOptStr(Host, s).value, ParseOptStr(Host, s).rest)
    ensures forall s: Bytes {:trigger ParseVec(ParseStr, s)} ::
      ParseVec(ParseStr, s).Done? ==> s == EncVec(EncStr, ParseVec(ParseStr, s).value, ParseVec(ParseStr, s).rest)
  {
    FixedCanonical();
    forall s: Bytes
      ensures ParseStr(s).Done? ==> s == EncStr(ParseStr(s).value, ParseStr(s).rest) { StrCanonical(s); }
    assert Canonical(EncStr, ParseStr);
    forall s: Bytes
      ensures ParseFlag(Host, s).Done?
        ==> s == EncBool(ParseFlag(Host, s).value, ParseFlag(Host, s).rest) { FlagCanonical(s); }
    forall s: Bytes
      ensures ParseOptU64(Host, s).Done? ==> s == EncOptU64(ParseOptU64(Host, s).value, ParseOptU64(Host, s).rest) {
      OptCanonical(EncU64, ParseU64, s);
    }
    forall s: Bytes
      ensures ParseOptStr(Host, s).Done? ==> s == EncOptStr(ParseOptStr(Host, s).value, ParseOptStr(Host, s).rest) {
      OptCanonical(EncStr, ParseStr, s);
    }
    forall s: Bytes
      ensures ParseVec(ParseStr, s).Done?
        ==> s == EncVec(EncStr, ParseVec(ParseStr, s).value, ParseVec(ParseStr, s).rest) {
      VecCanonical(EncStr, ParseStr, s);
    }
  }

  lemma CaveatsCanonical(s: Bytes)
    ensures var r := ParseCaveats(Host, s); r.Done? ==> s == EncCaveats(r.value, r.rest)
  {
    FieldsCanonical();
  }

  lemma ShareCanonical(path: Str, second: Str, s: Bytes)
    ensures var r := ParseLong(9, path, second, s);
            r.Done? ==> EncU32(9, EncStr(path, EncStr(second, s))) == EncOp(r.value, r.rest)
  {
    FieldsCanonical();
    if ParseVec(ParseStr, s).Done? { CaveatsCanonical(ParseVec(ParseStr, s).rest); }
  }

  lemma TaggedCanonical(v: u32, path: Str, second: Str, s: Bytes)
    requires v != 4 && v != 9 && v != 15
    ensures var r := ParseLong(v, path, second, s);
            r.Done? ==> EncU32(v, EncStr(path, EncStr(second, s))) == EncOp(r.value, r.rest)
  {
    FieldsCanonical();
  }

  lemma LongCanonical(v: u32, path: Str, second: Str, s: Bytes)
    ensures var r := ParseLong(v, path, second, s);
            r.Done? ==> EncU32(v, EncStr(path, EncStr(second, s))) == EncOp(r.value, r.rest)
  {
    if v == 9 {
      ShareCanonical(path, second, s);
    } else if v == 4 || v == 15 {
      FieldsCanonical();
    } else {
      TaggedCanonical(v, path, second, s);
    }
  }

  lemma WideCanonical(v: u32, path: Str, s: Bytes)
    ensures var r := ParseWide(v, path, s);
            r.Done? ==> EncU32(v, EncStr(path, s)) == EncOp(r.value, r.rest)
  {
    FieldsCanonical();
    if v != 2 && v != 3 && v != 8 && ParseStr(s).Done? {
      LongCanonical(v, path, ParseStr(s).value, ParseStr(s).rest);
    }
  }

  lemma OpCanonical(s: Bytes)
    ensures ParseOp(s).Done? ==> s == EncOp(ParseOp(s).value, ParseOp(s).rest)
  {
    FieldsCanonical();
    if ParseOp(s).Done? {
      var v, t := ParseU32(s).value, ParseU32(s).rest;
      assert s == EncU32(v, t);
      if v != 0 && v != 10 && v != 11 {
        var path, u := ParseStr(t).value, ParseStr(t).rest;
        assert t == EncStr(path, u);
        WideCanonical(v, path, u);
      }
    }
  }

  /** The host accepts no other spelling of a request: parsing and printing are inverse both ways. */
  lemma ReqCanonical(s: Bytes)
    ensures ParseReq(s).Done? ==> s == EncReq(ParseReq(s).value, ParseReq(s).rest)
  {
    FieldsCanonical();
    if ParseReq(s).Done? {
      OpCanonical(ParseStr(ParseStr(s).rest).rest);
    }
  }

  // ----- what follows a message does not change how it is read -----

  lemma {:induction false} IntExtends(n: nat, s: Bytes, e: Bytes)
    ensures ParseInt(n, s).Done? ==> ParseInt(n, s + e) == Done(ParseInt(n, s).value, ParseInt(n, s).rest + e)
  {
    if n != 0 && s != [] {
      IntExtends(n - 1, s[1..], e);
      assert (s + e)[1..] == s[1..] + e;
    }
  }

  lemma StrExtends(s: Bytes, e: Bytes)
    ensures ParseStr(s).Done? ==> ParseStr(s + e) == Done(ParseStr(s).value, ParseStr(s).rest + e)
  {
    IntExtends(8, s, e);
    if ParseStr(s).Done? {
      var n, t := ParseU64(s).value, ParseU64(s).rest;
      assert (t + e)[..n] == t[..n] && (t + e)[n..] == t[n..] + e;
    }
  }

  lemma {:induction false} ManyExtends<T>(p: Bytes -> Parse<T>, n: nat, s: Bytes, e: Bytes)
    requires Extends(p)
    ensures ParseMany(p, n, s).Done? ==>
      ParseMany(p, n, s + e) == Done(ParseMany(p, n, s).value, ParseMany(p, n, s).rest + e)
  {
    if n != 0 && p(s).Done? {
      ManyExtends(p, n - 1, p(s).rest, e);
    }
  }

  lemma VecExtends<T>(p: Bytes -> Parse<T>)
    requires Extends(p)
    ensures forall s: Bytes, e: Bytes {:trigger ParseVec(p, s + e)} ::
      ParseVec(p, s).Done? ==> ParseVec(p, s + e) == Done(ParseVec(p, s).value, ParseVec(p, s).rest + e)
  {
    forall s: Bytes, e: Bytes
      ensures ParseVec(p, s).Done? ==> ParseVec(p, s + e) == Done(ParseVec(p, s).value, ParseVec(p, s).rest + e)
    {
      IntExtends(8, s, e);
      if ParseU64(s).Done? { ManyExtends(p, ParseU64(s).value, ParseU64(s).rest, e); }
    }
  }

  lemma FieldsExtend(rd: Reader)
    ensures Extends(ParseStr)
    ensures forall s: Bytes, e: Bytes {:trigger ParseU32(s + e)} ::
      ParseU32(s).Done? ==> ParseU32(s + e) == Done(ParseU32(s).value, ParseU32(s).rest + e)
    ensures forall s: Bytes, e: Bytes {:trigger ParseU64(s + e)} ::
      ParseU64(s).Done? ==> ParseU64(s + e) == Done(ParseU64(s).value, ParseU64(s).rest + e)
    ensures forall s: Bytes, e: Bytes {:trigger ParseStr(s + e)} ::
      ParseStr(s).Done? ==> ParseStr(s + e) == Done(ParseStr(s).value, ParseStr(s).rest + e)
    ensures forall s: Bytes, e: Bytes {:trigger ParseFlag(rd, s + e)} ::
      ParseFlag(rd, s).Done? ==> ParseFlag(rd, s + e) == Done(ParseFlag(rd, s).value, ParseFlag(rd, s).rest + e)
    ensures forall s: Bytes, e: Bytes {:trigger ParseOptU64(rd, s + e)} ::
      ParseOptU64(rd, s).Done? ==> ParseOptU64(rd, s + e) == Done(ParseOptU64(rd, s).value, ParseOptU64(rd, s).rest + e)
    ensures forall s: Bytes, e: Bytes {:trigger ParseOptStr(rd, s + e)} ::
      ParseOptStr(rd, s).Done? ==> ParseOptStr(rd, s + e) == Done(ParseOptStr(rd, s).value, ParseOptStr(rd, s).rest + e)
  {
    forall n: nat, s: Bytes, e: Bytes {:trigger ParseInt(n, s + e)}
      ensures ParseInt(n, s).Done? ==> ParseInt(n, s + e) == Done(ParseInt(n, s).value, ParseInt(n, s).rest + e) {
      IntExtends(n, s, e);
    }
    forall s: Bytes, e: Bytes
      ensures ParseStr(s).Done?
        ==> ParseStr(s + e) == Done(ParseStr(s).value, ParseStr(s).rest + e) { StrExtends(s, e); }
  }

  lemma KindsExtend(rd: Reader)
    ensures forall s: Bytes, e: Bytes {:trigger ParseKind(rd, s + e)} ::
      ParseKind(rd, s).Done? ==> ParseKind(rd, s + e) == Done(ParseKind(rd, s).value, ParseKind(rd, s).rest + e)
    ensures forall s: Bytes, e: Bytes {:trigger ParseChangeKind(rd, s + e)} ::
      ParseChangeKind(rd, s).Done? ==>
        ParseChangeKind(rd, s + e) == Done(ParseChangeKind(rd, s).value, ParseChangeKind(rd, s).rest + e)
  {
    FieldsExtend(rd);
  }

  lemma EntryExtends(rd: Reader, s: Bytes, e: Bytes)
    requires ParseEntry(rd, s).Done?
    ensures ParseEntry(rd, s + e) == Done(ParseEntry(rd, s).value, ParseEntry(rd, s).rest + e)
  {
    FieldsExtend(rd);
    KindsExtend(rd);
  }

  lemma ChangeExtends(rd: Reader, s: Bytes, e: Bytes)
    requires ParseChange(rd, s).Done?
    ensures ParseChange(rd, s + e) == Done(ParseChange(rd, s).value, ParseChange(rd, s).rest + e)
  {
    FieldsExtend(rd);
    KindsExtend(rd);
  }

  lemma ListedExtend(rd: Reader)
    ensures Extends(EntryParser(rd)) && Extends(ChangeParser(rd))
  {
    forall s: Bytes, e: Bytes | ParseEntry(rd, s).Done?
      ensures ParseEntry(rd, s + e) == Done(ParseEntry(rd, s).value, ParseEntry(rd, s).rest + e)
      { EntryExtends(rd, s, e); }
    forall s: Bytes, e: Bytes | ParseChange(rd, s).Done?
      ensures ParseChange(rd, s + e) == Done(ParseChange(rd, s).value, ParseChange(rd, s).rest + e)
      { ChangeExtends(rd, s, e); }
  }

  lemma SmallsExtend(rd: Reader)
    ensures Extends(ParseChunk) && Extends(ParsePair) && Extends(VersionParser(rd))
  {
    PairsExtend(rd);
    VersionsExtend(rd);
  }

  lemma PairsExtend(rd: Reader)
    ensures Extends(ParseChunk) && Extends(ParsePair)
  {
    FieldsExtend(rd);
  }

  lemma VersionsExtend(rd: Reader)
    ensures Extends(VersionParser(rd))
  {
    forall s: Bytes, e: Bytes | ParseVersion(rd, s).Done?
      ensures ParseVersion(rd, s + e) == Done(ParseVersion(rd, s).value, ParseVersion(rd, s).rest + e)
    {
      VersionExtends(rd, s, e);
    }
  }

  lemma VersionExtends(rd: Reader, s: Bytes, e: Bytes)
    requires ParseVersion(rd, s).Done?
    ensures ParseVersion(rd, s + e) == Done(ParseVersion(rd, s).value, ParseVersion(rd, s).rest + e)
  {
    FieldsExtend(rd);
  }

  lemma PlanExtends(rd: Reader, s: Bytes, e: Bytes)
    ensures ParsePlan(rd, s).Done? ==> ParsePlan(rd, s + e) == Done(ParsePlan(rd, s).value, ParsePlan(rd, s).rest + e)
  {
    FieldsExtend(rd);
    SmallsExtend(rd);
    VecExtends(ParseChunk);
  }

  lemma ErrExtends(rd: Reader, s: Bytes, e: Bytes)
    ensures ParseErr(rd, s).Done? ==> ParseErr(rd, s + e) == Done(ParseErr(rd, s).value, ParseErr(rd, s).rest + e)
  {
    FieldsExtend(rd);
  }

  lemma QuotaExtends(rd: Reader, s: Bytes, e: Bytes)
    ensures ParseQuota(rd, s).Done?
      ==> ParseQuota(rd, s + e) == Done(ParseQuota(rd, s).value, ParseQuota(rd, s).rest + e)
  {
    FieldsExtend(rd);
  }

  lemma ListsExtend(rd: Reader, s: Bytes, e: Bytes)
    requires ParseOk(rd, s).Done? && ParseU32(s).value in {2, 8, 10, 11, 12}
    ensures ParseOk(rd, s + e) == Done(ParseOk(rd, s).value, ParseOk(rd, s).rest + e)
  {
    if ParseU32(s).value in {2, 8} { EntriesExtend(rd, s, e); } else { PairListsExtend(rd, s, e); }
  }

  lemma EntriesExtend(rd: Reader, s: Bytes, e: Bytes)
    requires ParseOk(rd, s).Done? && ParseU32(s).value in {2, 8}
    ensures ParseOk(rd, s + e) == Done(ParseOk(rd, s).value, ParseOk(rd, s).rest + e)
  {
    FieldsExtend(rd);
    ListedExtend(rd);
    VecExtends(EntryParser(rd));
    VecExtends(ChangeParser(rd));
  }

  lemma PairListsExtend(rd: Reader, s: Bytes, e: Bytes)
    requires ParseOk(rd, s).Done? && ParseU32(s).value in {10, 11, 12}
    ensures ParseOk(rd, s + e) == Done(ParseOk(rd, s).value, ParseOk(rd, s).rest + e)
  {
    if ParseU32(s).value == 10 { MetaExtends(rd, s, e); } else { HistoriesExtend(rd, s, e); }
  }

  lemma MetaExtends(rd: Reader, s: Bytes, e: Bytes)
    requires ParseOk(rd, s).Done? && ParseU32(s).value == 10
    ensures ParseOk(rd, s + e) == Done(ParseOk(rd, s).value, ParseOk(rd, s).rest + e)
  {
    FieldsExtend(rd);
    PairsExtend(rd);
    VecExtends(ParseStr);
    VecExtends(ParsePair);
  }

  lemma HistoriesExtend(rd: Reader, s: Bytes, e: Bytes)
    requires ParseOk(rd, s).Done? && ParseU32(s).value in {11, 12}
    ensures ParseOk(rd, s + e) == Done(ParseOk(rd, s).value, ParseOk(rd, s).rest + e)
  {
    FieldsExtend(rd);
    SmallsExtend(rd);
    VecExtends(ParsePair);
    VecExtends(VersionParser(rd));
  }

  lemma RecordsExtend(rd: Reader, s: Bytes, e: Bytes)
    requires ParseOk(rd, s).Done? && ParseU32(s).value !in {2, 8, 10, 11, 12}
    ensures ParseOk(rd, s + e) == Done(ParseOk(rd, s).value, ParseOk(rd, s).rest + e)
  {
    FieldsExtend(rd);
    var v, t := ParseU32(s).value, ParseU32(s).rest;
    if v == 0 {
      VecExtends(ParseStr);
      QuotaExtends(rd, ParseVec(ParseStr, ParseU64(ParseStr(t).rest).rest).rest, e);
    } else if v == 1 {
      EntryExtends(rd, t, e);
    } else if v == 3 {
      PlanExtends(rd, t, e);
    }
  }

  /** Whatever a reader makes of a reply it makes of the same bytes followed by anything. */
  lemma ReplyExtends(rd: Reader, s: Bytes, e: Bytes)
    requires ParseReply(rd, s).Done?
    ensures ParseReply(rd, s + e) == Done(ParseReply(rd, s).value, ParseReply(rd, s).rest + e)
  {
    FieldsExtend(rd);
    if ParseU32(s).value == 0 {
      var t := ParseU32(s).rest;
      if ParseU32(t).value in {2, 8, 10, 11, 12} {
        ListsExtend(rd, t, e);
      } else {
        RecordsExtend(rd, t, e);
      }
    } else {
      ErrExtends(rd, ParseU32(s).rest, e);
    }
  }

  // ----- a printed message is a block of bytes put before what follows -----

  /** Printing before `k + e` is printing before `k`, then `e`. */
  ghost predicate Prepends<T(!new)>(enc: (T, Bytes) -> Bytes) {
    forall x: T, k: Bytes, e: Bytes {:trigger enc(x, k + e)} :: enc(x, k + e) == enc(x, k) + e
  }

  lemma {:induction false} IntPrepends(n: nat, v: nat, k: Bytes, e: Bytes)
    ensures EncInt(n, v, k + e) == EncInt(n, v, k) + e
  {
    if n != 0 {
      IntPrepends(n - 1, v / 256, k, e);
      assert [v % 256] + (EncInt(n - 1, v / 256, k) + e) == ([v % 256] + EncInt(n - 1, v / 256, k)) + e;
    }
  }

  lemma StrPrepends(s: Str, k: Bytes, e: Bytes)
    ensures EncStr(s, k + e) == EncStr(s, k) + e
  {
    assert s + (k + e) == (s + k) + e;
    IntPrepends(8, |s|, s + k, e);
  }

  lemma {:induction false} AllPrepends<T(!new)>(enc: (T, Bytes) -> Bytes, xs: seq<T>, k: Bytes, e: Bytes)
    requires Prepends(enc)
    ensures EncAll(enc, xs, k + e) == EncAll(enc, xs, k) + e
    decreases |xs|
  {
    if xs != [] { AllPrepends(enc, xs[1..], k, e); }
  }

  lemma VecPrepends<T(!new)>(enc: (T, Bytes) -> Bytes)
    requires Prepends(enc)
    ensures forall xs: Vec<T>, k: Bytes, e: Bytes {:trigger EncVec(enc, xs, k + e)} ::
      EncVec(enc, xs, k + e) == EncVec(enc, xs, k) + e
  {
    forall xs: Vec<T>, k: Bytes, e: Bytes ensures EncVec(enc, xs, k + e) == EncVec(enc, xs, k) + e {
      AllPrepends(enc, xs, k, e);
      IntPrepends(8, |xs|, EncAll(enc, xs, k), e);
    }
  }

  lemma FieldsPrepend()
    ensures forall v: u32, k: Bytes, e: Bytes {:trigger EncU32(v, k + e)} :: EncU32(v, k + e) == EncU32(v, k) + e
    ensures forall v: u64, k: Bytes, e: Bytes {:trigger EncU64(v, k + e)} :: EncU64(v, k + e) == EncU64(v, k) + e
    ensures forall v: bool, k: Bytes, e: Bytes {:trigger EncBool(v, k + e)} :: EncBool(v, k + e) == EncBool(v, k) + e
    ensures forall s: Str, k: Bytes, e: Bytes {:trigger EncStr(s, k + e)} :: EncStr(s, k + e) == EncStr(s, k) + e
    ensures forall o: Option<u64>, k: Bytes, e: Bytes {:trigger EncOptU64(o, k + e)} ::
      EncOptU64(o, k + e) == EncOptU64(o, k) + e
    ensures forall o: Option<Str>, k: Bytes, e: Bytes {:trigger EncOptStr(o, k + e)} ::
      EncOptStr(o, k + e) == EncOptStr(o, k) + e
    ensures forall xs: Vec<Str>, k: Bytes, e: Bytes {:trigger EncVec(EncStr, xs, k + e)} ::
      EncVec(EncStr, xs, k + e) == EncVec(EncStr, xs, k) + e
  {
    forall n: nat, v: nat, k: Bytes, e: Bytes {:trigger EncInt(n, v, k + e)}
      ensures EncInt(n, v, k + e) == EncInt(n, v, k) + e { IntPrepends(n, v, k, e); }
    forall s: Str, k: Bytes, e: Bytes ensures EncStr(s, k + e) == EncStr(s, k) + e { StrPrepends(s, k, e); }
    assert Prepends(EncStr);
    VecPrepends(EncStr);
  }

  /** A request is its own bytes followed by whatever it is printed before. */
  lemma ReqPrepends(r: DriveReq<Str>, k: Bytes, e: Bytes)
    ensures EncReq(r, k + e) == EncReq(r, k) + e
  {
    FieldsPrepend();
    OpPrepends(r.op, k, e);
  }

  lemma OpPrepends(op: DriveOp<Str>, k: Bytes, e: Bytes)
    ensures EncOp(op, k + e) == EncOp(op, k) + e
  {
    FieldsPrepend();
  }

  lemma RecordsPrepend()
    ensures Prepends(EncEntry) && Prepends(EncChunk) && Prepends(EncPair) && Prepends(EncChange) && Prepends(EncVersion)
  {
    EntryPrepends();
    SmallsPrepend();
  }

  lemma EntryPrepends()
    ensures Prepends(EncEntry)
  {
    FieldsPrepend();
  }

  lemma SmallsPrepend()
    ensures Prepends(EncChunk) && Prepends(EncPair) && Prepends(EncChange) && Prepends(EncVersion)
  {
    FieldsPrepend();
  }

  lemma OkPrepends(ok: DriveOk<Str>, k: Bytes, e: Bytes)
    ensures EncOk(ok, k + e) == EncOk(ok, k) + e
  {
    if ok.EntryOk? || ok.Listing? || ok.Changes? {
      EntriesPrepend(ok, k, e);
    } else if ok.PlanOk? || ok.MetaOk? || ok.BacklinksOk? || ok.VersionsOk? {
      PairsPrepend(ok, k, e);
    } else {
      FieldsPrepend();
    }
  }

  lemma EntriesPrepend(ok: DriveOk<Str>, k: Bytes, e: Bytes)
    requires ok.EntryOk? || ok.Listing? || ok.Changes?
    ensures EncOk(ok, k + e) == EncOk(ok, k) + e
  {
    FieldsPrepend();
    RecordsPrepend();
    VecPrepends(EncEntry);
    VecPrepends(EncChange);
  }

  lemma PairsPrepend(ok: DriveOk<Str>, k: Bytes, e: Bytes)
    requires ok.PlanOk? || ok.MetaOk? || ok.BacklinksOk? || ok.VersionsOk?
    ensures EncOk(ok, k + e) == EncOk(ok, k) + e
  {
    if ok.MetaOk? {
      MetaPrepends(ok, k, e);
    } else if ok.PlanOk? {
      PlanPrepends(ok.plan, k, e);
      FieldsPrepend();
    } else {
      FieldsPrepend();
      SmallsPrepend();
      VecPrepends(EncPair);
      VecPrepends(EncVersion);
    }
  }

  lemma PlanPrepends(p: ReadPlan<Str>, k: Bytes, e: Bytes)
    ensures EncPlan(p, k + e) == EncPlan(p, k) + e
  {
    FieldsPrepend();
    SmallsPrepend();
    VecPrepends(EncChunk);
  }

  lemma MetaPrepends(ok: DriveOk<Str>, k: Bytes, e: Bytes)
    requires ok.MetaOk?
    ensures EncOk(ok, k + e) == EncOk(ok, k) + e
  {
    FieldsPrepend();
    SmallsPrepend();
    VecPrepends(EncPair);
    var links := EncVec(EncPair, ok.links, k);
    assert EncVec(EncPair, ok.links, k + e) == links + e;
    var tags := EncVec(EncStr, ok.tags, links);
    assert EncVec(EncStr, ok.tags, links + e) == tags + e;
    assert EncVec(EncPair, ok.props, tags + e) == EncVec(EncPair, ok.props, tags) + e;
  }

  lemma ErrPrepends(err: DriveErr<Str>, k: Bytes, e: Bytes)
    ensures EncErr(err, k + e) == EncErr(err, k) + e
  {
    FieldsPrepend();
  }

  /** ... and so is a reply. */
  lemma ReplyPrepends(r: Result<DriveOk<Str>, DriveErr<Str>>, k: Bytes, e: Bytes)
    ensures EncReply(r, k + e) == EncReply(r, k) + e
  {
    FieldsPrepend();
    match r
    case Success(ok) => OkPrepends(ok, k, e);
    case Failure(err) => ErrPrepends(err, k, e);
  }

  // ----- prefix-freeness and truncation -----

  /** No request's bytes begin another request's bytes. */
  lemma ReqsArePrefixFree(r: DriveReq<Str>, r': DriveReq<Str>)
    ensures EncReq(r, []) <= EncReq(r', []) <==> r == r'
  {
    if EncReq(r, []) <= EncReq(r', []) {
      var tail := EncReq(r', [])[|EncReq(r, [])|..];
      ReqPrepends(r, [], tail);
      assert [] + tail == tail;
      assert EncReq(r, tail) == EncReq(r', []);
      ReqRoundTrip(r, tail);
      ReqRoundTrip(r', []);
    }
  }

  /** Cut short anywhere, a request is rejected. */
  lemma TruncatedReqRejected(r: DriveReq<Str>, n: nat)
    requires n < |EncReq(r, [])|
    ensures ParseReq(EncReq(r, [])[..n]).Stuck?
  {
    var whole := EncReq(r, []);
    var s, tail := whole[..n], whole[n..];
    if ParseReq(s).Done? {
      var seen, rest := ParseReq(s).value, ParseReq(s).rest;
      ReqCanonical(s);
      ReqPrepends(seen, rest, tail);
      assert s + tail == whole;
      ReqRoundTrip(r, []);
      ReqRoundTrip(seen, rest + tail);
    }
  }

  lemma SameBytesSameReply(r: Result<DriveOk<Str>, DriveErr<Str>>, k: Bytes,
                           r': Result<DriveOk<Str>, DriveErr<Str>>, k': Bytes)
    requires EncReply(r, k) == EncReply(r', k')
    ensures r == r' && k == k'
  {
    ReplyRoundTrip(Python, r, k);
    ReplyRoundTrip(Python, r', k');
  }

  /** No reply's bytes begin another reply's bytes. */
  lemma RepliesArePrefixFree(r: Result<DriveOk<Str>, DriveErr<Str>>, r': Result<DriveOk<Str>, DriveErr<Str>>)
    ensures EncReply(r, []) <= EncReply(r', []) <==> r == r'
  {
    var whole, whole' := EncReply(r, []), EncReply(r', []);
    if whole <= whole' {
      var tail := whole'[|whole|..];
      assert whole + tail == whole';
      ReplyThenTail(r, tail);
      SameBytesSameReply(r, tail, r', []);
    }
  }

  lemma ReplyThenTail(r: Result<DriveOk<Str>, DriveErr<Str>>, tail: Bytes)
    ensures EncReply(r, []) + tail == EncReply(r, tail)
  {
    ReplyPrintedOn(r, [], tail, tail);
  }

  lemma ReplyPrintedOn(r: Result<DriveOk<Str>, DriveErr<Str>>, k: Bytes, e: Bytes, joined: Bytes)
    requires joined == k + e
    ensures EncReply(r, joined) == EncReply(r, k) + e
  {
    ReplyPrepends(r, k, e);
  }

  /** A message that is read to its end cannot be read when it is cut, if what follows a message does
      not change how it is read. */
  lemma CutIsStuck<T>(p: Bytes -> Parse<T>, whole: Bytes, v: T, n: nat)
    requires p(whole) == Done(v, []) && n < |whole|
    requires var cut, rest := whole[..n], whole[n..];
             p(cut).Done? ==> p(cut + rest) == Done(p(cut).value, p(cut).rest + rest)
    ensures p(whole[..n]).Stuck?
  {
    assert whole[..n] + whole[n..] == whole;
  }

  /** Cut short anywhere, a reply is rejected by both SDKs. */
  lemma TruncatedReplyRejected(rd: Reader, r: Result<DriveOk<Str>, DriveErr<Str>>, n: nat)
    requires !rd.Host? && n < |EncReply(r, [])|
    ensures ParseReply(rd, EncReply(r, [])[..n]).Stuck?
  {
    var whole := EncReply(r, []);
    ReplyRoundTrip(rd, r, []);
    if ParseReply(rd, whole[..n]).Done? { ReplyExtends(rd, whole[..n], whole[n..]); }
    CutIsStuck((s: Bytes) => ParseReply(rd, s), whole, SeenOf(r), n);
  }

  // ----- tags that no printer here prints -----

  /** What an SDK makes of a newer host: an unknown kind of success is an error, an unknown error is a
      refusal of no known kind, an unknown change is kept as such. */
  lemma NewerHost(rd: Reader, v: u32, k: Bytes)
    requires !rd.Host?
    ensures v > 12 ==> ParseReply(rd, EncU32(0, EncU32(v, k))) == Stuck
    ensures v > 9 ==> ParseReply(rd, EncU32(1, EncU32(v, k))) == Done(RefusedUnknown, k)
    ensures v > 3 ==> ParseChangeKind(rd, EncU32(v, k)) == Done(Unrecognised, k)
  {
    FixedRead();
  }

  /** Any reply tag but 0 is a failure, any flag but 0 is set. */
  lemma LenientSdk(rd: Reader, v: u32, b: u8, e: DriveErr<Str>, k: Bytes)
    requires !rd.Host?
    ensures v > 0 ==> ParseReply(rd, EncU32(v, EncErr(e, k))) == Done(Refused(e), k)
    ensures ParseFlag(rd, EncU8(b, k)) == Done(b != 0, k)
  {
    FixedRead();
    ErrReads(rd, e, k);
  }

  /** The library that reads for the host has no such tolerance. */
  lemma StrictHost(v: u32, b: u8, e: DriveErr<Str>, k: Bytes)
    ensures v > 17 ==> ParseOp(EncU32(v, k)) == Stuck
    ensures b > 1 ==> ParseFlag(Host, EncU8(b, k)) == Stuck
    ensures v > 1 ==> ParseKind(Host, EncU32(v, k)) == Stuck && ParseReply(Host, EncU32(v, k)) == Stuck
    ensures v > 3 ==> ParseChangeKind(Host, EncU32(v, k)) == Stuck
    ensures v > 9 ==> ParseErr(Host, EncU32(v, k)) == Stuck
    ensures ParseReply(Host, EncU32(1, EncErr(e, k))) == Done(Refused(e), k)
  {
    FixedRead();
    ErrReads(Host, e, k);
  }
}
