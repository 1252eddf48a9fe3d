/**
 Where the Python and the JavaScript SDK read the same reply (sdk/py/cedrive.py `_dec_reply`,
 sdk/js/cedrive.js `decodeReply`). They differ in what kind an entry is when its tag is above 1, and in
 text that begins with the UTF-8 byte order mark, which JavaScript's decoder drops.

 Text is compared as UTF-8; malformed text, which no host sends, is out of the picture.
 */
module SdkAgreement {
  import opened Wrappers
  import opened WireTypes
  import opened Wire
  import opened WireProofs
  import opened Text

  // ----- replies with the kinds left out -----

  function Blank(e: Entry<Str>): Entry<Str> {
    e.(kind := File)
  }

  function BlankAll(es: seq<Entry<Str>>): (r: seq<Entry<Str>>)
    ensures |r| == |es| && forall k :: 0 <= k < |es| ==> r[k] == Blank(es[k])
  {
    if es == [] then [] else [Blank(es[0])] + BlankAll(es[1..])
  }

  function BlankOk(ok: DriveOk<Str>): DriveOk<Str> {
    match ok
    case EntryOk(e) => EntryOk(Blank(e))
    case Listing(es, next) => Listing(BlankAll(es), next)
    case _ => ok
  }

  function BlankSeen(seen: Seen): Seen {
    match seen
    case Okay(ok) => Okay(BlankOk(ok))
    case _ => seen
  }

  // ----- the kind tags a reply carries -----

  /** The kind tag of the entry at the head of `s`. */
  function KindTag(s: Bytes): Parse<u32> {
    var (path, t) :- ParseStr(s);
    var (tag, u) :- ParseU32(t);
    var (entry, w) :- ParseEntry(Python, s);
    Done(tag, w)
  }

  /** The kind tags in the body of an Ok reply, and in a reply. */
  function OkTags(s: Bytes): seq<u32> {
    match ParseU32(s)
    case Done(1, t) => (match KindTag(t) case Done(tag, _) => [tag] case Stuck => [])
    case Done(2, t) => (match ParseVec(KindTag, t) case Done(tags, _) => tags case Stuck => [])
    case _ => []
  }

  function KindTags(s: Bytes): seq<u32> {
    match ParseU32(s)
    case Done(0, t) => OkTags(t)
    case _ => []
  }

  /** No tag but the two a host sends. */
  predicate Known(tags: seq<u32>) {
    forall k :: 0 <= k < |tags| ==> tags[k] < 2
  }

  // ----- entries -----

  /** Python's reading `p`, JavaScript's `j` and the tag `t` go together. */
  predicate EntriesGoTogether(p: Parse<Entry<Str>>, j: Parse<Entry<Str>>, t: Parse<u32>) {
    && (p.Done? <==> j.Done?) && (p.Done? <==> t.Done?)
    && (p.Done? ==> p.rest == j.rest == t.rest && Blank(p.value) == Blank(j.value)
                    && (p.value == j.value <==> t.value < 2))
  }

  /** What an entry holds after its kind. */
  function ParseAttributes(rd: Reader, path: Str, kind: EntryKind, s: Bytes): Parse<Entry<Str>> {
    var (size, s3) :- ParseU64(s);
    var (mtime, s4) :- ParseU64(s3);
    var (etag, s5) :- ParseStr(s4);
    var (node, s6) :- ParseStr(s5);
    var (cid, s7) :- ParseOptStr(rd, s6);
    var (doc, s8) :- ParseOptStr(rd, s7);
    Done(Entry(path, kind, size, mtime, etag, node, cid, doc), s8)
  }

  lemma EntryByAttributes(rd: Reader, s: Bytes)
    ensures ParseEntry(rd, s) ==
            match ParseStr(s)
            case Stuck => Stuck
            case Done(path, t) =>
              match ParseKind(rd, t)
              case Stuck => Stuck
              case Done(kind, u) => ParseAttributes(rd, path, kind, u)
  {
  }

  lemma AttributesAgree(path: Str, a: EntryKind, b: EntryKind, s: Bytes)
    ensures var p, j := ParseAttributes(Python, path, a, s), ParseAttributes(JavaScript, path, b, s);
            && (p.Done? <==> j.Done?)
            && (p.Done? ==> p.rest == j.rest && Blank(p.value) == Blank(j.value) && (p.value == j.value <==> a == b))
  {
    forall s: Bytes
      ensures ParseOptStr(Python, s) == ParseOptStr(JavaScript, s) { OptStrSame(s); }
  }

  lemma EntryAgrees(s: Bytes)
    ensures EntriesGoTogether(ParseEntry(Python, s), ParseEntry(JavaScript, s), KindTag(s))
  {
    EntryByAttributes(Python, s);
    EntryByAttributes(JavaScript, s);
    if ParseStr(s).Done? && ParseU32(ParseStr(s).rest).Done? {
      var path, t := ParseStr(s).value, ParseStr(s).rest;
      AttributesAgree(path, ParseKind(Python, t).value, ParseKind(JavaScript, t).value, ParseU32(t).rest);
    }
  }

  lemma OptStrSame(s: Bytes)
    ensures ParseOptStr(Python, s) == ParseOptStr(JavaScript, s)
  {
  }

  /** ... and so do whole lists of them. */
  predicate ListsGoTogether(p: Parse<seq<Entry<Str>>>, j: Parse<seq<Entry<Str>>>, t: Parse<seq<u32>>) {
    && (p.Done? <==> j.Done?) && (p.Done? <==> t.Done?)
    && (p.Done? ==> p.rest == j.rest == t.rest && BlankAll(p.value) == BlankAll(j.value)
                    && (p.value == j.value <==> Known(t.value)))
  }

  lemma ConsGoesTogether(a: Entry<Str>, as': seq<Entry<Str>>, b: Entry<Str>, bs: seq<Entry<Str>>, t: u32, ts: seq<u32>)
    requires Blank(a) == Blank(b) && (a == b <==> t < 2)
    requires BlankAll(as') == BlankAll(bs) && (as' == bs <==> Known(ts))
    ensures BlankAll([a] + as') == BlankAll([b] + bs)
    ensures [a] + as' == [b] + bs <==> Known([t] + ts)
  {
    assert ([a] + as')[1..] == as' && ([b] + bs)[1..] == bs;
    assert ([a] + as')[0] == a && ([b] + bs)[0] == b;
    assert Known([t] + ts) <==> t < 2 && Known(ts) by {
      if Known([t] + ts) {
        assert ([t] + ts)[0] == t;
        forall k | 0 <= k < |ts| ensures ts[k] < 2 { assert ([t] + ts)[k + 1] == ts[k]; }
      }
    }
  }

  lemma {:induction false} ManyGoTogether(p: Bytes -> Parse<Entry<Str>>, j: Bytes -> Parse<Entry<Str>>,
                                          t: Bytes -> Parse<u32>, n: nat, s: Bytes)
    requires forall s :: EntriesGoTogether(p(s), j(s), t(s))
    ensures ListsGoTogether(ParseMany(p, n, s), ParseMany(j, n, s), ParseMany(t, n, s))
  {
    if n > 0 && p(s).Done? {
      var rest := p(s).rest;
      ManyGoTogether(p, j, t, n - 1, rest);
      var ps, js, ts := ParseMany(p, n - 1, rest), ParseMany(j, n - 1, rest), ParseMany(t, n - 1, rest);
      if ps.Done? { ConsGoesTogether(p(s).value, ps.value, j(s).value, js.value, t(s).value, ts.value); }
    }
  }

  lemma ManyAgree(n: nat, s: Bytes)
    ensures ListsGoTogether(ParseMany(EntryParser(Python), n, s), ParseMany(EntryParser(JavaScript), n, s),
                            ParseMany(KindTag, n, s))
  {
    forall s: Bytes
      ensures EntriesGoTogether(EntryParser(Python)(s), EntryParser(JavaScript)(s), KindTag(s))
    {
      EntryAgrees(s);
    }
    ManyGoTogether(EntryParser(Python), EntryParser(JavaScript), KindTag, n, s);
  }

  // ----- everything else -----

  lemma {:induction false} SameMany<T>(p: Bytes -> Parse<T>, q: Bytes -> Parse<T>, n: nat, s: Bytes)
    requires forall s :: p(s) == q(s)
    ensures ParseMany(p, n, s) == ParseMany(q, n, s)
  {
    if n > 0 && p(s).Done? { SameMany(p, q, n - 1, p(s).rest); }
  }

  lemma ChangesSame(s: Bytes)
    ensures ParseVec(ChangeParser(Python), s) == ParseVec(ChangeParser(JavaScript), s)
  {
    forall s: Bytes
      ensures ChangeParser(Python)(s) == ChangeParser(JavaScript)(s) {}
    if ParseU64(s).Done? {
      SameMany(ChangeParser(Python), ChangeParser(JavaScript), ParseU64(s).value, ParseU64(s).rest);
    }
  }

  lemma VersionsSame(s: Bytes)
    ensures ParseVec(VersionParser(Python), s) == ParseVec(VersionParser(JavaScript), s)
  {
    forall s: Bytes
      ensures VersionParser(Python)(s) == VersionParser(JavaScript)(s) {}
    if ParseU64(s).Done? {
      SameMany(VersionParser(Python), VersionParser(JavaScript), ParseU64(s).value, ParseU64(s).rest);
    }
  }

  /** Two readings of an Ok body, and the tags in it. */
  predicate OksGoTogether(p: Parse<DriveOk<Str>>, j: Parse<DriveOk<Str>>, tags: seq<u32>) {
    && (p.Done? <==> j.Done?)
    && (p.Done? ==> p.rest == j.rest && BlankOk(p.value) == BlankOk(j.value) && (p.value == j.value <==> Known(tags)))
  }

  lemma KnownOne(tag: u32)
    ensures Known([tag]) <==> tag < 2
  {
    if Known([tag]) { assert [tag][0] < 2; }
  }

  lemma EntryReplyAgrees(s: Bytes)
    requires ParseU32(s).Done? && ParseU32(s).value == 1
    ensures OksGoTogether(ParseOk(Python, s), ParseOk(JavaScript, s), OkTags(s))
  {
    var t := ParseU32(s).rest;
    EntryAgrees(t);
    if KindTag(t).Done? {
      assert OkTags(s) == [KindTag(t).value];
      KnownOne(KindTag(t).value);
    }
    assert ParseOk(Python, s).Done? <==> ParseEntry(Python, t).Done?;
    assert ParseOk(JavaScript, s).Done? <==> ParseEntry(JavaScript, t).Done?;
  }

  lemma ListingReplyAgrees(s: Bytes)
    requires ParseU32(s).Done? && ParseU32(s).value == 2
    ensures OksGoTogether(ParseOk(Python, s), ParseOk(JavaScript, s), OkTags(s))
  {
    var t := ParseU32(s).rest;
    if ParseU64(t).Done? {
      var n, u := ParseU64(t).value, ParseU64(t).rest;
      ManyAgree(n, u);
      if ParseMany(KindTag, n, u).Done? { OptStrSame(ParseMany(KindTag, n, u).rest); }
    }
  }

  lemma PlansSame(s: Bytes)
    ensures ParsePlan(Python, s) == ParsePlan(JavaScript, s)
    ensures ParseQuota(Python, s) == ParseQuota(JavaScript, s)
  {
  }

  lemma OtherReplySame(s: Bytes)
    requires ParseU32(s).Done? && ParseU32(s).value != 1 && ParseU32(s).value != 2
    ensures ParseOk(Python, s) == ParseOk(JavaScript, s)
  {
    var v, t := ParseU32(s).value, ParseU32(s).rest;
    if v == 0 {
      OpenedSame(s);
    } else if v == 3 {
      PlansSame(t);
    } else if v == 8 {
      ChangesSame(t);
    } else if v == 12 {
      VersionsSame(t);
    }
  }

  lemma OpenedSame(s: Bytes)
    requires ParseU32(s).Done? && ParseU32(s).value == 0
    ensures ParseOk(Python, s) == ParseOk(JavaScript, s)
  {
    var t := ParseU32(s).rest;
    if ParseStr(t).Done? && ParseU64(ParseStr(t).rest).Done? {
      var u := ParseU64(ParseStr(t).rest).rest;
      if ParseVec(ParseStr, u).Done? { PlansSame(ParseVec(ParseStr, u).rest); }
    }
  }

  lemma OksAgree(s: Bytes)
    ensures OksGoTogether(ParseOk(Python, s), ParseOk(JavaScript, s), OkTags(s))
  {
    if ParseU32(s).Done? {
      var v := ParseU32(s).value;
      if v == 1 {
        EntryReplyAgrees(s);
      } else if v == 2 {
        ListingReplyAgrees(s);
      } else {
        OtherReplySame(s);
        assert OkTags(s) == [];
      }
    }
  }

  /** On any bytes, both SDKs raise or neither; when neither does, they stop at the same byte and see the
      same reply but for entry kinds, and the kinds are the same exactly when every tag is 0 or 1. */
  lemma SdksAgreeButOnKinds(s: Bytes)
    ensures var p, j := ParseReply(Python, s), ParseReply(JavaScript, s);
            && (p.Done? <==> j.Done?)
            && (p.Done? ==> p.rest == j.rest && BlankSeen(p.value) == BlankSeen(j.value)
                            && (p.value == j.value <==> Known(KindTags(s))))
  {
    if ParseU32(s).Done? {
      if ParseU32(s).value == 0 {
        OksAgree(ParseU32(s).rest);
      } else {
        assert KindTags(s) == [];
      }
    }
  }

  // ----- with the text decoded -----

  lemma BlankEntries(a: seq<Entry<Str>>, b: seq<Entry<Str>>)
    requires BlankAll(a) == BlankAll(b)
    ensures |a| == |b| && forall k :: 0 <= k < |a| ==> Blank(a[k]) == Blank(b[k])
  {
    assert |BlankAll(a)| == |BlankAll(b)|;
    forall k | 0 <= k < |a|
      ensures Blank(a[k]) == Blank(b[k])
    {
      assert BlankAll(a)[k] == BlankAll(b)[k];
    }
  }

  lemma EntryShownTwoWays(p: Entry<Str>, j: Entry<Str>)
    requires Blank(p) == Blank(j)
    ensures p == UnmarkEntry(j) <==> p == j && UnmarkEntry(p) == p
  {
  }

  lemma EntriesShownTwoWays(p: Vec<Entry<Str>>, j: Vec<Entry<Str>>)
    requires BlankAll(p) == BlankAll(j)
    ensures p == Each(UnmarkEntry, j) <==> p == j && Each(UnmarkEntry, p) == p
  {
    BlankEntries(p, j);
    forall k | 0 <= k < |p|
      ensures p[k] == UnmarkEntry(j[k]) <==> p[k] == j[k] && UnmarkEntry(p[k]) == p[k]
    {
      EntryShownTwoWays(p[k], j[k]);
    }
    if p == Each(UnmarkEntry, j) {
      forall k | 0 <= k < |p|
        ensures p[k] == j[k] && UnmarkEntry(p[k]) == p[k]
      {
        assert p[k] == Each(UnmarkEntry, j)[k];
      }
    }
    if p == j && Each(UnmarkEntry, p) == p {
      assert Each(UnmarkEntry, j) == p;
    }
  }

  lemma SeenShownTwoWays(p: Seen, j: Seen)
    requires BlankSeen(p) == BlankSeen(j)
    ensures p == UnmarkSeen(j) <==> p == j && UnmarkSeen(p) == p
  {
    if p.Okay? && p.ok.EntryOk? {
      EntryShownTwoWays(p.ok.entry, j.ok.entry);
    } else if p.Okay? && p.ok.Listing? {
      EntriesShownTwoWays(p.ok.entries, j.ok.entries);
    } else {
      assert p == j;
    }
  }

  /** As the SDKs hand replies on: both raise or neither, and they agree exactly when every kind tag is 0
      or 1 and no text in the reply begins with a byte order mark. */
  lemma SdksAgreeIff(s: Bytes)
    ensures var p, j := View(Python, s), View(JavaScript, s);
            && (p.Done? <==> j.Done?)
            && (p.Done? ==> p.rest == j.rest && (p.value == j.value <==> Known(KindTags(s)) && Plain(Texts(p.value))))
  {
    SdksAgreeButOnKinds(s);
    var p, j := ParseReply(Python, s), ParseReply(JavaScript, s);
    if p.Done? {
      SeenShownTwoWays(p.value, j.value);
      SeenFixes(p.value);
    }
  }

  /** A tag that begins with the mark, as a client can put it on a node. */
  lemma MarkedTagIsReadTwoWays(node: Str, tag: Str, k: Bytes)
    requires Marked(tag) && !Marked(node)
    ensures var s, dropped: Str := EncReply(Success(MetaOk(node, [], [tag], [])), k), tag[3..];
            && View(Python, s) == Done(Okay(MetaOk(node, [], [tag], [])), k)
            && View(JavaScript, s) == Done(Okay(MetaOk(node, [], [dropped], [])), k)
  {
    ReplyRoundTrip(Python, Success(MetaOk(node, [], [tag], [])), k);
    ReplyRoundTrip(JavaScript, Success(MetaOk(node, [], [tag], [])), k);
    var tags: Vec<Str>, dropped: Str, none: Vec<(Str, Str)> := [tag], tag[3..], [];
    assert Each(Unmark, tags) == [dropped];
    assert Each(UnmarkPair, none) == none;
  }

  /** An entry with any kind tag. */
  function EncTagged(e: Entry<Str>, tag: u32, k: Bytes): Bytes {
    EncStr(e.path, EncU32(tag, EncU64(e.size, EncU64(e.mtimeMs, EncStr(e.etag, EncStr(e.nodeId,
      EncOptStr(e.objectCid, EncOptStr(e.docId, k))))))))
  }

  lemma TaggedReads(rd: Reader, e: Entry<Str>, tag: u32, k: Bytes)
    requires tag > 1 && !rd.Host?
    ensures ParseEntry(rd, EncTagged(e, tag, k)) == Done(e.(kind := if rd.Python? then Dir else File), k)
  {
    FieldsRead(rd);
  }

  /** Any entry tagged above 1 is a directory to Python and a file to JavaScript. */
  lemma OddEntryIsReadTwoWays(e: Entry<Str>, tag: u32, k: Bytes)
    requires tag > 1
    ensures var s := EncU32(0, EncU32(1, EncTagged(e, tag, k)));
            && ParseReply(Python, s) == Done(Okay(EntryOk(e.(kind := Dir))), k)
            && ParseReply(JavaScript, s) == Done(Okay(EntryOk(e.(kind := File))), k)
  {
    var u := EncTagged(e, tag, k);
    OkTagReads(0, EncU32(1, u));
    OkTagReads(1, u);
    TaggedReads(Python, e, tag, k);
    TaggedReads(JavaScript, e, tag, k);
  }

  lemma OkTagReads(v: u32, k: Bytes)
    ensures ParseU32(EncU32(v, k)) == Done(v, k)
  {
    FixedRead();
  }
}
