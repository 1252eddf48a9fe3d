/**
 The text of a reply as the SDKs hand it on (sdk/py/cedrive.py `_Dec.str`, sdk/js/cedrive.js `Dec.str`).
 Python decodes the bytes as they are. JavaScript's `TextDecoder` first drops a UTF-8 byte order mark.

 Text is compared as UTF-8; malformed text, which no host sends, is out of the picture.
 */
module Text {
  import opened Wrappers
  import opened WireTypes
  import opened Wire
  import WireProofs

  /** Begins with U+FEFF, in UTF-8. */
  predicate Marked(s: Str) {
    |s| >= 3 && s[0] == 0xEF && s[1] == 0xBB && s[2] == 0xBF
  }

  /** `new TextDecoder().decode(..)` drops one such mark. */
  function Unmark(s: Str): Str {
    if Marked(s) then s[3..] else s
  }

  function UnmarkOpt(o: Option<Str>): Option<Str> {
    match o
    case None => o
    case Some(s) => Some(Unmark(s))
  }

  function Each<T>(f: T -> T, xs: Vec<T>): (r: Vec<T>)
    ensures |r| == |xs| && forall k :: 0 <= k < |xs| ==> r[k] == f(xs[k])
  {
    seq(|xs|, k requires 0 <= k < |xs| => f(xs[k]))
  }

  function UnmarkEntry(e: Entry<Str>): Entry<Str> {
    e.(path := Unmark(e.path), etag := Unmark(e.etag), nodeId := Unmark(e.nodeId),
       objectCid := UnmarkOpt(e.objectCid), docId := UnmarkOpt(e.docId))
  }

  function UnmarkChunk(c: ChunkRef<Str>): ChunkRef<Str> {
    c.(cid := Unmark(c.cid))
  }

  function UnmarkPlan(p: ReadPlan<Str>): ReadPlan<Str> {
    p.(objectCid := Unmark(p.objectCid), chunks := Each(UnmarkChunk, p.chunks), keyHint := UnmarkOpt(p.keyHint))
  }

  function UnmarkChange(c: Change<Str>): Change<Str> {
    var kind := match c.kind case Moved(origin) => Moved(Unmark(origin)) case _ => c.kind;
    c.(path := Unmark(c.path), nodeId := Unmark(c.nodeId), kind := kind, etag := Unmark(c.etag))
  }

  function UnmarkQuota(q: Quota<Str>): Quota<Str> {
    q.(pricePerGibMonth := Unmark(q.pricePerGibMonth), pricePerGibEgress := Unmark(q.pricePerGibEgress))
  }

  function UnmarkVersion(v: VersionInfo<Str>): VersionInfo<Str> {
    v.(locator := Unmark(v.locator))
  }

  function UnmarkPair(p: (Str, Str)): (Str, Str) {
    (Unmark(p.0), Unmark(p.1))
  }

  function UnmarkOk(ok: DriveOk<Str>): DriveOk<Str> {
    match ok
    case Opened(root, seqNo, abilities, quota) =>
      Opened(Unmark(root), seqNo, Each(Unmark, abilities), UnmarkQuota(quota))
    case EntryOk(e) => EntryOk(UnmarkEntry(e))
    case Listing(es, next) => Listing(Each(UnmarkEntry, es), UnmarkOpt(next))
    case PlanOk(p) => PlanOk(UnmarkPlan(p))
    case Written(etag, node, version) => Written(Unmark(etag), Unmark(node), version)
    case Made(node) => Made(Unmark(node))
    case DeletedOk => DeletedOk
    case Shared(chain) => Shared(Unmark(chain))
    case Changes(cs, cursor) => Changes(Each(UnmarkChange, cs), cursor)
    case Watching(topic, cursor) => Watching(Unmark(topic), cursor)
    case MetaOk(node, props, tags, links) =>
      MetaOk(Unmark(node), Each(UnmarkPair, props), Each(Unmark, tags), Each(UnmarkPair, links))
    case BacklinksOk(sources) => BacklinksOk(Each(UnmarkPair, sources))
    case VersionsOk(vs) => VersionsOk(Each(UnmarkVersion, vs))
  }

  function UnmarkSeen(seen: Seen): Seen {
    match seen
    case Okay(ok) => Okay(UnmarkOk(ok))
    case Refused(Conflict(etag)) => Refused(Conflict(Unmark(etag)))
    case Refused(Internal(reason)) => Refused(Internal(Unmark(reason)))
    case _ => seen
  }

  /** Every text in a reply. */
  function OptTexts(o: Option<Str>): seq<Str> {
    match o
    case None => []
    case Some(s) => [s]
  }

  function All<T>(texts: T -> seq<Str>, xs: seq<T>): seq<Str> {
    if xs == [] then [] else texts(xs[0]) + All(texts, xs[1..])
  }

  function EntryTexts(e: Entry<Str>): seq<Str> {
    [e.path, e.etag, e.nodeId] + OptTexts(e.objectCid) + OptTexts(e.docId)
  }

  function ChangeTexts(c: Change<Str>): seq<Str> {
    [c.path, c.nodeId, c.etag] + match c.kind case Moved(origin) => [origin] case _ => []
  }

  function PairTexts(p: (Str, Str)): seq<Str> {
    [p.0, p.1]
  }

  function ChunkTexts(c: ChunkRef<Str>): seq<Str> {
    [c.cid]
  }

  function VersionTexts(v: VersionInfo<Str>): seq<Str> {
    [v.locator]
  }

  function OkTexts(ok: DriveOk<Str>): seq<Str> {
    match ok
    case Opened(root, _, abilities, q) => [root, q.pricePerGibMonth, q.pricePerGibEgress] + abilities
    case EntryOk(e) => EntryTexts(e)
    case Listing(es, next) => OptTexts(next) + All(EntryTexts, es)
    case PlanOk(p) => [p.objectCid] + OptTexts(p.keyHint) + All(ChunkTexts, p.chunks)
    case Written(etag, node, _) => [etag, node]
    case Made(node) => [node]
    case DeletedOk => []
    case Shared(chain) => [chain]
    case Changes(cs, _) => All(ChangeTexts, cs)
    case Watching(topic, _) => [topic]
    case MetaOk(node, props, tags, links) => [node] + tags + All(PairTexts, props) + All(PairTexts, links)
    case BacklinksOk(sources) => All(PairTexts, sources)
    case VersionsOk(vs) => All(VersionTexts, vs)
  }

  function Texts(seen: Seen): seq<Str> {
    match seen
    case Okay(ok) => OkTexts(ok)
    case Refused(Conflict(etag)) => [etag]
    case Refused(Internal(reason)) => [reason]
    case _ => []
  }

  predicate Plain(texts: seq<Str>) {
    forall t :: t in texts ==> !Marked(t)
  }

  // ----- dropping marks changes a reply exactly when one of its texts has one -----

  lemma UnmarkFixes(s: Str)
    ensures Unmark(s) == s <==> !Marked(s)
  {
    if Marked(s) { assert |Unmark(s)| < |s|; }
  }

  lemma PlainJoins(a: seq<Str>, b: seq<Str>)
    ensures Plain(a + b) <==> Plain(a) && Plain(b)
  {
    assert forall t :: t in a + b <==> t in a || t in b;
  }

  lemma {:induction false} EachFixes<T>(f: T -> T, texts: T -> seq<Str>, xs: Vec<T>)
    requires forall x :: x in xs ==> (f(x) == x <==> Plain(texts(x)))
    ensures Each(f, xs) == xs <==> Plain(All(texts, xs))
  {
    if xs != [] {
      EachFixes(f, texts, xs[1..]);
      PlainJoins(texts(xs[0]), All(texts, xs[1..]));
      assert Each(f, xs) == [f(xs[0])] + Each(f, xs[1..]);
      assert xs == [xs[0]] + xs[1..];
    }
  }

  lemma EachTextFixes(xs: Vec<Str>)
    ensures Each(Unmark, xs) == xs <==> Plain(xs)
  {
    forall x | x in xs ensures Unmark(x) == x <==> !Marked(x) { UnmarkFixes(x); }
    if !Plain(xs) {
      var k :| 0 <= k < |xs| && Marked(xs[k]);
      assert Each(Unmark, xs)[k] != xs[k];
    }
  }

  lemma EntryFixes(e: Entry<Str>)
    ensures UnmarkEntry(e) == e <==> Plain(EntryTexts(e))
  {
    forall t: Str ensures Unmark(t) == t <==> !Marked(t) { UnmarkFixes(t); }
    PlainJoins([e.path, e.etag, e.nodeId] + OptTexts(e.objectCid), OptTexts(e.docId));
    PlainJoins([e.path, e.etag, e.nodeId], OptTexts(e.objectCid));
  }

  lemma ChangeFixes(c: Change<Str>)
    ensures UnmarkChange(c) == c <==> Plain(ChangeTexts(c))
  {
    forall t: Str ensures Unmark(t) == t <==> !Marked(t) { UnmarkFixes(t); }
    PlainJoins([c.path, c.nodeId, c.etag], match c.kind case Moved(origin) => [origin] case _ => []);
  }

  lemma SmallFixes()
    ensures forall p :: UnmarkPair(p) == p <==> Plain(PairTexts(p))
    ensures forall c :: UnmarkChunk(c) == c <==> Plain(ChunkTexts(c))
    ensures forall v :: UnmarkVersion(v) == v <==> Plain(VersionTexts(v))
    ensures forall o :: UnmarkOpt(o) == o <==> Plain(OptTexts(o))
  {
    forall t: Str ensures Unmark(t) == t <==> !Marked(t) { UnmarkFixes(t); }
  }

  lemma EntriesFix(es: Vec<Entry<Str>>)
    ensures Each(UnmarkEntry, es) == es <==> Plain(All(EntryTexts, es))
  {
    forall e | e in es ensures UnmarkEntry(e) == e <==> Plain(EntryTexts(e)) { EntryFixes(e); }
    EachFixes(UnmarkEntry, EntryTexts, es);
  }

  lemma ChangesFix(cs: Vec<Change<Str>>)
    ensures Each(UnmarkChange, cs) == cs <==> Plain(All(ChangeTexts, cs))
  {
    forall c | c in cs ensures UnmarkChange(c) == c <==> Plain(ChangeTexts(c)) { ChangeFixes(c); }
    EachFixes(UnmarkChange, ChangeTexts, cs);
  }

  lemma PairsFix(ps: Vec<(Str, Str)>)
    ensures Each(UnmarkPair, ps) == ps <==> Plain(All(PairTexts, ps))
  {
    SmallFixes();
    EachFixes(UnmarkPair, PairTexts, ps);
  }

  lemma VersionsFix(vs: Vec<VersionInfo<Str>>)
    ensures Each(UnmarkVersion, vs) == vs <==> Plain(All(VersionTexts, vs))
  {
    SmallFixes();
    EachFixes(UnmarkVersion, VersionTexts, vs);
  }

  lemma PlanFixes(p: ReadPlan<Str>)
    ensures UnmarkPlan(p) == p <==> Plain([p.objectCid] + OptTexts(p.keyHint) + All(ChunkTexts, p.chunks))
  {
    SmallFixes();
    UnmarkFixes(p.objectCid);
    EachFixes(UnmarkChunk, ChunkTexts, p.chunks);
    PlainJoins([p.objectCid] + OptTexts(p.keyHint), All(ChunkTexts, p.chunks));
    PlainJoins([p.objectCid], OptTexts(p.keyHint));
  }

  lemma MetaFixes(ok: DriveOk<Str>)
    requires ok.MetaOk?
    ensures UnmarkOk(ok) == ok <==> Plain(OkTexts(ok))
  {
    UnmarkFixes(ok.nodeId);
    PairsFix(ok.props);
    EachTextFixes(ok.tags);
    PairsFix(ok.links);
    PlainJoins([ok.nodeId], ok.tags);
    PlainJoins([ok.nodeId] + ok.tags, All(PairTexts, ok.props));
    PlainJoins([ok.nodeId] + ok.tags + All(PairTexts, ok.props), All(PairTexts, ok.links));
  }

  lemma OpenedFixes(ok: DriveOk<Str>)
    requires ok.Opened?
    ensures UnmarkOk(ok) == ok <==> Plain(OkTexts(ok))
  {
    var q := ok.quota;
    UnmarkFixes(ok.driveRootCid);
    UnmarkFixes(q.pricePerGibMonth);
    UnmarkFixes(q.pricePerGibEgress);
    EachTextFixes(ok.grantedAbilities);
    PlainJoins([ok.driveRootCid, q.pricePerGibMonth, q.pricePerGibEgress], ok.grantedAbilities);
  }

  lemma OkFixes(ok: DriveOk<Str>)
    ensures UnmarkOk(ok) == ok <==> Plain(OkTexts(ok))
  {
    match ok
    case Opened(_, _, _, _) => OpenedFixes(ok);
    case EntryOk(e) => EntryFixes(e);
    case Listing(es, next) =>
      SmallFixes();
      EntriesFix(es);
      PlainJoins(OptTexts(next), All(EntryTexts, es));
    case PlanOk(p) => PlanFixes(p);
    case Written(etag, node, _) => UnmarkFixes(etag); UnmarkFixes(node);
    case Made(node) => UnmarkFixes(node);
    case DeletedOk =>
    case Shared(chain) => UnmarkFixes(chain);
    case Changes(cs, _) => ChangesFix(cs);
    case Watching(topic, _) => UnmarkFixes(topic);
    case MetaOk(_, _, _, _) => MetaFixes(ok);
    case BacklinksOk(sources) => PairsFix(sources);
    case VersionsOk(vs) => VersionsFix(vs);
  }

  lemma SeenFixes(seen: Seen)
    ensures UnmarkSeen(seen) == seen <==> Plain(Texts(seen))
  {
    match seen
    case Okay(ok) => OkFixes(ok);
    case Refused(Conflict(etag)) => UnmarkFixes(etag);
    case Refused(Internal(reason)) => UnmarkFixes(reason);
    case _ =>
  }

  // ----- what an SDK hands on -----

  function Shown(rd: Reader, seen: Seen): Seen {
    if rd.JavaScript? then UnmarkSeen(seen) else seen
  }

  function View(rd: Reader, s: Bytes): Parse<Seen> {
    match ParseReply(rd, s)
    case Stuck => Stuck
    case Done(seen, rest) => Done(Shown(rd, seen), rest)
  }

  /** Text included, Python reads back every reply, and JavaScript exactly those in which no text begins
      with the mark. */
  lemma TextRoundTrip(rd: Reader, r: Result<DriveOk<Str>, DriveErr<Str>>, k: Bytes)
    requires !rd.Host?
    ensures View(rd, EncReply(r, k)) == Done(SeenOf(r), k) <==> rd.Python? || Plain(Texts(SeenOf(r)))
  {
    WireProofs.ReplyRoundTrip(rd, r, k);
    SeenFixes(SeenOf(r));
  }

  // ----- what happens to each text -----

  function AllUnmarked(texts: seq<Str>): seq<Str> {
    seq(|texts|, k requires 0 <= k < |texts| => Unmark(texts[k]))
  }

  lemma {:induction false} EachKeepsTexts<T>(f: T -> T, texts: T -> seq<Str>, xs: Vec<T>)
    requires forall x :: x in xs ==> texts(f(x)) == AllUnmarked(texts(x))
    ensures All(texts, Each(f, xs)) == AllUnmarked(All(texts, xs))
  {
    if xs != [] {
      var ys := Each(f, xs);
      assert ys[0] == f(xs[0]) && ys[1..] == Each(f, xs[1..]);
      EachKeepsTexts(f, texts, xs[1..]);
    }
  }

  lemma UnmarkedJoins(a: seq<Str>, b: seq<Str>)
    ensures AllUnmarked(a + b) == AllUnmarked(a) + AllUnmarked(b)
  {
  }

  lemma ThreeUnmarked(a: seq<Str>, b: seq<Str>, c: seq<Str>)
    ensures AllUnmarked(a + b + c) == AllUnmarked(a) + AllUnmarked(b) + AllUnmarked(c)
  {
    UnmarkedJoins(a + b, c);
    UnmarkedJoins(a, b);
  }

  lemma FourUnmarked(a: seq<Str>, b: seq<Str>, c: seq<Str>, d: seq<Str>)
    ensures AllUnmarked(a + b + c + d) == AllUnmarked(a) + AllUnmarked(b) + AllUnmarked(c) + AllUnmarked(d)
  {
    UnmarkedJoins(a + b + c, d);
    ThreeUnmarked(a, b, c);
  }

  lemma EntryKeepsTexts(e: Entry<Str>)
    ensures EntryTexts(UnmarkEntry(e)) == AllUnmarked(EntryTexts(e))
  {
    UnmarkedJoins([e.path, e.etag, e.nodeId] + OptTexts(e.objectCid), OptTexts(e.docId));
    UnmarkedJoins([e.path, e.etag, e.nodeId], OptTexts(e.objectCid));
  }

  lemma EntriesKeepTexts(es: Vec<Entry<Str>>)
    ensures All(EntryTexts, Each(UnmarkEntry, es)) == AllUnmarked(All(EntryTexts, es))
  {
    forall e | e in es ensures EntryTexts(UnmarkEntry(e)) == AllUnmarked(EntryTexts(e)) { EntryKeepsTexts(e); }
    EachKeepsTexts(UnmarkEntry, EntryTexts, es);
  }

  lemma ChangesKeepTexts(cs: Vec<Change<Str>>)
    ensures All(ChangeTexts, Each(UnmarkChange, cs)) == AllUnmarked(All(ChangeTexts, cs))
  {
    EachKeepsTexts(UnmarkChange, ChangeTexts, cs);
  }

  lemma PairsKeepTexts(ps: Vec<(Str, Str)>)
    ensures All(PairTexts, Each(UnmarkPair, ps)) == AllUnmarked(All(PairTexts, ps))
  {
    EachKeepsTexts(UnmarkPair, PairTexts, ps);
  }

  lemma PlanKeepsTexts(p: ReadPlan<Str>)
    ensures OkTexts(PlanOk(UnmarkPlan(p))) == AllUnmarked(OkTexts(PlanOk(p)))
  {
    EachKeepsTexts(UnmarkChunk, ChunkTexts, p.chunks);
    assert [Unmark(p.objectCid)] == AllUnmarked([p.objectCid]);
    assert OptTexts(UnmarkOpt(p.keyHint)) == AllUnmarked(OptTexts(p.keyHint));
    ThreeUnmarked([p.objectCid], OptTexts(p.keyHint), All(ChunkTexts, p.chunks));
  }

  lemma MetaKeepsTexts(ok: DriveOk<Str>)
    requires ok.MetaOk?
    ensures OkTexts(UnmarkOk(ok)) == AllUnmarked(OkTexts(ok))
  {
    assert Each(Unmark, ok.tags) == AllUnmarked(ok.tags);
    assert [Unmark(ok.nodeId)] == AllUnmarked([ok.nodeId]);
    PairsKeepTexts(ok.props);
    PairsKeepTexts(ok.links);
    FourUnmarked([ok.nodeId], ok.tags, All(PairTexts, ok.props), All(PairTexts, ok.links));
  }

  lemma OkKeepsTexts(ok: DriveOk<Str>)
    ensures OkTexts(UnmarkOk(ok)) == AllUnmarked(OkTexts(ok))
  {
    match ok
    case Opened(root, _, abilities, q) =>
      assert Each(Unmark, abilities) == AllUnmarked(abilities);
      UnmarkedJoins([root, q.pricePerGibMonth, q.pricePerGibEgress], abilities);
    case EntryOk(e) => EntryKeepsTexts(e);
    case Listing(es, next) =>
      EntriesKeepTexts(es);
      UnmarkedJoins(OptTexts(next), All(EntryTexts, es));
    case PlanOk(p) => PlanKeepsTexts(p);
    case Changes(cs, _) => ChangesKeepTexts(cs);
    case MetaOk(_, _, _, _) => MetaKeepsTexts(ok);
    case BacklinksOk(sources) => PairsKeepTexts(sources);
    case VersionsOk(vs) => EachKeepsTexts(UnmarkVersion, VersionTexts, vs);
    case _ =>
  }

  /** Each text of a reply loses the mark in front, if it has one, and nothing else. */
  lemma TextsLoseTheirMarks(seen: Seen)
    ensures Texts(UnmarkSeen(seen)) == AllUnmarked(Texts(seen))
    ensures forall rest: Str :: |rest| + 3 < TWO_64 ==> Unmark([0xEF, 0xBB, 0xBF] + rest) == rest
  {
    if seen.Okay? { OkKeepsTexts(seen.ok); }
  }
}
