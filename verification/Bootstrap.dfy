/**
 Opening a drive (src/serve.rs `op_open`) while it changes. An opener looks at the cached snapshot under
 the lock; when the drive has moved on since, it captures the state under the lock, publishes it with
 the lock dropped, and takes the lock a third time to read the feed cursor and cache the two together.
 A mirror loads the snapshot and polls the feed from the cursor it was told.
 */
module Bootstrap {
  import opened Wrappers
  import opened WireTypes
  import opened Feed
  import opened Math

  type Id = nat

  datatype Event =
    | Record(path: string, nodeId: string, kind: ChangeKind<string>, etag: string)
    | Begin(id: Id)   // an Open request: answered from the cache, or told to publish
    | Capture(id: Id) // copies the drive, under the lock
    | Fail(id: Id)    // could not serialise or publish
    | Install(id: Id) // published: reads the cursor and caches, under the lock
    | Poll(mirror: nat, limit: u32) // by the mirror whose Open was answered at step `mirror`

  datatype Stage = Stale | Holding(state: nat)

  /** A snapshot and the cursor handed out with it; `state` is how many changes the snapshot contains. */
  datatype Snap = Snap(state: nat, cursor: nat)

  datatype Host = Host(log: Log, cache: Option<Snap>, openers: map<Id, Stage>)

  const BOOTED := Host([], None, map[])

  predicate Hit(h: Host) {
    h.cache.Some? && h.cache.value.cursor == |h.log|
  }

  predicate Enabled(h: Host, e: Event) {
    match e
    case Record(_, _, _, _) => |h.log| + 1 < TWO_64
    case Begin(id) => id !in h.openers
    case Capture(id) => id in h.openers && h.openers[id].Stale?
    case Fail(id) => id in h.openers
    case Install(id) => id in h.openers && h.openers[id].Holding?
    case Poll(_, _) => true
  }

  function Next(h: Host, e: Event): Host
    requires Enabled(h, e)
  {
    match e
    case Record(path, nodeId, kind, etag) => h.(log := h.log + [Change(|h.log| + 1, path, nodeId, kind, etag)])
    case Begin(id) => if Hit(h) then h else h.(openers := h.openers[id := Stale])
    case Capture(id) => h.(openers := h.openers[id := Holding(|h.log|)])
    case Fail(id) => h.(openers := h.openers - {id})
    case Install(id) => h.(cache := Some(Snap(h.openers[id].state, |h.log|)), openers := h.openers - {id})
    case Poll(_, _) => h
  }

  /** The reply the step sends, if it is one that answers an Open. */
  function Reply(h: Host, e: Event): Option<Snap>
    requires Enabled(h, e)
  {
    match e
    case Begin(_) => if Hit(h) then h.cache else None
    case Install(_) => Next(h, e).cache
    case _ => None
  }

  // ----- runs: `At(run, t)` is the host before step `t` -----

  predicate ValidTo(run: seq<Event>, t: nat)
    requires t <= |run|
    decreases t, 0
  {
    t == 0 || (ValidTo(run, t - 1) && Enabled(At(run, t - 1), run[t - 1]))
  }

  function At(run: seq<Event>, t: nat): Host
    requires t <= |run| && ValidTo(run, t)
    decreases t, 1
  {
    if t == 0 then BOOTED else Next(At(run, t - 1), run[t - 1])
  }

  predicate ValidRun(run: seq<Event>) {
    ValidTo(run, |run|)
  }

  lemma {:induction false} ValidBefore(run: seq<Event>, s: nat, t: nat)
    requires s <= t <= |run| && ValidTo(run, t)
    ensures ValidTo(run, s) && At(run, s).log <= At(run, t).log
  {
    if s < t { ValidBefore(run, s, t - 1); }
  }

  /** Last capture by `id` before `t`. */
  function LastCapture(run: seq<Event>, t: nat, id: Id): (c: Option<nat>)
    requires t <= |run|
    ensures c.Some? ==> c.value < t && run[c.value] == Capture(id)
  {
    if t == 0 then None else if run[t - 1] == Capture(id) then Some(t - 1) else LastCapture(run, t - 1, id)
  }

  /** Last install before `t`. */
  function LastInstall(run: seq<Event>, t: nat): (c: Option<nat>)
    requires t <= |run|
    ensures c.Some? ==> c.value < t && run[c.value].Install?
  {
    if t == 0 then None else if run[t - 1].Install? then Some(t - 1) else LastInstall(run, t - 1)
  }

  /** `c` and `s` are where the snapshot was captured and installed. */
  predicate Made(run: seq<Event>, snap: Snap, c: nat, s: nat)
    requires c <= |run| && s <= |run| && ValidTo(run, c) && ValidTo(run, s)
  {
    snap == Snap(|At(run, c).log|, |At(run, s).log|)
  }

  /** The opener's copy is the drive as it was at its last capture. */
  predicate FreshlyHeld(run: seq<Event>, t: nat, id: Id, state: nat)
    requires t <= |run|
  {
    var c := LastCapture(run, t, id);
    c.Some? && ValidTo(run, c.value) && state == |At(run, c.value).log|
  }

  /** The cache is what the last install put there. */
  predicate FreshlyCached(run: seq<Event>, t: nat, snap: Snap)
    requires t <= |run|
  {
    var s := LastInstall(run, t);
    && s.Some? && ValidTo(run, s.value)
    && snap.cursor == |At(run, s.value).log|
    && FreshlyHeld(run, s.value, run[s.value].id, snap.state)
  }

  predicate Inv(run: seq<Event>, t: nat)
    requires t <= |run| && ValidTo(run, t)
  {
    var h := At(run, t);
    && Gapless(h.log) && |h.log| < TWO_64
    && (forall id <- h.openers :: h.openers[id].Holding? ==> FreshlyHeld(run, t, id, h.openers[id].state))
    && (h.cache.Some? ==> FreshlyCached(run, t, h.cache.value))
  }

  lemma {:induction false} InvHolds(run: seq<Event>, t: nat)
    requires t <= |run| && ValidTo(run, t)
    ensures Inv(run, t)
  {
    if t > 0 {
      InvHolds(run, t - 1);
      ValidBefore(run, t - 1, t);
    }
  }

  // ----- what a mirror misses -----

  function ReplyAt(run: seq<Event>, p: nat): Option<Snap>
    requires ValidRun(run) && p < |run|
  {
    ValidBefore(run, p, |run|);
    ValidBefore(run, p + 1, |run|);
    Reply(At(run, p), run[p])
  }

  /** Where the snapshot sent at `p` was installed ... */
  function Installed(run: seq<Event>, p: nat): (s: nat)
    requires ValidRun(run) && p < |run| && ReplyAt(run, p).Some?
    ensures s <= p && run[s].Install?
  {
    ValidBefore(run, p, |run|);
    InvHolds(run, p);
    if run[p].Install? then p else LastInstall(run, p).value
  }

  /** ... and captured. */
  function Captured(run: seq<Event>, p: nat): (c: nat)
    requires ValidRun(run) && p < |run| && ReplyAt(run, p).Some?
    ensures c < Installed(run, p) && run[c] == Capture(run[Installed(run, p)].id)
    ensures ValidTo(run, c) && ValidTo(run, Installed(run, p))
    ensures Made(run, ReplyAt(run, p).value, c, Installed(run, p))
  {
    var s := Installed(run, p);
    ValidBefore(run, p, |run|);
    ValidBefore(run, s, |run|);
    ValidBefore(run, p + 1, |run|);
    InvHolds(run, p);
    var c := LastCapture(run, s, run[s].id).value;
    ValidBefore(run, c, |run|);
    c
  }

  /** The changes a mirror ends with: those in the snapshot, then all that polling from the cursor gives. */
  function Mirror(log: Log, snap: Snap): Log
    requires snap.state <= |log| && snap.cursor < TWO_64
  {
    log[..snap.state] + Newer(log, snap.cursor)
  }

  /** Whenever an Open is answered, and whatever else happens around it: the cursor is the feed's at that
      moment, it is not behind the snapshot, and what the mirror misses is exactly the stretch of the
      feed between the two. */
  lemma OpenThenPoll(run: seq<Event>, p: nat)
    requires ValidRun(run) && p < |run| && ReplyAt(run, p).Some?
    ensures var snap, log := ReplyAt(run, p).value, At(run, |run|).log;
            && snap.state <= snap.cursor <= |log| < TWO_64
            && ValidTo(run, p) && snap.cursor == |At(run, p).log|
            && Mirror(log, snap) == log[..snap.state] + log[snap.cursor..]
  {
    var c, s := Captured(run, p), Installed(run, p);
    ValidBefore(run, c, s);
    ValidBefore(run, s, |run|);
    ValidBefore(run, p, |run|);
    InvHolds(run, |run|);
    NewerIsSuffix(At(run, |run|).log, ReplyAt(run, p).value.cursor);
  }

  /** Record `i` is at index `|At(run, i).log|` of the log for good. */
  lemma RecordKeepsItsPlace(run: seq<Event>, i: nat, t: nat)
    requires ValidRun(run) && i < |run| && run[i].Record? && t <= |run|
    ensures ValidTo(run, i) && ValidTo(run, t)
    ensures |At(run, i).log| < |At(run, t).log| <==> i < t
  {
    ValidBefore(run, i, |run|);
    ValidBefore(run, i + 1, |run|);
    ValidBefore(run, t, |run|);
    if i < t { ValidBefore(run, i + 1, t); } else { ValidBefore(run, t, i); }
  }

  lemma BetweenIffIndexed(run: seq<Event>, i: nat, c: nat, s: nat, snap: Snap)
    requires ValidRun(run) && i < |run| && run[i].Record?
    requires c <= |run| && s <= |run| && ValidTo(run, c) && ValidTo(run, s)
    requires Made(run, snap, c, s) && i != c
    ensures ValidTo(run, i)
    ensures snap.state <= |At(run, i).log| < snap.cursor <==> c < i < s
  {
    RecordKeepsItsPlace(run, i, c);
    RecordKeepsItsPlace(run, i, s);
  }

  /** A change is missed exactly when it was recorded between the capture and the install. */
  lemma MissedIffBetween(run: seq<Event>, p: nat, i: nat)
    requires ValidRun(run) && p < |run| && ReplyAt(run, p).Some?
    requires i < |run| && run[i].Record?
    ensures ValidTo(run, i)
    ensures var snap := ReplyAt(run, p).value;
            snap.state <= |At(run, i).log| < snap.cursor <==> Captured(run, p) < i < Installed(run, p)
  {
    BetweenIffIndexed(run, i, Captured(run, p), Installed(run, p), ReplyAt(run, p).value);
  }

  /** No change was recorded strictly between `lo` and `hi`. */
  predicate Quiet(run: seq<Event>, lo: nat, hi: nat)
    requires hi <= |run|
  {
    forall i :: lo < i < hi ==> !run[i].Record?
  }

  lemma {:induction false} QuietIffSameLog(run: seq<Event>, lo: nat, hi: nat)
    requires lo < hi <= |run| && ValidTo(run, hi) && !run[lo].Record?
    ensures ValidTo(run, lo)
    ensures Quiet(run, lo, hi) <==> |At(run, lo).log| == |At(run, hi).log|
  {
    ValidBefore(run, lo, hi);
    if lo + 1 < hi {
      QuietIffSameLog(run, lo, hi - 1);
      ValidBefore(run, lo, hi - 1);
    }
  }

  /** The mirror ends with the whole feed exactly when nothing was recorded between the two lock
      sections, for replies from the cache as for fresh ones. */
  lemma MirrorIsWholeIffQuiet(run: seq<Event>, p: nat)
    requires ValidRun(run) && p < |run| && ReplyAt(run, p).Some?
    ensures var snap, log := ReplyAt(run, p).value, At(run, |run|).log;
            && snap.state <= |log| && snap.cursor < TWO_64
            && (Mirror(log, snap) == log <==> Quiet(run, Captured(run, p), Installed(run, p)))
  {
    var c, s := Captured(run, p), Installed(run, p);
    OpenThenPoll(run, p);
    QuietIffSameLog(run, c, s);
    var snap, log := ReplyAt(run, p).value, At(run, |run|).log;
    assert |Mirror(log, snap)| == |log| - (snap.cursor - snap.state);
    if snap.state == snap.cursor {
      assert log[..snap.state] + log[snap.cursor..] == log;
    }
  }

  // ----- a mirror that polls while all this goes on -----

  /** What a mirror has polled so far, and the cursor it polls from next. */
  datatype Follower = Follower(cursor: u64, got: Log)

  /** The mirror that got its reply at `p`, before step `t`. */
  function FollowerAt(run: seq<Event>, p: nat, t: nat): Follower
    requires ValidRun(run) && p < t <= |run| && ReplyAt(run, p).Some?
  {
    if t == p + 1 then
      OpenThenPoll(run, p);
      Follower(ReplyAt(run, p).value.cursor, [])
    else
      ValidBefore(run, t - 1, |run|);
      Polled(FollowerAt(run, p, t - 1), At(run, t - 1).log, run[t - 1], p)
  }

  /** A step, as the mirror opened at `p` sees it. */
  function Polled(f: Follower, log: Log, e: Event, p: nat): Follower {
    match e
    case Poll(q, limit) =>
      if p == q then
        var page := PageOf(log, f.cursor, limit);
        Follower(CursorAfter(page, f.cursor), f.got + page)
      else f
    case _ => f
  }

  /** The mirror has polled the feed from `from` to its cursor. */
  predicate Follows(f: Follower, log: Log, from: nat) {
    from <= f.cursor <= |log| && f.got == log[from..f.cursor]
  }

  lemma PolledFollows(f: Follower, log: Log, from: nat, e: Event, p: nat)
    requires Gapless(log) && Follows(f, log, from)
    ensures Follows(Polled(f, log, e, p), log, from)
    ensures Polled(f, log, e, p).cursor >= f.cursor
    ensures e.Poll? && e.mirror == p && f.cursor < |log| ==> Polled(f, log, e, p).cursor > f.cursor
  {
    if e.Poll? && e.mirror == p {
      PageIsNextStretch(log, f.cursor, e.limit);
      var next := Polled(f, log, e, p).cursor;
      assert log[from..f.cursor] + log[f.cursor..next] == log[from..next];
    }
  }

  lemma FollowsLonger(f: Follower, log: Log, longer: Log, from: nat)
    requires Follows(f, log, from) && log <= longer
    ensures Follows(f, longer, from)
  {
    assert log[from..f.cursor] == longer[from..f.cursor];
  }

  /** At every moment of every run, whatever else happens, the mirror has polled exactly the stretch of
      the feed from the cursor it was told to the one it has reached; together with its snapshot it holds
      `log[..state] + log[server_seq..cursor]`. */
  lemma {:induction false} FollowerHoldsStretch(run: seq<Event>, p: nat, t: nat)
    requires ValidRun(run) && p < t <= |run| && ReplyAt(run, p).Some?
    ensures ValidTo(run, t) && Follows(FollowerAt(run, p, t), At(run, t).log, ReplyAt(run, p).value.cursor)
    decreases t
  {
    ValidBefore(run, t, |run|);
    if t == p + 1 {
      OpenThenPoll(run, p);
      ValidBefore(run, p, t);
    } else {
      FollowerHoldsStretch(run, p, t - 1);
      InvHolds(run, t - 1);
      var from, log, f := ReplyAt(run, p).value.cursor, At(run, t - 1).log, FollowerAt(run, p, t - 1);
      PolledFollows(f, log, from, run[t - 1], p);
      ValidBefore(run, t - 1, t);
      FollowsLonger(FollowerAt(run, p, t), log, At(run, t).log, from);
    }
  }

  /** How often the mirror polled in steps `lo`, ..., `hi - 1`. */
  function PollsBy(run: seq<Event>, p: nat, lo: nat, hi: nat): nat
    requires lo <= hi <= |run|
  {
    if lo == hi then 0
    else PollsBy(run, p, lo, hi - 1) + if run[hi - 1].Poll? && run[hi - 1].mirror == p then 1 else 0
  }

  lemma PolledAdvances(f: Follower, log: Log, from: nat, e: Event, p: nat, polls: nat)
    requires Gapless(log) && Follows(f, log, from) && f.cursor >= Min(|log|, polls)
    ensures Polled(f, log, e, p).cursor >= Min(|log|, polls + if e.Poll? && e.mirror == p then 1 else 0)
  {
    PolledFollows(f, log, from, e, p);
  }

  lemma FollowerStep(run: seq<Event>, p: nat, t: nat) returns (from: nat)
    requires ValidRun(run) && p + 1 < t <= |run| && ReplyAt(run, p).Some?
    ensures ValidTo(run, t) && ValidTo(run, t - 1) && Gapless(At(run, t - 1).log)
    ensures Follows(FollowerAt(run, p, t - 1), At(run, t - 1).log, from)
    ensures FollowerAt(run, p, t) == Polled(FollowerAt(run, p, t - 1), At(run, t - 1).log, run[t - 1], p)
    ensures !run[t - 1].Record? ==> At(run, t).log == At(run, t - 1).log
  {
    ValidBefore(run, t, |run|);
    InvHolds(run, t - 1);
    FollowerHoldsStretch(run, p, t - 1);
    from := ReplyAt(run, p).value.cursor;
  }

  /** The mirror is at the end, or has moved on at least as often as it polled. */
  predicate CaughtUp(run: seq<Event>, p: nat, t: nat, polls: nat)
    requires ValidRun(run) && p < t <= |run| && ReplyAt(run, p).Some? && ValidTo(run, t)
  {
    FollowerAt(run, p, t).cursor >= Min(|At(run, t).log|, polls)
  }

  lemma CatchesUp(run: seq<Event>, p: nat, t: nat, polls: nat)
    requires ValidRun(run) && p + 1 < t <= |run| && ReplyAt(run, p).Some? && ValidTo(run, t - 1)
    requires !run[t - 1].Record? && CaughtUp(run, p, t - 1, polls)
    ensures ValidTo(run, t)
    ensures CaughtUp(run, p, t, polls + if run[t - 1].Poll? && run[t - 1].mirror == p then 1 else 0)
  {
    var from := FollowerStep(run, p, t);
    PolledAdvances(FollowerAt(run, p, t - 1), At(run, t - 1).log, from, run[t - 1], p, polls);
  }

  lemma {:induction false} FollowerAdvances(run: seq<Event>, p: nat, quiet: nat, t: nat)
    requires ValidRun(run) && p < quiet <= t <= |run| && ReplyAt(run, p).Some?
    requires forall k :: quiet <= k < t ==> !run[k].Record?
    ensures ValidTo(run, t) && CaughtUp(run, p, t, PollsBy(run, p, quiet, t))
    decreases t
  {
    ValidBefore(run, t, |run|);
    if quiet < t {
      FollowerAdvances(run, p, quiet, t - 1);
      CatchesUp(run, p, t, PollsBy(run, p, quiet, t - 1));
    }
  }

  /** Once nothing more is recorded, as many of its polls as there are changes bring the mirror to the
      end, whatever others do meanwhile: it then misses what lies between its snapshot and the cursor it
      was told, and nothing else. */
  lemma FollowerReachesEnd(run: seq<Event>, p: nat, quiet: nat)
    requires ValidRun(run) && p < quiet <= |run| && ReplyAt(run, p).Some?
    requires forall k :: quiet <= k < |run| ==> !run[k].Record?
    requires PollsBy(run, p, quiet, |run|) >= |At(run, |run|).log|
    ensures var snap, log := ReplyAt(run, p).value, At(run, |run|).log;
            && snap.state <= |log| && snap.cursor < TWO_64
            && log[..snap.state] + FollowerAt(run, p, |run|).got == Mirror(log, snap)
  {
    FollowerAdvances(run, p, quiet, |run|);
    FollowerHoldsStretch(run, p, |run|);
    OpenThenPoll(run, p);
  }

  // ----- longer runs -----

  lemma {:induction false} AtPrefix(run: seq<Event>, e: Event, t: nat)
    requires t <= |run| && ValidTo(run, t)
    ensures ValidTo(run + [e], t) && At(run + [e], t) == At(run, t)
  {
    if t > 0 { AtPrefix(run, e, t - 1); }
  }

  lemma Extends(run: seq<Event>, e: Event)
    requires ValidRun(run) && Enabled(At(run, |run|), e)
    ensures ValidRun(run + [e]) && At(run + [e], |run + [e]|) == Next(At(run, |run|), e)
    ensures ReplyAt(run + [e], |run|) == Reply(At(run, |run|), e)
  {
    AtPrefix(run, e, |run|);
  }

  /** An opener that was told to publish can fail at any moment, or go on and be answered. */
  lemma OpenerCanGoOn(run: seq<Event>, id: Id) returns (longer: seq<Event>)
    requires ValidRun(run) && id in At(run, |run|).openers
    ensures ValidRun(run + [Event.Fail(id)])
    ensures longer == run + (if At(run, |run|).openers[id].Stale? then [Capture(id)] else []) + [Install(id)]
    ensures ValidRun(longer) && ReplyAt(longer, |longer| - 1).Some?
  {
    Extends(run, Event.Fail(id));
    longer := run;
    if At(run, |run|).openers[id].Stale? {
      Extends(run, Capture(id));
      longer := run + [Capture(id)];
    }
    Extends(longer, Install(id));
    longer := longer + [Install(id)];
  }

  lemma {:induction false} PollsByPrefix(run: seq<Event>, e: Event, p: nat, lo: nat, hi: nat)
    requires lo <= hi <= |run|
    ensures PollsBy(run + [e], p, lo, hi) == PollsBy(run, p, lo, hi)
  {
    if lo < hi { PollsByPrefix(run, e, p, lo, hi - 1); }
  }

  /** A mirror can poll at any moment, as often as it likes, and nothing else changes by it. */
  lemma {:induction false} PollsCanFollow(run: seq<Event>, p: nat, n: nat) returns (longer: seq<Event>)
    requires ValidRun(run)
    ensures run <= longer && ValidRun(longer) && At(longer, |longer|) == At(run, |run|)
    ensures forall k :: |run| <= k < |longer| ==> longer[k] == Event.Poll(p, 1)
    ensures PollsBy(longer, p, |run|, |longer|) == n
    ensures forall t :: 0 <= t <= |run| && ValidTo(run, t) ==> ValidTo(longer, t) && At(longer, t) == At(run, t)
  {
    longer := run;
    if n > 0 {
      var before := PollsCanFollow(run, p, n - 1);
      Extends(before, Event.Poll(p, 1));
      PollsByPrefix(before, Event.Poll(p, 1), p, |run|, |before|);
      forall t | 0 <= t <= |run| && ValidTo(run, t)
        ensures ValidTo(before + [Event.Poll(p, 1)], t) && At(before + [Event.Poll(p, 1)], t) == At(run, t)
      {
        AtPrefix(before, Event.Poll(p, 1), t);
      }
      longer := before + [Event.Poll(p, 1)];
    }
  }

  /** So every mirror can come to hold all that it ever will, from any point of any run. */
  lemma MirrorCanCatchUp(run: seq<Event>, p: nat) returns (longer: seq<Event>)
    requires ValidRun(run) && p < |run| && ReplyAt(run, p).Some?
    ensures run <= longer && ValidRun(longer) && ReplyAt(longer, p) == ReplyAt(run, p)
    ensures At(longer, |longer|) == At(run, |run|)
    ensures var snap, log := ReplyAt(longer, p).value, At(longer, |longer|).log;
            && snap.state <= |log| && snap.cursor < TWO_64
            && log[..snap.state] + FollowerAt(longer, p, |longer|).got == Mirror(log, snap)
  {
    longer := PollsCanFollow(run, p, |At(run, |run|).log|);
    ValidBefore(run, p, |run|);
    assert longer[p] == run[p];
    FollowerReachesEnd(longer, p, |run|);
  }

  /** A write lands while the snapshot is being published: neither this mirror nor the next one, served
      from the cache, ever learns of it. */
  const MISSED_WRITE := Record("/a", "n", Modified, "e")
  const RACE := [Begin(0), Capture(0), MISSED_WRITE, Install(0), Begin(1)]

  lemma OpenCanMissAWrite()
    ensures ValidRun(RACE)
    ensures ReplyAt(RACE, 3) == ReplyAt(RACE, 4) == Some(Snap(0, 1))
    ensures |At(RACE, |RACE|).log| == 1 && Mirror(At(RACE, |RACE|).log, Snap(0, 1)) == []
  {
    assert At(RACE, 0) == BOOTED;
    assert At(RACE, 1).openers == map[0 := Stale];
    assert At(RACE, 2).openers == map[0 := Holding(0)];
    assert |At(RACE, 3).log| == 1;
    assert At(RACE, 4).cache == Some(Snap(0, 1));
    assert ValidTo(RACE, 5);
    NewerIsSuffix(At(RACE, 5).log, 1);
  }
}
