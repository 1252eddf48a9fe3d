/**
 The durability protocol of a hosted drive (src/serve.rs `snapshot_drive`, `spawn_durability`;
 src/tenant.rs `from_state`, `attach_journal`; src/main.rs boot).

 Every operation is written to the journal before it is applied and acknowledged after. A background
 task captures the drive under the lock, saves it with the lock dropped, and empties the journal under
 the lock again. The process may die between any two steps; boot loads the saved state and replays the
 journal on top of it. The drive is a CRDT, so its state is the set of operations applied to it and
 applying one twice changes nothing.
 */
module Durability {
  import opened Wrappers

  /** A timestamped operation; timestamps are never issued twice. */
  type Op = nat

  datatype Record = Whole(op: Op) | Torn

  datatype Event =
    | Append(op: Op)       // the record reached the journal; the lock is held
    | TornAppend(torn: Op) // the process died while writing the record, and booted again
    | Apply                // the appended operation is applied; the lock is released
    | Ack(acked: Op)       // the reply reached the client
    | Capture              // the snapshot task copied the drive, under the lock
    | SaveOk | SaveFail    // the copy was (not) written to the state file, without the lock
    | ResetOk | ResetFail  // the journal was (not) emptied, under the lock
    | Crash                // the process died and booted again

  datatype Phase = Idle | Captured(copy: set<Op>) | Saved

  datatype Host = Host(
    saved: set<Op>,          // the state file
    journal: seq<Record>,    // the journal file
    drive: set<Op>,          // memory
    pending: Option<Op>,     // appended, not yet applied: the lock is held
    phase: Phase,            // where the snapshot task is
    waiting: set<Op>,        // applied, not yet acknowledged
    acked: set<Op>,          // acknowledged, ever
    issued: set<Op>)         // timestamps used, ever

  const FRESH := Host({}, [], {}, None, Idle, {}, {}, {})

  /** `journal::replay`: the records before the first torn one. */
  function Replay(journal: seq<Record>): set<Op> {
    if journal == [] || journal[0].Torn? then {} else {journal[0].op} + Replay(journal[1..])
  }

  /** The whole records `Journal::open` keeps. */
  function WholePart(journal: seq<Record>): seq<Record> {
    if journal == [] || journal[0].Torn? then [] else [journal[0]] + WholePart(journal[1..])
  }

  /** What boot would rebuild from the two files. */
  function Recovered(h: Host): set<Op> {
    h.saved + Replay(h.journal)
  }

  function Boot(h: Host): Host {
    h.(journal := WholePart(h.journal), drive := Recovered(h), pending := None, phase := Idle, waiting := {})
  }

  predicate Enabled(h: Host, e: Event) {
    match e
    case Append(op) => h.pending.None? && op !in h.issued
    case TornAppend(op) => h.pending.None? && op !in h.issued
    case Apply => h.pending.Some?
    case Ack(op) => op in h.waiting
    case Capture => h.pending.None? && h.phase.Idle?
    case SaveOk | SaveFail => h.phase.Captured?
    case ResetOk | ResetFail => h.pending.None? && h.phase.Saved?
    case Crash => true
  }

  function Next(h: Host, e: Event): Host
    requires Enabled(h, e)
  {
    match e
    case Append(op) => h.(journal := h.journal + [Whole(op)], pending := Some(op), issued := h.issued + {op})
    case TornAppend(op) => Boot(h.(journal := h.journal + [Torn], issued := h.issued + {op}))
    case Apply =>
      h.(drive := h.drive + {h.pending.value}, waiting := h.waiting + {h.pending.value}, pending := None)
    case Ack(op) => h.(waiting := h.waiting - {op}, acked := h.acked + {op})
    case Capture => h.(phase := Captured(h.drive))
    case SaveOk => h.(saved := h.phase.copy, phase := Saved)
    case SaveFail => h.(phase := Idle)
    case ResetOk => h.(journal := [], phase := Idle)
    case ResetFail => h.(phase := Idle)
    case Crash => Boot(h)
  }

  // ----- runs -----

  predicate ValidRun(run: seq<Event>)
    decreases |run|, 0
  {
    run == [] || (ValidRun(run[..|run| - 1]) && Enabled(After(run[..|run| - 1]), run[|run| - 1]))
  }

  function After(run: seq<Event>): Host
    requires ValidRun(run)
    decreases |run|, 1
  {
    if run == [] then FRESH else Next(After(run[..|run| - 1]), run[|run| - 1])
  }

  predicate Dies(e: Event) {
    e.Crash? || e.TornAppend?
  }

  /** Position of the capture whose snapshot cycle is still open at the end of `run`. */
  function OpenCapture(run: seq<Event>): (c: Option<nat>)
    ensures c.Some? ==> c.value < |run| && run[c.value].Capture?
  {
    if run == [] then None
    else
      var n, e := |run| - 1, run[|run| - 1];
      if e.Capture? then Some(n)
      else if Dies(e) || e.SaveFail? || e.ResetOk? || e.ResetFail? then None
      else OpenCapture(run[..n])
  }

  /** The append at `a` fell between the capture and the journal reset (at `r`) of one cycle. */
  predicate Wiped(run: seq<Event>, a: nat, r: nat)
    requires r < |run|
  {
    && a < r && run[r].ResetOk?
    && OpenCapture(run[..r]).Some? && OpenCapture(run[..r]).value < a
  }

  /** A later snapshot was saved strictly between `lo` and `hi`. */
  predicate SavedIn(run: seq<Event>, lo: nat, hi: nat)
    requires hi <= |run|
  {
    exists k :: lo < k < hi && run[k].SaveOk?
  }

  /** Wiped from the journal, and no snapshot has been saved since: only memory still holds it. */
  ghost predicate Exposed(run: seq<Event>, a: nat) {
    exists r: nat :: r < |run| && Wiped(run, a, r) && !SavedIn(run, r, |run|)
  }

  /** The process died while it was exposed. */
  ghost predicate Dead(run: seq<Event>, a: nat) {
    exists r: nat, d: nat :: r < d < |run| && Wiped(run, a, r) && Dies(run[d]) && !SavedIn(run, r, d)
  }

  ghost predicate Lost(run: seq<Event>, a: nat) {
    Exposed(run, a) || Dead(run, a)
  }

  // ----- how one more event changes the trace predicates -----

  lemma WipedSnoc(run: seq<Event>, e: Event, a: nat, r: nat)
    requires r <= |run|
    ensures r < |run| ==> (Wiped(run + [e], a, r) <==> Wiped(run, a, r))
    ensures r == |run| ==>
      (Wiped(run + [e], a, r) <==> a < r && e.ResetOk? && OpenCapture(run).Some? && OpenCapture(run).value < a)
  {
    assert (run + [e])[..r] == run[..r];
    assert run[..|run|] == run;
  }

  lemma SavedSnoc(run: seq<Event>, e: Event, lo: nat, hi: nat)
    requires hi <= |run|
    ensures SavedIn(run + [e], lo, hi) <==> SavedIn(run, lo, hi)
    ensures lo < |run| ==> (SavedIn(run + [e], lo, |run| + 1) <==> SavedIn(run, lo, |run|) || e.SaveOk?)
  {
    var run' := run + [e];
    assert forall k :: 0 <= k < |run| ==> run'[k] == run[k];
    if lo < |run| && e.SaveOk? { assert run'[|run|].SaveOk?; }
  }

  lemma ExposedSnoc(run: seq<Event>, e: Event, a: nat)
    ensures Exposed(run + [e], a) <==>
      (Exposed(run, a) && !e.SaveOk?)
      || (a < |run| && e.ResetOk? && OpenCapture(run).Some? && OpenCapture(run).value < a)
  {
    var run' := run + [e];
    forall r: nat | r < |run|
      ensures Wiped(run', a, r) && !SavedIn(run', r, |run'|)
         <==> Wiped(run, a, r) && !SavedIn(run, r, |run|) && !e.SaveOk?
    {
      WipedSnoc(run, e, a, r);
      SavedSnoc(run, e, r, |run|);
    }
    WipedSnoc(run, e, a, |run|);
    assert !SavedIn(run', |run|, |run'|);
  }

  lemma DeadSnoc(run: seq<Event>, e: Event, a: nat)
    ensures Dead(run + [e], a) <==> Dead(run, a) || (Dies(e) && Exposed(run, a))
  {
    var run' := run + [e];
    forall r: nat, d: nat | r < d < |run'|
      ensures Wiped(run', a, r) <==> Wiped(run, a, r)
      ensures SavedIn(run', r, d) <==> SavedIn(run, r, d)
    {
      WipedSnoc(run, e, a, r);
      SavedSnoc(run, e, r, d);
    }
    if Dead(run, a) {
      var r: nat, d: nat :| r < d < |run| && Wiped(run, a, r) && Dies(run[d]) && !SavedIn(run, r, d);
      assert run'[d] == run[d];
      assert Wiped(run', a, r) && !SavedIn(run', r, d);
    }
    if Dies(e) && Exposed(run, a) {
      var r: nat :| r < |run| && Wiped(run, a, r) && !SavedIn(run, r, |run|);
      assert r < |run| < |run'| && Wiped(run', a, r) && Dies(run'[|run|]) && !SavedIn(run', r, |run|);
    }
    if Dead(run', a) {
      var r: nat, d: nat :| r < d < |run'| && Wiped(run', a, r) && Dies(run'[d]) && !SavedIn(run', r, d);
      if d < |run| { assert run'[d] == run[d]; }
    }
  }

  // ----- the journal -----

  predicate AllWhole(journal: seq<Record>) {
    forall r <- journal :: r.Whole?
  }

  /** Replaying twice, or on top of a state that holds the operations, adds nothing; a torn last
      record is skipped. */
  lemma {:induction false} ReplaySnoc(journal: seq<Record>, r: Record)
    requires AllWhole(journal)
    ensures Replay(journal + [r]) == Replay(journal) + (if r.Whole? then {r.op} else {})
    ensures WholePart(journal + [r]) == if r.Whole? then journal + [r] else journal
  {
    if journal != [] {
      assert journal[0] in journal;
      ReplaySnoc(journal[1..], r);
      assert (journal + [r])[1..] == journal[1..] + [r];
    }
  }

  lemma {:induction false} WholeStays(journal: seq<Record>)
    requires AllWhole(journal)
    ensures WholePart(journal) == journal
  {
    if journal != [] {
      assert journal[0] in journal;
      WholeStays(journal[1..]);
    }
  }

  // ----- the invariant tying the host's state to the events so far -----

  /** After the capture of an open cycle come only appends, replies and at most one save. */
  lemma {:induction false} OpenCycleIsQuiet(run: seq<Event>)
    ensures OpenCapture(run).Some? ==>
      forall k :: OpenCapture(run).value < k < |run| ==> !run[k].ResetOk? && !run[k].Capture? && !Dies(run[k])
  {
    if run != [] { OpenCycleIsQuiet(run[..|run| - 1]); }
  }

  ghost predicate Held(h: Host, op: Op) {
    op in h.drive || h.pending == Some(op)
  }

  /** Facts about the host alone. */
  ghost predicate Consistent(h: Host) {
    && AllWhole(h.journal)
    && (forall op <- Recovered(h) :: Held(h, op))
    && h.acked <= h.issued && h.waiting <= h.drive <= h.issued
    && (h.pending.Some? ==> h.pending.value in h.issued && h.pending.value in Replay(h.journal))
    && Recovered(h) <= h.issued
    && (h.phase.Captured? ==> h.phase.copy <= h.drive)
  }

  /** Facts about one operation, appended at position `a`. */
  ghost predicate Tracks(run: seq<Event>, h: Host, a: nat)
    requires a < |run| && run[a].Append?
  {
    var op := run[a].op;
    && op in h.issued
    && (Held(h, op) <==> !Dead(run, a))
    && (op in Recovered(h) <==> !Lost(run, a))
    && (OpenCapture(run).None? <==> h.phase.Idle?)
    && (OpenCapture(run).Some? ==>
        var c := OpenCapture(run).value;
        && (c < a ==> op in Replay(h.journal))
        && (h.phase.Captured? ==> (op in h.phase.copy <==> a < c && !Dead(run, a)))
        && (h.phase.Saved? ==> (op in h.saved <==> a < c && !Dead(run, a)))
        && (h.phase.Saved? ==> !Exposed(run, a)))
  }

  ghost predicate Inv(run: seq<Event>, h: Host) {
    && Consistent(h)
    && (OpenCapture(run).None? <==> h.phase.Idle?)
    && (h.phase.Saved? ==> SavedIn(run, OpenCapture(run).value, |run|))
    && (forall a: nat :: a < |run| && run[a].Append? ==> Tracks(run, h, a))
    && (forall op <- h.issued :: exists a: nat :: a < |run| && (run[a] == Append(op) || run[a] == TornAppend(op)))
  }

  lemma ConsistentStep(h: Host, e: Event)
    requires Consistent(h) && Enabled(h, e)
    ensures Consistent(Next(h, e))
  {
    match e
    case Append(op) => ReplaySnoc(h.journal, Whole(op));
    case TornAppend(_) => ReplaySnoc(h.journal, Torn); WholeStays(h.journal);
    case Crash => WholeStays(h.journal);
    case _ =>
  }

  lemma TracksThroughBoot(run: seq<Event>, h: Host, e: Event, a: nat)
    requires Inv(run, h) && Enabled(h, e) && a < |run| && run[a].Append? && Dies(e)
    ensures Tracks(run + [e], Next(h, e), a)
  {
    var run' := run + [e];
    assert run'[..|run|] == run && run'[a] == run[a];
    assert Tracks(run, h, a);
    ExposedSnoc(run, e, a);
    DeadSnoc(run, e, a);
    WholeStays(h.journal);
    ReplaySnoc(h.journal, Torn);
  }

  lemma TracksThroughCapture(run: seq<Event>, h: Host, e: Event, a: nat)
    requires Inv(run, h) && Enabled(h, e) && a < |run| && run[a].Append?
    requires e.Capture?
    ensures Tracks(run + [e], Next(h, e), a)
  {
    var run' := run + [e];
    assert run'[..|run|] == run && run'[a] == run[a];
    assert Tracks(run, h, a);
    ExposedSnoc(run, e, a);
    DeadSnoc(run, e, a);
  }

  lemma TracksThroughSave(run: seq<Event>, h: Host, e: Event, a: nat)
    requires Inv(run, h) && Enabled(h, e) && a < |run| && run[a].Append?
    requires e.SaveOk?
    ensures Tracks(run + [e], Next(h, e), a)
  {
    var run' := run + [e];
    assert run'[..|run|] == run && run'[a] == run[a];
    assert Tracks(run, h, a);
    ExposedSnoc(run, e, a);
    DeadSnoc(run, e, a);
  }

  lemma TracksThroughReset(run: seq<Event>, h: Host, e: Event, a: nat)
    requires Inv(run, h) && Enabled(h, e) && a < |run| && run[a].Append?
    requires e.ResetOk?
    ensures Tracks(run + [e], Next(h, e), a)
  {
    var run' := run + [e];
    assert run'[..|run|] == run && run'[a] == run[a];
    assert Tracks(run, h, a);
    ExposedSnoc(run, e, a);
    DeadSnoc(run, e, a);
  }

  lemma TracksThroughServing(run: seq<Event>, h: Host, e: Event, a: nat)
    requires Inv(run, h) && Enabled(h, e) && a < |run| && run[a].Append?
    requires e.Apply? || e.Ack? || e.SaveFail? || e.ResetFail?
    ensures Tracks(run + [e], Next(h, e), a)
  {
    var run' := run + [e];
    assert run'[..|run|] == run && run'[a] == run[a];
    assert Tracks(run, h, a);
    ExposedSnoc(run, e, a);
    DeadSnoc(run, e, a);
  }

  lemma TracksThroughAppend(run: seq<Event>, h: Host, e: Event, a: nat)
    requires Inv(run, h) && Enabled(h, e) && a < |run| && run[a].Append? && e.Append?
    ensures Tracks(run + [e], Next(h, e), a)
  {
    var run' := run + [e];
    assert run'[..|run|] == run && run'[a] == run[a];
    assert Tracks(run, h, a);
    ExposedSnoc(run, e, a);
    DeadSnoc(run, e, a);
    ReplaySnoc(h.journal, Whole(e.op));
  }

  lemma TracksFromAppend(run: seq<Event>, h: Host, e: Event)
    requires Inv(run, h) && Enabled(h, e) && e.Append?
    ensures Tracks(run + [e], Next(h, e), |run|)
  {
    var run' := run + [e];
    assert run'[..|run|] == run && run'[|run|] == e;
    ReplaySnoc(h.journal, Whole(e.op));
    assert !Exposed(run', |run|) && !Dead(run', |run|);
    assert e.op !in Recovered(h) && e.op !in h.drive;
  }

  lemma InvStep(run: seq<Event>, h: Host, e: Event)
    requires Inv(run, h) && Enabled(h, e)
    ensures Inv(run + [e], Next(h, e))
  {
    var run', h' := run + [e], Next(h, e);
    ConsistentStep(h, e);
    assert run'[..|run|] == run && run'[|run|] == e;
    forall a: nat | a < |run'| && run'[a].Append?
      ensures Tracks(run', h', a)
    {
      if a == |run| {
        TracksFromAppend(run, h, e);
      } else if Dies(e) {
        TracksThroughBoot(run, h, e, a);
      } else if e.Capture? {
        TracksThroughCapture(run, h, e, a);
      } else if e.SaveOk? {
        TracksThroughSave(run, h, e, a);
      } else if e.ResetOk? {
        TracksThroughReset(run, h, e, a);
      } else if e.Append? {
        TracksThroughAppend(run, h, e, a);
      } else {
        TracksThroughServing(run, h, e, a);
      }
    }
    if OpenCapture(run).Some? { SavedSnoc(run, e, OpenCapture(run).value, |run|); }
    forall op <- h'.issued
      ensures exists a: nat :: a < |run'| && (run'[a] == Append(op) || run'[a] == TornAppend(op))
    {
      if op in h.issued {
        var a: nat :| a < |run| && (run[a] == Append(op) || run[a] == TornAppend(op));
        assert run'[a] == run[a];
      } else {
        assert run'[|run|] == e;
      }
    }
  }

  lemma InvStarts()
    ensures Inv([], FRESH)
  {
  }

  lemma {:induction false} InvHolds(run: seq<Event>)
    requires ValidRun(run)
    ensures Inv(run, After(run))
  {
    if run == [] {
      InvStarts();
    } else {
      var before, e := run[..|run| - 1], run[|run| - 1];
      InvHolds(before);
      InvStep(before, After(before), e);
      assert run == before + [e];
    }
  }

  // ----- the theorems -----

  /** At every point of every run, boot would rebuild exactly the appended operations that were not
      lost: an operation is lost when its append fell between a capture and the journal reset that
      followed it, and no snapshot was saved between that reset and the next death or now. */
  lemma RecoveryIsExact(run: seq<Event>)
    requires ValidRun(run)
    ensures forall op :: op in Recovered(After(run)) <==>
      exists a: nat :: a < |run| && run[a] == Append(op) && !Lost(run, a)
  {
    InvHolds(run);
    var h := After(run);
    forall op
      ensures op in Recovered(h) <==> exists a: nat :: a < |run| && run[a] == Append(op) && !Lost(run, a)
    {
      if a: nat :| a < |run| && run[a] == Append(op) && !Lost(run, a) {
        assert Tracks(run, h, a);
      }
      if op in Recovered(h) {
        OnlyAppendedIsKnown(run, op);
        var a: nat :| a < |run| && run[a] == Append(op);
        assert Tracks(run, h, a);
      }
    }
  }

  /** `op` is in memory, on disk, copied for a snapshot or acknowledged. */
  ghost predicate Known(h: Host, op: Op) {
    || Held(h, op) || op in Recovered(h) || op in h.acked || op in h.waiting
    || (h.phase.Captured? && op in h.phase.copy)
  }

  lemma KnownStep(h: Host, e: Event, op: Op)
    requires Consistent(h) && Enabled(h, e) && Known(Next(h, e), op)
    ensures e == Append(op) || Known(h, op)
  {
    match e
    case Append(x) => ReplaySnoc(h.journal, Whole(x));
    case TornAppend(_) => ReplaySnoc(h.journal, Torn); WholeStays(h.journal);
    case Crash => WholeStays(h.journal);
    case _ =>
  }

  lemma {:induction false} OnlyAppendedIsKnown(run: seq<Event>, op: Op)
    requires ValidRun(run) && Known(After(run), op)
    ensures exists a: nat :: a < |run| && run[a] == Append(op)
  {
    if run != [] {
      var before, e := run[..|run| - 1], run[|run| - 1];
      InvHolds(before);
      KnownStep(After(before), e, op);
      if e == Append(op) {
        assert run[|run| - 1] == Append(op);
      } else {
        OnlyAppendedIsKnown(before, op);
        var a: nat :| a < |before| && before[a] == Append(op);
        assert run[a] == Append(op);
      }
    }
  }

  /** An acknowledged operation survives the next crash exactly when it was not lost. */
  lemma AckedRecoveredUnlessLost(run: seq<Event>, op: Op)
    requires ValidRun(run) && op in After(run).acked
    ensures op in Recovered(After(run)) <==> !exists a: nat :: a < |run| && run[a] == Append(op) && Lost(run, a)
  {
    InvHolds(run);
    OnlyAppendedIsKnown(run, op);
    var a: nat :| a < |run| && run[a] == Append(op);
    forall b: nat | b < |run| && run[b] == Append(op)
      ensures op in Recovered(After(run)) <==> !Lost(run, b)
    {
      assert Tracks(run, After(run), b);
    }
  }

  /** No append fell inside a snapshot cycle that reset the journal. */
  ghost predicate NoAppendInWindow(run: seq<Event>) {
    forall a: nat, r: nat :: r < |run| && Wiped(run, a, r) ==> !run[a].Append?
  }

  /** Every operation appended so far would survive a crash now. */
  ghost predicate NothingMissing(run: seq<Event>)
    requires ValidRun(run)
  {
    forall a: nat :: a < |run| && run[a].Append? ==> run[a].op in Recovered(After(run))
  }

  lemma {:induction false} PrefixIsValid(run: seq<Event>, n: nat)
    requires ValidRun(run) && n <= |run|
    ensures ValidRun(run[..n])
  {
    if n < |run| {
      PrefixIsValid(run[..|run| - 1], n);
      assert run[..|run| - 1][..n] == run[..n];
    } else {
      assert run[..n] == run;
    }
  }

  lemma WipedInPrefix(run: seq<Event>, n: nat, a: nat, r: nat)
    requires r < n <= |run|
    ensures Wiped(run[..n], a, r) <==> Wiped(run, a, r)
  {
    assert run[..n][..r] == run[..r];
  }

  lemma ResetExposes(run: seq<Event>, a: nat, r: nat)
    requires r < |run| && Wiped(run, a, r)
    ensures Exposed(run[..r + 1], a)
  {
    WipedInPrefix(run, r + 1, a, r);
    assert !SavedIn(run[..r + 1], r, r + 1);
  }

  lemma ExposedIsUnrecovered(run: seq<Event>, a: nat)
    requires ValidRun(run) && a < |run| && run[a].Append? && Exposed(run, a)
    ensures run[a].op !in Recovered(After(run))
  {
    InvHolds(run);
    assert Tracks(run, After(run), a);
  }

  /** Right after a reset, an append in its window is missing. */
  lemma WindowMisses(run: seq<Event>, a: nat, r: nat)
    requires ValidRun(run) && r < |run| && Wiped(run, a, r) && run[a].Append?
    ensures ValidRun(run[..r + 1]) && !NothingMissing(run[..r + 1])
  {
    var p := run[..r + 1];
    PrefixIsValid(run, r + 1);
    ResetExposes(run, a, r);
    assert a < |p| && p[a] == run[a];
    ExposedIsUnrecovered(p, a);
  }

  /** A run is durable at every one of its points exactly when no append fell in a window. */
  lemma DurableIffNoAppendInWindow(run: seq<Event>)
    requires ValidRun(run)
    ensures (forall n: nat :: n <= |run| ==> ValidRun(run[..n]) && NothingMissing(run[..n]))
       <==> NoAppendInWindow(run)
  {
    if NoAppendInWindow(run) {
      forall n: nat | n <= |run|
        ensures ValidRun(run[..n]) && NothingMissing(run[..n])
      {
        NothingMissingWithoutWindow(run, n);
      }
    } else {
      var a: nat, r: nat :| r < |run| && Wiped(run, a, r) && run[a].Append?;
      WindowMisses(run, a, r);
      assert r + 1 <= |run|;
    }
  }

  lemma NothingMissingWithoutWindow(run: seq<Event>, n: nat)
    requires ValidRun(run) && n <= |run| && NoAppendInWindow(run)
    ensures ValidRun(run[..n]) && NothingMissing(run[..n])
  {
    var p := run[..n];
    PrefixIsValid(run, n);
    InvHolds(p);
    forall a: nat | a < |p| && p[a].Append?
      ensures p[a].op in Recovered(After(p))
    {
      forall r: nat | r < |p| ensures !Wiped(p, a, r) { WipedInPrefix(run, n, a, r); }
      assert Tracks(p, After(p), a);
    }
  }

  /** Snapshot first, reset second: between a good save and the reset, the files hold everything that
      memory holds. */
  lemma SavedCoversMemory(run: seq<Event>)
    requires ValidRun(run) && After(run).phase.Saved?
    ensures After(run).drive <= Recovered(After(run))
  {
    InvHolds(run);
    var h := After(run);
    forall op | op in h.drive
      ensures op in Recovered(h)
    {
      assert Held(h, op);
      OnlyAppendedIsKnown(run, op);
      var a: nat :| a < |run| && run[a] == Append(op);
      assert Tracks(run, h, a);
    }
  }

  lemma SavedPhaseSaved(run: seq<Event>)
    requires ValidRun(run) && After(run).phase.Saved?
    ensures OpenCapture(run).Some? && SavedIn(run, OpenCapture(run).value, |run|)
  {
    InvHolds(run);
  }

  lemma StepWasEnabled(run: seq<Event>, r: nat)
    requires ValidRun(run) && r < |run|
    ensures ValidRun(run[..r]) && Enabled(After(run[..r]), run[r])
  {
    PrefixIsValid(run, r + 1);
    assert run[..r + 1][..r] == run[..r] && run[..r + 1][r] == run[r];
  }

  lemma SavedInPrefix(run: seq<Event>, r: nat, lo: nat)
    requires r <= |run| && SavedIn(run[..r], lo, r)
    ensures SavedIn(run, lo, r)
  {
    var k :| lo < k < r && run[..r][k].SaveOk?;
    assert run[k].SaveOk?;
  }

  /** The journal is emptied only after this cycle's snapshot was saved, so a failed save never
      costs a record. */
  lemma ResetFollowsGoodSave(run: seq<Event>, r: nat)
    requires ValidRun(run) && r < |run| && run[r].ResetOk?
    ensures OpenCapture(run[..r]).Some? && SavedIn(run, OpenCapture(run[..r]).value, r)
  {
    StepWasEnabled(run, r);
    SavedPhaseSaved(run[..r]);
    SavedInPrefix(run, r, OpenCapture(run[..r]).value);
  }

  /** An append that was torn is neither recovered nor was it ever acknowledged. */
  lemma TornWasNeverAcked(run: seq<Event>, k: nat)
    requires ValidRun(run) && k < |run| && run[k].TornAppend?
    ensures run[k].torn !in After(run).acked && run[k].torn !in Recovered(After(run))
  {
    var op := run[k].torn;
    if Known(After(run), op) {
      OnlyAppendedIsKnown(run, op);
      var a: nat :| a < |run| && run[a] == Append(op);
      if a < k { IssuedOnce(run, a, k); } else { IssuedOnce(run, k, a); }
    }
  }

  function Stamp(e: Event): Option<Op> {
    match e
    case Append(op) => Some(op)
    case TornAppend(op) => Some(op)
    case _ => None
  }

  lemma {:induction false} StampsAreIssued(run: seq<Event>, i: nat)
    requires ValidRun(run) && i < |run| && Stamp(run[i]).Some?
    ensures Stamp(run[i]).value in After(run).issued
  {
    if i < |run| - 1 { StampsAreIssued(run[..|run| - 1], i); }
  }

  lemma IssuedOnce(run: seq<Event>, i: nat, j: nat)
    requires ValidRun(run) && i < j < |run| && Stamp(run[i]).Some?
    ensures Stamp(run[i]) != Stamp(run[j])
  {
    PrefixIsValid(run, j);
    PrefixIsValid(run, j + 1);
    assert run[..j + 1][..j] == run[..j] && run[..j + 1][j] == run[j];
    StampsAreIssued(run[..j], i);
  }

  /** A client told "ok" while a snapshot was being saved, and the write gone after the next crash. */
  const WINDOW_RUN := [Capture, SaveOk, Append(7), Apply, Ack(7), ResetOk, Crash]

  lemma WindowLosesAnAckedWrite()
    ensures ValidRun(WINDOW_RUN) && 7 in After(WINDOW_RUN).acked && 7 !in After(WINDOW_RUN).drive
  {
    var run := Extend([], Capture);
    run := Extend(run, SaveOk);
    run := Extend(run, Append(7));
    run := Extend(run, Apply);
    run := Extend(run, Ack(7));
    run := Extend(run, ResetOk);
    run := Extend(run, Crash);
    assert run == WINDOW_RUN;
  }

  /** A failed save, a death in the middle of a record, a failed reset, a death between two steps:
      everything that was appended whole is there, the torn operation is not. */
  const ROUGH_START := [Append(1), Apply, Ack(1), Capture, SaveFail, TornAppend(2)]
  const ROUGH_RUN := ROUGH_START + [Capture, SaveOk, ResetFail, Append(3), Crash]

  lemma RoughStart()
    ensures ValidRun(ROUGH_START)
    ensures After(ROUGH_START) == Host({}, [Whole(1)], {1}, None, Idle, {}, {1}, {1, 2})
  {
    var run := Extend([], Append(1));
    run := Extend(run, Apply);
    run := Extend(run, Ack(1));
    run := Extend(run, Capture);
    run := Extend(run, SaveFail);
    ReplaySnoc([Whole(1)], Torn);
    run := Extend(run, TornAppend(2));
    assert run == ROUGH_START;
  }

  lemma RoughRunLosesNothing()
    ensures ValidRun(ROUGH_RUN) && After(ROUGH_RUN).drive == {1, 3} && After(ROUGH_RUN).acked == {1}
  {
    RoughStart();
    var run := Extend(ROUGH_START, Capture);
    run := Extend(run, SaveOk);
    run := Extend(run, ResetFail);
    run := Extend(run, Append(3));
    ReplaySnoc([Whole(1)], Whole(3));
    run := Extend(run, Crash);
    assert run == ROUGH_RUN;
  }

  lemma Extend(run: seq<Event>, e: Event) returns (longer: seq<Event>)
    requires ValidRun(run) && Enabled(After(run), e)
    ensures longer == run + [e] && ValidRun(longer) && After(longer) == Next(After(run), e)
  {
    longer := run + [e];
    assert longer[..|run|] == run;
  }

  // ----- the host as it is written -----

  /** One hosted drive: its two files, its memory and the snapshot task's local variable. Every method
      is one stretch of code that runs without giving the lock (or the process) away. */
  class HostedDrive {
    var saved: set<Op>
    var journal: seq<Record>
    var drive: set<Op>
    var pending: Option<Op>
    var phase: Phase
    /** What has happened to the drive, ever. */
    ghost var run: seq<Event>

    /** The fields are what the run makes of a new drive. */
    ghost predicate Valid()
      reads this
    {
      && ValidRun(run)
      && var h := After(run);
         saved == h.saved && journal == h.journal && drive == h.drive && pending == h.pending && phase == h.phase
    }

    constructor ()
      ensures Valid() && run == []
    {
      saved, journal, drive, pending, phase := {}, [], {}, None, Idle;
      run := [];
    }

    ghost method Happened(e: Event)
      requires ValidRun(run) && Enabled(After(run), e)
      modifies this`run
      ensures run == old(run) + [e] && ValidRun(run) && After(run) == Next(After(old(run)), e)
    {
      run := Extend(run, e);
    }

    method AppendToJournal(op: Op)
      requires Valid() && Enabled(After(run), Append(op))
      modifies this
      ensures Valid() && run == old(run) + [Append(op)]
    {
      journal := journal + [Whole(op)];
      pending := Some(op);
      Happened(Append(op));
    }

    method ApplyPending()
      requires Valid() && Enabled(After(run), Apply)
      modifies this
      ensures Valid() && run == old(run) + [Apply]
    {
      drive := drive + {pending.value};
      pending := None;
      Happened(Apply);
    }

    /** The reply leaves. */
    method Acknowledge(op: Op)
      requires Valid() && Enabled(After(run), Ack(op))
      modifies this
      ensures Valid() && run == old(run) + [Ack(op)]
    {
      Happened(Ack(op));
    }

    method CaptureState()
      requires Valid() && Enabled(After(run), Capture)
      modifies this
      ensures Valid() && run == old(run) + [Capture]
    {
      phase := Captured(drive);
      Happened(Capture);
    }

    method SaveState(written: bool)
      requires Valid() && phase.Captured?
      modifies this
      ensures Valid() && run == old(run) + [if written then SaveOk else SaveFail]
    {
      if written {
        saved := phase.copy;
        phase := Saved;
        Happened(SaveOk);
      } else {
        phase := Idle;
        Happened(SaveFail);
      }
    }

    method ResetJournal(emptied: bool)
      requires Valid() && pending.None? && phase.Saved?
      modifies this
      ensures Valid() && run == old(run) + [if emptied then ResetOk else ResetFail]
    {
      phase := Idle;
      if emptied {
        journal := [];
        Happened(ResetOk);
      } else {
        Happened(ResetFail);
      }
    }

    /** The process dies, possibly in the middle of writing a record, and boots: restore the saved state,
        then replay the journal on top of it. Memory then holds exactly the operations that were
        appended and not lost. */
    method Reboot(torn: Option<Op>)
      requires Valid() && (torn.Some? ==> Enabled(After(run), TornAppend(torn.value)))
      modifies this
      ensures Valid() && run == old(run) + [if torn.Some? then TornAppend(torn.value) else Crash]
      ensures forall op :: op in drive <==>
                exists a: nat :: a < |old(run)| && old(run)[a] == Append(op) && !Lost(old(run), a)
    {
      RecoveryIsExact(run);
      if torn.Some? {
        InvHolds(run);
        ReplaySnoc(journal, Torn);
        journal := journal + [Torn];
      }
      drive, journal := ReplayOnto(saved, journal);
      pending, phase := None, Idle;
      Happened(if torn.Some? then TornAppend(torn.value) else Crash);
    }
  }

  /** Apply the records one by one up to the first torn one, which is cut off with what follows it. */
  method ReplayOnto(base: set<Op>, journal: seq<Record>) returns (drive: set<Op>, kept: seq<Record>)
    ensures drive == base + Replay(journal)
    ensures kept == WholePart(journal)
  {
    drive, kept := base, [];
    var rest := journal;
    while rest != [] && rest[0].Whole?
      invariant drive + Replay(rest) == base + Replay(journal)
      invariant kept + WholePart(rest) == WholePart(journal)
      decreases |rest|
    {
      drive, kept := drive + {rest[0].op}, kept + [rest[0]];
      rest := rest[1..];
    }
  }
}
