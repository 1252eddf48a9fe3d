/**
 A client of the change feed across restarts of the host (src/tenant.rs `from_state`): the feed begins
 again at 0, while the client polls on from the cursor it has, or opens the drive again and gets a
 snapshot and the cursor of that moment. (What an Open that races with writes misses is `Bootstrap`'s.)
 */
module Restart {
  import opened Math
  import opened WireTypes
  import opened Feed

  datatype Step =
    | Record(path: string, nodeId: string, kind: ChangeKind<string>, etag: string)
    | Fetch(limit: u32)
    | Reboot
    | Reopen

  function Took(w: World, step: Step): World
    requires Gapless(w.log) && |w.log| + 1 < TWO_64
  {
    match step
    case Record(path, nodeId, kind, etag) =>
      w.(log := w.log + [Change(Latest(w.log) + 1, path, nodeId, kind, etag)])
    case Fetch(limit) =>
      var page := PageOf(w.log, w.cursor, limit);
      w.(cursor := CursorAfter(page, w.cursor), got := w.got + page)
    case Reboot => w.(log := [], got := [])
    case Reopen => World(w.log, Latest(w.log), w.log)
  }

  /** `log` and `got`: what was recorded since the last restart, and what the client has of it. */
  function Live(steps: seq<Step>): World
    requires |steps| < TWO_64
    ensures |Live(steps).log| <= |steps| && Gapless(Live(steps).log)
  {
    if steps == [] then World([], 0, []) else Took(Live(steps[..|steps| - 1]), steps[|steps| - 1])
  }

  /** The cursor the client brought across the last restart; 0 once it opens the drive again. */
  function Carried(steps: seq<Step>): nat
    requires |steps| < TWO_64
  {
    if steps == [] then 0
    else
      var before := steps[..|steps| - 1];
      match steps[|steps| - 1]
      case Reboot => Live(before).cursor
      case Reopen => 0
      case _ => Carried(before)
  }

  /** What the client has is the stretch of the feed behind the carried cursor, up to where it has polled. */
  predicate HasStretch(w: World, carried: nat) {
    && carried <= w.cursor && (w.cursor <= |w.log| || w.cursor == carried)
    && w.got == w.log[Min(carried, |w.log|)..Min(w.cursor, |w.log|)]
  }

  lemma StretchesJoin(log: Log, lo: nat, mid: nat, hi: nat)
    requires lo <= mid <= hi <= |log|
    ensures log[lo..mid] + log[mid..hi] == log[lo..hi]
  {
  }

  lemma PollKeepsStretch(w: World, carried: nat, limit: u32)
    requires Gapless(w.log) && |w.log| + 1 < TWO_64 && HasStretch(w, carried)
    ensures HasStretch(Took(w, Fetch(limit)), carried)
  {
    PageIsNextStretch(w.log, w.cursor, limit);
    if w.cursor < |w.log| {
      StretchesJoin(w.log, carried, w.cursor, Min(w.cursor + Max(limit, 1), |w.log|));
    }
  }

  lemma RecordKeepsStretch(w: World, carried: nat, d: Delta)
    requires HasStretch(w, carried)
    ensures HasStretch(w.(log := w.log + [d]), carried)
  {
  }

  /** At every moment of every run. */
  lemma {:induction false} ClientHasStretch(steps: seq<Step>)
    requires |steps| < TWO_64
    ensures HasStretch(Live(steps), Carried(steps))
  {
    if steps != [] {
      var before := steps[..|steps| - 1];
      var w := Live(before);
      ClientHasStretch(before);
      match steps[|steps| - 1]
      case Record(path, nodeId, kind, etag) =>
        RecordKeepsStretch(w, Carried(before), Change(Latest(w.log) + 1, path, nodeId, kind, etag));
      case Fetch(limit) => PollKeepsStretch(w, Carried(before), limit);
      case Reboot =>
      case Reopen =>
    }
  }

  /** Once the drive falls silent, each poll brings the client one record closer. */
  lemma {:induction false} PollsReachEnd(steps: seq<Step>, quiet: nat)
    requires |steps| < TWO_64 && quiet <= |steps|
    requires forall k :: quiet <= k < |steps| ==> steps[k].Fetch?
    ensures var w := Live(steps); w.cursor >= Min(|w.log|, |steps| - quiet)
    decreases |steps|
  {
    if quiet < |steps| {
      var before := steps[..|steps| - 1];
      PollsReachEnd(before, quiet);
      PageIsNextStretch(Live(before).log, Live(before).cursor, steps[|steps| - 1].limit);
    }
  }

  /** After as many polls as there are records the client has all of them but the first ones, as many as
      the cursor it carried across the last restart says. So it has every record of a drive that has
      recorded any exactly when it carried none: it was new, or has opened the drive again. */
  lemma RestartHidesTheFirst(steps: seq<Step>, quiet: nat)
    requires |steps| < TWO_64 && quiet <= |steps|
    requires forall k :: quiet <= k < |steps| ==> steps[k].Fetch?
    ensures var w := Live(steps);
            |steps| - quiet >= |w.log| ==>
              && w.got == w.log[Min(Carried(steps), |w.log|)..]
              && (w.got == w.log <==> w.log == [] || Carried(steps) == 0)
  {
    ClientHasStretch(steps);
    PollsReachEnd(steps, quiet);
    var w := Live(steps);
    assert w.log[Min(Carried(steps), |w.log|)..|w.log|] == w.log[Min(Carried(steps), |w.log|)..];
  }

  const CHANGED := Record("/a", "n", Modified, "e")

  lemma OneMore(steps: seq<Step>, step: Step)
    requires |steps| + 1 < TWO_64
    ensures Live(steps + [step]) == Took(Live(steps), step)
  {
    assert (steps + [step])[..|steps|] == steps;
  }

  /** A client that has polled one change, a restart, another change: no poll will ever show it. */
  lemma RestartHidesAChange()
    ensures var w := Live([CHANGED, Fetch(1), Reboot, CHANGED]);
            |w.log| == 1 && w.got == [] && forall limit: u32 :: PageOf(w.log, w.cursor, limit) == []
  {
    var one := [CHANGED];
    var polled := one + [Fetch(1)];
    var restarted := polled + [Reboot];
    OneMore([], CHANGED);
    assert [] + [CHANGED] == one;
    OneMore(one, Fetch(1));
    PageIsNextStretch(Live(one).log, 0, 1);
    OneMore(polled, Reboot);
    assert Live(restarted) == World([], 1, []);
    OneMore(restarted, CHANGED);
    assert restarted + [CHANGED] == [CHANGED, Fetch(1), Reboot, CHANGED];
    forall limit: u32
      ensures PageOf(Live(restarted + [CHANGED]).log, 1, limit) == []
    {
      PageIsNextStretch(Live(restarted + [CHANGED]).log, 1, limit);
    }
  }
}
