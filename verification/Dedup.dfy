/**
 The inbound filter (src/serve.rs `handle_inbound`). A request may reach the host twice, through the
 stream and through the inbox; its reply token says it is the same one. The set of tokens seen is emptied
 when it grows past a bound.
 */
module Dedup {
  import opened Wrappers
  import opened WireTypes

  const DRIVE_TOPIC := "ce-drive/v1"
  const ITEMS_TOPIC := "ce-drive/items"
  const BOUND := 8192

  datatype Message = Message(replyToken: Option<u64>, topic: string, sender: string, payload: string)

  datatype Verdict = NotARequest | Duplicate | AsItems | AsDriveCall

  /** Carries a reply token and is addressed to one of the two audiences. */
  predicate Eligible(m: Message) {
    m.replyToken.Some? && (m.topic == DRIVE_TOPIC || m.topic == ITEMS_TOPIC)
  }

  function VerdictOn(seen: set<u64>, m: Message): Verdict {
    if !Eligible(m) then NotARequest
    else if m.replyToken.value in seen then Duplicate
    else if m.topic == ITEMS_TOPIC then AsItems else AsDriveCall
  }

  /** The message makes the host forget every token but its own. */
  predicate Clears(seen: set<u64>, m: Message) {
    Eligible(m) && m.replyToken.value !in seen && |seen| + 1 > BOUND
  }

  function SeenNext(seen: set<u64>, m: Message): set<u64> {
    if !Eligible(m) then seen
    else if Clears(seen, m) then {m.replyToken.value}
    else seen + {m.replyToken.value}
  }

  class Inbox {
    var seen: set<u64>

    constructor ()
      ensures seen == {}
    {
      seen := {};
    }

    /** What is done with a message: `AsItems` and `AsDriveCall` hand it to the handler of its topic, once. */
    method HandleInbound(m: Message) returns (verdict: Verdict)
      modifies this
      ensures verdict == VerdictOn(old(seen), m)
      ensures seen == SeenNext(old(seen), m)
      ensures verdict == AsDriveCall <==>
                m.replyToken.Some? && m.topic == "ce-drive/v1" && m.replyToken.value !in old(seen)
      ensures verdict == AsItems <==>
                m.replyToken.Some? && m.topic == "ce-drive/items" && m.replyToken.value !in old(seen)
      ensures verdict == Duplicate <==>
                && m.replyToken.Some? && m.topic in {"ce-drive/v1", "ce-drive/items"}
                && m.replyToken.value in old(seen)
      ensures seen == (if verdict in {NotARequest, Duplicate} then old(seen)
                       else if |old(seen)| < 8192 then old(seen) + {m.replyToken.value}
                       else {m.replyToken.value})
    {
      if m.replyToken.None? { return NotARequest; }
      var token := m.replyToken.value;
      var isItems := m.topic == ITEMS_TOPIC;
      if m.topic != DRIVE_TOPIC && !isItems { return NotARequest; }
      if token in seen { return Duplicate; }
      seen := seen + {token};
      if |seen| > BOUND {
        seen := {};
        seen := seen + {token};
      }
      verdict := if isItems then AsItems else AsDriveCall;
    }
  }

  // ----- runs: `Seen(msgs, t)` is what has been seen before message `t` -----

  function Seen(msgs: seq<Message>, t: nat): set<u64>
    requires t <= |msgs|
  {
    if t == 0 then {} else SeenNext(Seen(msgs, t - 1), msgs[t - 1])
  }

  predicate Handled(msgs: seq<Message>, t: nat)
    requires t < |msgs|
  {
    VerdictOn(Seen(msgs, t), msgs[t]) in {AsItems, AsDriveCall}
  }

  predicate ClearsAt(msgs: seq<Message>, t: nat)
    requires t < |msgs|
  {
    Clears(Seen(msgs, t), msgs[t])
  }

  /** The set never outgrows its bound, and is emptied only when it is full. */
  lemma {:induction false} SeenIsBounded(msgs: seq<Message>, t: nat)
    requires t <= |msgs|
    ensures |Seen(msgs, t)| <= 8192
    ensures t < |msgs| && ClearsAt(msgs, t) ==> |Seen(msgs, t)| == 8192 && Handled(msgs, t)
  {
    if t > 0 { SeenIsBounded(msgs, t - 1); }
  }

  /** An eligible message before `t` carried this token. */
  predicate Earlier(msgs: seq<Message>, t: nat, token: u64)
    requires t <= |msgs|
  {
    exists i :: 0 <= i < t && Eligible(msgs[i]) && msgs[i].replyToken.value == token
  }

  /** The set was emptied strictly between messages `i` and `t`. */
  predicate ClearedBetween(msgs: seq<Message>, i: nat, t: nat)
    requires t <= |msgs|
  {
    exists c :: i < c < t && ClearsAt(msgs, c)
  }

  /** Message `i` carried this token, and the set has not been emptied since. */
  predicate Remembers(msgs: seq<Message>, t: nat, token: u64, i: nat)
    requires i < t <= |msgs|
  {
    Eligible(msgs[i]) && msgs[i].replyToken.value == token && !ClearedBetween(msgs, i, t)
  }

  /** What has been seen is exactly what came since the last clear. */
  lemma {:induction false} SeenIsRemembered(msgs: seq<Message>, t: nat, token: u64)
    requires t <= |msgs|
    ensures token in Seen(msgs, t) <==> exists i: nat :: i < t && Remembers(msgs, t, token, i)
  {
    if t > 0 {
      SeenIsRemembered(msgs, t - 1, token);
      forall i: nat | i < t - 1
        ensures Remembers(msgs, t, token, i) <==> Remembers(msgs, t - 1, token, i) && !ClearsAt(msgs, t - 1)
      {
        ClearedSnoc(msgs, i, t);
      }
      assert Remembers(msgs, t, token, t - 1) <==>
             Eligible(msgs[t - 1]) && msgs[t - 1].replyToken.value == token;
      if !ClearsAt(msgs, t - 1) && token in Seen(msgs, t - 1) {
        var u := t - 1;
        var i: nat :| i < u && Remembers(msgs, u, token, i);
        assert Remembers(msgs, t, token, i);
      }
    }
  }

  lemma ClearedSnoc(msgs: seq<Message>, i: nat, t: nat)
    requires 0 < t <= |msgs| && i < t - 1
    ensures ClearedBetween(msgs, i, t) <==> ClearedBetween(msgs, i, t - 1) || ClearsAt(msgs, t - 1)
  {
    if c :| i < c < t - 1 && ClearsAt(msgs, c) {
      assert i < c < t && ClearsAt(msgs, c);
    }
  }

  /** A request is handled exactly when the set was emptied since each earlier one with its token. */
  lemma HandledIffCleared(msgs: seq<Message>, t: nat)
    requires t < |msgs|
    ensures Handled(msgs, t) <==>
            Eligible(msgs[t])
            && forall i: nat :: i < t && Eligible(msgs[i]) && msgs[i].replyToken == msgs[t].replyToken
                                ==> ClearedBetween(msgs, i, t)
  {
    if Eligible(msgs[t]) {
      var token := msgs[t].replyToken.value;
      SeenIsRemembered(msgs, t, token);
      forall i: nat | i < t && Eligible(msgs[i]) && msgs[i].replyToken == msgs[t].replyToken
        ensures Remembers(msgs, t, token, i) <==> !ClearedBetween(msgs, i, t)
      {}
    }
  }

  /** One token handled twice: the set was emptied in between. */
  lemma HandledTwiceMeansCleared(msgs: seq<Message>, i: nat, j: nat)
    requires i < j < |msgs| && Handled(msgs, i) && Handled(msgs, j) && msgs[i].replyToken == msgs[j].replyToken
    ensures ClearedBetween(msgs, i, j)
  {
    HandledIffCleared(msgs, j);
  }

  /** Some token is handled at two places. */
  ghost predicate HandlesTwice(msgs: seq<Message>) {
    exists i: nat, j: nat ::
      i < j < |msgs| && Handled(msgs, i) && Handled(msgs, j) && msgs[i].replyToken == msgs[j].replyToken
  }

  /** Some token arrives on both sides of a clear. */
  ghost predicate StraddlesClear(msgs: seq<Message>) {
    exists i: nat, j: nat ::
      i < j < |msgs| && Eligible(msgs[i]) && Eligible(msgs[j]) && msgs[i].replyToken == msgs[j].replyToken
      && ClearedBetween(msgs, i, j)
  }

  /** The first message with a token is handled. */
  lemma {:induction false} FirstIsHandled(msgs: seq<Message>, i: nat) returns (h: nat)
    requires i < |msgs| && Eligible(msgs[i])
    ensures h <= i && Handled(msgs, h) && msgs[h].replyToken == msgs[i].replyToken
  {
    if k: nat :| k < i && Eligible(msgs[k]) && msgs[k].replyToken == msgs[i].replyToken {
      h := FirstIsHandled(msgs, k);
    } else {
      HandledIffCleared(msgs, i);
      h := i;
    }
  }

  /** The first message with a token after a clear is handled. */
  lemma {:induction false} FirstAfterClearIsHandled(msgs: seq<Message>, c: nat, j: nat) returns (h: nat)
    requires c < j < |msgs| && ClearsAt(msgs, c) && Eligible(msgs[j])
    ensures c <= h <= j && Handled(msgs, h) && msgs[h].replyToken == msgs[j].replyToken
  {
    if k: nat :| c < k < j && Eligible(msgs[k]) && msgs[k].replyToken == msgs[j].replyToken {
      h := FirstAfterClearIsHandled(msgs, c, k);
    } else if msgs[c].replyToken == msgs[j].replyToken {
      h := c;
    } else {
      HandledIffCleared(msgs, j);
      h := j;
    }
  }

  /** No request of a run is handled twice exactly when no token arrives on both sides of a clear. */
  lemma HandledTwiceIffStraddles(msgs: seq<Message>)
    ensures HandlesTwice(msgs) <==> StraddlesClear(msgs)
  {
    if HandlesTwice(msgs) {
      var i: nat, j: nat :|
        i < j < |msgs| && Handled(msgs, i) && Handled(msgs, j) && msgs[i].replyToken == msgs[j].replyToken;
      HandledTwiceMeansCleared(msgs, i, j);
    }
    if StraddlesClear(msgs) {
      var i: nat, j: nat :|
        i < j < |msgs| && Eligible(msgs[i]) && Eligible(msgs[j]) && msgs[i].replyToken == msgs[j].replyToken
        && ClearedBetween(msgs, i, j);
      var c :| i < c < j && ClearsAt(msgs, c);
      var a := FirstIsHandled(msgs, i);
      var b := FirstAfterClearIsHandled(msgs, c, j);
      assert a < b;
    }
  }

  // ----- few enough tokens -----

  /** The tokens of the eligible messages before `t`. */
  function Tokens(msgs: seq<Message>, t: nat): set<u64>
    requires t <= |msgs|
  {
    if t == 0 then {}
    else Tokens(msgs, t - 1) + if Eligible(msgs[t - 1]) then {msgs[t - 1].replyToken.value} else {}
  }

  lemma {:induction false} SeenAreTokens(msgs: seq<Message>, t: nat)
    requires t <= |msgs|
    ensures Seen(msgs, t) <= Tokens(msgs, t) <= Tokens(msgs, |msgs|)
    decreases |msgs| - t
  {
    if t < |msgs| { SeenAreTokens(msgs, t + 1); }
    SeenWithinTokens(msgs, t);
  }

  lemma {:induction false} SeenWithinTokens(msgs: seq<Message>, t: nat)
    requires t <= |msgs|
    ensures Seen(msgs, t) <= Tokens(msgs, t)
  {
    if t > 0 { SeenWithinTokens(msgs, t - 1); }
  }

  lemma SubsetIsSmaller(a: set<u64>, b: set<u64>)
    requires a <= b
    ensures |a| <= |b|
  {
    assert b == a + (b - a);
  }

  lemma FewTokensNeverClear(msgs: seq<Message>, t: nat)
    requires t < |msgs| && |Tokens(msgs, |msgs|)| <= BOUND
    ensures !ClearsAt(msgs, t)
  {
    SeenAreTokens(msgs, t);
    SeenAreTokens(msgs, t + 1);
    if Eligible(msgs[t]) {
      SubsetIsSmaller(Seen(msgs, t) + {msgs[t].replyToken.value}, Tokens(msgs, |msgs|));
    }
  }

  /** In a run with no more than 8192 different tokens every request is handled exactly once, the first
      time it arrives, however often and in whatever order it is repeated. */
  lemma HandledExactlyOnce(msgs: seq<Message>, t: nat)
    requires t < |msgs| && |Tokens(msgs, |msgs|)| <= 8192
    ensures Handled(msgs, t) <==> Eligible(msgs[t]) && !Earlier(msgs, t, msgs[t].replyToken.value)
  {
    HandledIffCleared(msgs, t);
    forall c | 0 <= c < t ensures !ClearsAt(msgs, c) { FewTokensNeverClear(msgs, c); }
  }

  // ----- one more token than the bound -----

  function Request(token: u64): Message {
    Message(Some(token), DRIVE_TOPIC, "", "")
  }

  /** Requests 0, 1, ..., `n`, then request 0 again. */
  function Lap(n: nat): (msgs: seq<Message>)
    requires n < TWO_64
    ensures |msgs| == n + 2 && msgs[n + 1] == Request(0)
    ensures forall k :: 0 <= k <= n ==> msgs[k] == Request(k)
  {
    seq(n + 1, k requires 0 <= k < n + 1 => Request(k)) + [Request(0)]
  }

  function Below(n: nat): (r: set<u64>)
    requires n < TWO_64
    ensures |r| == n && forall k: u64 :: k in r <==> k < n
  {
    if n == 0 then {} else Below(n - 1) + {n - 1}
  }

  lemma {:induction false} SeenIsBelow(msgs: seq<Message>, t: nat)
    requires t <= |msgs| && t <= BOUND
    requires forall k :: 0 <= k < t ==> msgs[k] == Request(k)
    ensures Seen(msgs, t) == Below(t)
  {
    if t == 0 {
    } else {
      var k := t - 1;
      SeenIsBelow(msgs, k);
      assert Seen(msgs, t) == SeenNext(Below(k), Request(k));
      NextBelow(k);
    }
  }

  lemma NextBelow(k: nat)
    requires k < BOUND
    ensures SeenNext(Below(k), Request(k)) == Below(k + 1)
  {
    assert !Clears(Below(k), Request(k));
  }

  /** 8193 different requests, then the first one again: it is handled a second time. */
  lemma RepeatAfterClearIsHandledAgain()
    ensures var msgs := Lap(8192); msgs[0] == msgs[8193] && Handled(msgs, 0) && Handled(msgs, 8193)
  {
    var n := 8192;
    SeenIsBelow(Lap(n), n);
    assert Clears(Seen(Lap(n), n), Request(n));
    assert Seen(Lap(n), n + 1) == {n};
  }
}
