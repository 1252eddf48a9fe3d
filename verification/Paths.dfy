/**
 Drive paths and the drive-bound capability prefix (src/serve.rs).

 A path string is compared by the host through string tests (`starts_with`, equality). This module
 gives those tests a meaning: a normalised path is a list of '/'-separated segments, and one path
 lies in the scope of another exactly when the segment lists are in prefix order.
 */
module Paths {
  import opened Wrappers
  import Seqs

  const DRIVE_NS := "ce-drive/"

  /** The characters `str::trim` removes: Unicode White_Space. */
  predicate IsSpace(c: char) {
    || '\t' <= c <= '\r'
    || c in " \U{0085}\U{00A0}\U{1680}\U{2028}\U{2029}\U{202F}\U{205F}\U{3000}"
    || '\U{2000}' <= c <= '\U{200A}'
  }

  predicate IsSlash(c: char) {
    c == '/'
  }

  function TrimStart(s: string, drop: char -> bool): string {
    if s != "" && drop(s[0]) then TrimStart(s[1..], drop) else s
  }

  function TrimEnd(s: string, drop: char -> bool): string {
    if s != "" && drop(s[|s| - 1]) then TrimEnd(s[..|s| - 1], drop) else s
  }

  function Trim(s: string, drop: char -> bool): string {
    TrimEnd(TrimStart(s, drop), drop)
  }

  /** What is left of a path once outer white space, then outer slashes, are gone. */
  function Core(p: string): string {
    Trim(Trim(p, IsSpace), IsSlash)
  }

  function NormPath(p: string): string {
    var t := Core(p);
    if t == "" then "/" else "/" + t
  }

  /** `s.split('/')`. */
  function Split(s: string): (segs: seq<string>)
    ensures segs != []
  {
    if s == "" then [""]
    else
      var rest := Split(s[1..]);
      if s[0] == '/' then [""] + rest else [[s[0]] + rest[0]] + rest[1..]
  }

  /** The segments of a normalised path; the root has none. */
  function Segments(norm: string): seq<string>
    requires norm != ""
  {
    if norm == "/" then [] else Split(norm[1..])
  }

  function NoDotDot(p: string): Outcome<PathError> {
    if ".." in Split(p) then Fail(BadPath) else Pass
  }

  datatype PathError = BadPath | OutOfScope

  function EnforcePrefix(scope: string, path: string): Outcome<PathError> {
    var norm := NormPath(path);
    var pfx := NormPath(scope);
    if pfx == "/" || norm == pfx || pfx + "/" <= norm then Pass else Fail(OutOfScope)
  }

  function DrivePrefix(drive: string, path: string): string {
    var norm := NormPath(path);
    if norm == "/" then DRIVE_NS + drive else DRIVE_NS + drive + norm
  }

  /** `s.split_once('/')`. */
  function SplitOnce(s: string): (r: Option<(string, string)>)
    ensures if r.Some? then '/' !in r.value.0 else '/' !in s
  {
    if s == "" then None
    else if s[0] == '/' then Some(("", s[1..]))
    else
      match SplitOnce(s[1..])
      case None => None
      case Some((before, after)) => Some(([s[0]] + before, after))
  }

  function ParseDrivePrefix(prefix: string): Option<(string, string)> {
    if !(DRIVE_NS <= prefix) then None
    else
      var rest := prefix[|DRIVE_NS|..];
      match SplitOnce(rest)
      case Some((drive, path)) => if drive != "" then Some((drive, NormPath(path))) else None
      case None => if rest != "" then Some((rest, "/")) else None
  }

  /** No white space at either end of the path once its outer slashes are gone. */
  predicate Clean(p: string) {
    var t := Core(p);
    t == "" || (!IsSpace(t[0]) && !IsSpace(t[|t| - 1]))
  }

  // ----- trimming -----

  /** Neither end is a character `drop` would remove. */
  predicate Bare(s: string, drop: char -> bool) {
    s == "" || (!drop(s[0]) && !drop(s[|s| - 1]))
  }

  lemma TrimStartShape(s: string, drop: char -> bool) returns (k: nat)
    ensures k <= |s| && TrimStart(s, drop) == s[k..]
    ensures forall i :: 0 <= i < k ==> drop(s[i])
    ensures k < |s| ==> !drop(s[k])
  {
    if s != "" && drop(s[0]) {
      var k' := TrimStartShape(s[1..], drop);
      k := k' + 1;
    } else {
      k := 0;
    }
  }

  lemma TrimEndShape(s: string, drop: char -> bool) returns (k: nat)
    ensures k <= |s| && TrimEnd(s, drop) == s[..k]
    ensures forall i :: k <= i < |s| ==> drop(s[i])
    ensures k > 0 ==> !drop(s[k - 1])
  {
    if s != "" && drop(s[|s| - 1]) {
      k := TrimEndShape(s[..|s| - 1], drop);
    } else {
      k := |s|;
    }
  }

  lemma TrimIsBare(s: string, drop: char -> bool)
    ensures Bare(Trim(s, drop), drop)
  {
    var i := TrimStartShape(s, drop);
    var j := TrimEndShape(TrimStart(s, drop), drop);
  }

  lemma TrimFixes(s: string, drop: char -> bool)
    requires Bare(s, drop)
    ensures Trim(s, drop) == s
  {}

  lemma TrimShrinks(s: string, drop: char -> bool)
    ensures |Trim(s, drop)| <= |s|
    ensures |Trim(s, drop)| == |s| ==> Bare(s, drop)
  {
    var i := TrimStartShape(s, drop);
    var j := TrimEndShape(TrimStart(s, drop), drop);
  }

  /** A normalised path is "/" followed by text with no slash at either end. */
  lemma NormShape(p: string)
    ensures NormPath(p) == "/" + Core(p)
    ensures Bare(Core(p), IsSlash)
  {
    TrimIsBare(Trim(p, IsSpace), IsSlash);
  }

  /** Text that is bare for slashes and for white space is its own core. */
  lemma CoreFixes(t: string)
    requires Bare(t, IsSlash) && Bare(t, IsSpace)
    ensures Core(t) == t
  {}

  lemma CoreShrinks(t: string)
    ensures |Core(t)| <= |t|
    ensures |Core(t)| == |t| ==> Bare(t, IsSpace) && Core(t) == t
  {
    TrimShrinks(t, IsSpace);
    TrimShrinks(Trim(t, IsSpace), IsSlash);
  }

  // ----- what is trimmed -----

  /** Every character that Unicode calls White_Space. */
  const WHITE_SPACE := "\t\n\U{000B}\U{000C}\r \U{0085}\U{00A0}\U{1680}\U{2000}\U{2001}\U{2002}\U{2003}\U{2004}"
                     + "\U{2005}\U{2006}\U{2007}\U{2008}\U{2009}\U{200A}\U{2028}\U{2029}\U{202F}\U{205F}\U{3000}"

  lemma SpaceIsWhite(c: char)
    ensures IsSpace(c) <==> c in WHITE_SPACE
  {
    assert |WHITE_SPACE| == 25;
    assert c in WHITE_SPACE <==> exists k :: 0 <= k < 25 && WHITE_SPACE[k] == c;
  }

  lemma {:induction false} TrimStartOf(lead: string, rest: string, drop: char -> bool)
    requires (forall c <- lead :: drop(c)) && (rest == "" || !drop(rest[0]))
    ensures TrimStart(lead + rest, drop) == rest
  {
    if lead == "" {
      assert lead + rest == rest;
    } else {
      assert (lead + rest)[1..] == lead[1..] + rest;
      TrimStartOf(lead[1..], rest, drop);
    }
  }

  lemma {:induction false} TrimEndOf(rest: string, tail: string, drop: char -> bool)
    requires (forall c <- tail :: drop(c)) && (rest == "" || !drop(rest[|rest| - 1]))
    ensures TrimEnd(rest + tail, drop) == rest
    decreases |tail|
  {
    if tail == "" {
      assert rest + tail == rest;
    } else {
      assert (rest + tail)[..|rest + tail| - 1] == rest + tail[..|tail| - 1];
      TrimEndOf(rest, tail[..|tail| - 1], drop);
    }
  }

  lemma TrimOf(lead: string, s: string, tail: string, drop: char -> bool)
    requires (forall c <- lead + tail :: drop(c)) && Bare(s, drop)
    ensures Trim(lead + s + tail, drop) == s
  {
    assert forall c :: c in lead || c in tail ==> c in lead + tail;
    if s == "" {
      assert lead + s + tail == lead + tail + "";
      TrimStartOf(lead + tail, "", drop);
    } else {
      assert lead + s + tail == lead + (s + tail) && (s + tail)[0] == s[0];
      TrimStartOf(lead, s + tail, drop);
      TrimEndOf(s, tail, drop);
    }
  }

  /** White space around slashes around text: the normalised path is "/" and the text. */
  lemma NormIsExact(before: string, lead: string, core: string, tail: string, after: string)
    requires forall c <- before + after :: c in WHITE_SPACE
    requires forall c <- lead + tail :: c == '/'
    requires core == "" || (core[0] != '/' && core[|core| - 1] != '/')
    requires var path := lead + core + tail;
             path == "" || (path[0] !in WHITE_SPACE && path[|path| - 1] !in WHITE_SPACE)
    ensures NormPath(before + (lead + core + tail) + after) == "/" + core
  {
    forall c: char ensures IsSpace(c) <==> c in WHITE_SPACE { SpaceIsWhite(c); }
    TrimOf(before, lead + core + tail, after, IsSpace);
    TrimOf(lead, core, tail, IsSlash);
    NormShape(before + (lead + core + tail) + after);
  }

  // ----- segments -----

  lemma {:induction false} SplitAt(a: string, b: string)
    requires '/' !in a
    ensures Split(a) == [a]
    ensures Split(a + "/" + b) == [a] + Split(b)
  {
    var s := a + "/" + b;
    if a == "" {
      assert s[1..] == b;
    } else {
      SplitAt(a[1..], b);
      assert s[1..] == a[1..] + "/" + b;
      assert a == [a[0]] + a[1..];
    }
  }

  /** The string tests behind a scope check are the prefix order on segment lists. */
  lemma {:induction false} SplitPrefix(x: string, y: string)
    ensures Split(x) <= Split(y) <==> y == x || x + "/" <= y
  {
    if x == "" {
      assert Split(x) <= Split(y) <==> Split(y)[0] == "";
    } else if y != "" {
      SplitPrefix(x[1..], y[1..]);
      var r, r' := Split(x[1..]), Split(y[1..]);
      assert x == [x[0]] + x[1..] && y == [y[0]] + y[1..];
      assert x + "/" == [x[0]] + (x[1..] + "/");
      if x[0] != '/' && y[0] != '/' {
        assert Split(x)[1..] == r[1..] && Split(y)[1..] == r'[1..];
        assert Split(x) <= Split(y) <==> x[0] == y[0] && r <= r' by {
          assert r == [r[0]] + r[1..] && r' == [r'[0]] + r'[1..];
          if Split(x) <= Split(y) {
            assert Split(x)[0] == Split(y)[0];
            assert Split(x)[0][0] == x[0] && Split(y)[0][0] == y[0];
            assert Split(x)[0][1..] == r[0] && Split(y)[0][1..] == r'[0];
          }
        }
      } else {
        assert x[0] == '/' ==> Split(x)[0] == "" && Split(x)[1..] == r;
        assert y[0] == '/' ==> Split(y)[0] == "" && Split(y)[1..] == r';
        assert x[0] == y[0] == '/' ==> (Split(x) <= Split(y) <==> r <= r');
      }
    } else {
      assert Split(x) != [""];
    }
  }

  lemma SplitInjective(x: string, y: string)
    requires Split(x) == Split(y)
    ensures x == y
  {
    SplitPrefix(x, y);
    SplitPrefix(y, x);
    assert x != y ==> |x + "/"| <= |y| && |y + "/"| <= |x|;
  }

  /** The segments tell a path, once it is known to start with a slash. */
  lemma SegmentsInjective(a: string, b: string)
    requires a != "" && b != "" && a[0] == b[0] == '/' && Segments(a) == Segments(b)
    ensures a == b
  {
    assert a == "/" + a[1..] && b == "/" + b[1..];
    if a != "/" && b != "/" { SplitInjective(a[1..], b[1..]); }
  }

  /** `enforce_prefix` admits a path exactly when the scope's segments are a prefix of the path's. */
  lemma ScopeIsSegmentPrefix(scope: string, path: string)
    ensures EnforcePrefix(scope, path).Pass? <==> Segments(NormPath(scope)) <= Segments(NormPath(path))
  {
    NormShape(scope);
    NormShape(path);
    var s, t := Core(scope), Core(path);
    SplitPrefix(s, t);
    assert NormPath(scope)[1..] == s && NormPath(path)[1..] == t;
    assert "/" + s + "/" == "/" + (s + "/");
    assert "/" + s + "/" <= "/" + t <==> s + "/" <= t by {
      if s + "/" <= t { assert "/" + t == "/" + (s + "/") + t[|s| + 1..]; }
      if "/" + s + "/" <= "/" + t { assert ("/" + t)[1..|s| + 2] == ("/" + s + "/")[1..]; }
    }
    assert s != "" ==> Split(s) != [];
  }

  /** A scope check is a preorder, so narrowing twice stays inside the widest scope. */
  lemma ScopeIsPreorder(a: string, b: string, c: string)
    ensures EnforcePrefix(a, a).Pass?
    ensures EnforcePrefix(a, b).Pass? && EnforcePrefix(b, c).Pass? ==> EnforcePrefix(a, c).Pass?
    ensures EnforcePrefix(a, b).Pass? && EnforcePrefix(b, a).Pass? ==> NormPath(a) == NormPath(b)
  {
    ScopeIsSegmentPrefix(a, a);
    ScopeIsSegmentPrefix(a, b);
    ScopeIsSegmentPrefix(b, a);
    ScopeIsSegmentPrefix(b, c);
    ScopeIsSegmentPrefix(a, c);
  }

  /** Trimming outer slashes removes empty segments only. */
  lemma {:induction false} TrimStartKeepsDotDot(s: string)
    ensures ".." in Split(TrimStart(s, IsSlash)) <==> ".." in Split(s)
  {
    if s != "" && s[0] == '/' {
      TrimStartKeepsDotDot(s[1..]);
      assert Split(s) == [""] + Split(s[1..]);
    }
  }

  lemma {:induction false} SplitSnoc(s: string)
    ensures Split(s + "/") == Split(s) + [""]
  {
    if s == "" {
      assert s + "/" == "/";
      assert "/"[1..] == "";
    } else {
      SplitSnoc(s[1..]);
      assert (s + "/")[1..] == s[1..] + "/";
    }
  }

  lemma {:induction false} TrimEndKeepsDotDot(s: string)
    ensures ".." in Split(TrimEnd(s, IsSlash)) <==> ".." in Split(s)
    decreases |s|
  {
    if s != "" && s[|s| - 1] == '/' {
      TrimEndKeepsDotDot(s[..|s| - 1]);
      SplitSnoc(s[..|s| - 1]);
      assert s == s[..|s| - 1] + "/";
    }
  }

  /** The traversal guard, read on the path without outer white space, says exactly whether the
      normalised path names "..". */
  lemma GuardMatchesNormalised(p: string)
    ensures NoDotDot(Trim(p, IsSpace)).Pass? <==> ".." !in Segments(NormPath(p))
  {
    var s := Trim(p, IsSpace);
    TrimStartKeepsDotDot(s);
    TrimEndKeepsDotDot(TrimStart(s, IsSlash));
    NormShape(p);
    assert NormPath(p)[1..] == Core(p);
  }

  /** The segments with text put before the first, or after the last. */
  function GrowFirst(lead: string, xs: seq<string>): seq<string>
    requires xs != []
  {
    [lead + xs[0]] + xs[1..]
  }

  function GrowLast(xs: seq<string>, tail: string): seq<string>
    requires xs != []
  {
    xs[..|xs| - 1] + [xs[|xs| - 1] + tail]
  }

  lemma {:induction false} SplitLead(lead: string, s: string)
    requires '/' !in lead
    ensures Split(lead + s) == GrowFirst(lead, Split(s))
  {
    if lead == "" {
      assert "" + s == s && "" + Split(s)[0] == Split(s)[0];
    } else {
      SplitLead(lead[1..], s);
      assert (lead + s)[1..] == lead[1..] + s;
      assert [lead[0]] + (lead[1..] + Split(s)[0]) == lead + Split(s)[0];
    }
  }

  lemma GrowBothEnds(lead: string, xs: seq<string>, tail: string)
    requires xs != []
    ensures GrowLast(GrowFirst(lead, xs), tail) == GrowFirst(lead, GrowLast(xs, tail))
    ensures GrowLast([lead] + xs, tail) == [lead] + GrowLast(xs, tail)
  {
    if |xs| == 1 {
      assert (lead + xs[0]) + tail == lead + (xs[0] + tail);
    }
  }

  lemma {:induction false} SplitTail(s: string, tail: string)
    requires '/' !in tail
    ensures Split(s + tail) == GrowLast(Split(s), tail)
  {
    if s == "" {
      assert "" + tail == tail;
      SplitAt(tail, "");
    } else {
      SplitTail(s[1..], tail);
      assert (s + tail)[1..] == s[1..] + tail && (s + tail)[0] == s[0];
      if s[0] == '/' {
        GrowBothEnds("", Split(s[1..]), tail);
      } else {
        assert Split(s) == GrowFirst([s[0]], Split(s[1..]));
        GrowBothEnds([s[0]], Split(s[1..]), tail);
      }
    }
  }

  lemma TrimParts(p: string) returns (lead: string, tail: string)
    ensures p == lead + Trim(p, IsSpace) + tail
    ensures '/' !in lead && '/' !in tail
  {
    var i := TrimStartShape(p, IsSpace);
    var k := TrimEndShape(p[i..], IsSpace);
    lead, tail := p[..i], p[i..][k..];
    assert forall c <- lead :: IsSpace(c);
    assert forall c <- tail :: IsSpace(c);
  }

  lemma InnerStays(lead: string, xs: seq<string>, tail: string)
    requires xs != []
    ensures var ys := GrowLast(GrowFirst(lead, xs), tail);
            |xs| == |ys| && forall k :: 0 < k < |xs| - 1 ==> xs[k] == ys[k]
  {
  }

  /** Outer white space only grows the first and the last segment. */
  lemma SplitTrimmed(p: string)
    ensures var xs, ys := Split(Trim(p, IsSpace)), Split(p);
            |xs| == |ys| && forall k :: 0 < k < |xs| - 1 ==> xs[k] == ys[k]
  {
    var m := Trim(p, IsSpace);
    var lead, tail := TrimParts(p);
    SplitLead(lead, m);
    SplitTail(lead + m, tail);
    InnerStays(lead, Split(m), tail);
  }

  /** The path, without outer white space, has ".." as its first or last segment. */
  predicate EdgeDotDot(p: string) {
    var xs := Split(Trim(p, IsSpace));
    xs[0] == ".." || xs[|xs| - 1] == ".."
  }

  lemma OnlyAtTheEdge(xs: seq<string>, ys: seq<string>, x: string)
    requires |xs| == |ys| > 0 && forall k :: 0 < k < |xs| - 1 ==> xs[k] == ys[k]
    ensures x in xs && x !in ys ==> xs[0] == x || xs[|xs| - 1] == x
  {
    if x in xs {
      var k :| 0 <= k < |xs| && xs[k] == x;
      assert 0 < k < |xs| - 1 ==> ys[k] == x;
    }
  }

  /** The guard keeps ".." out of the normalised path exactly when it refuses the raw one, or the
      trimmed one has no ".." at either end. */
  lemma GuardIsRightIff(p: string)
    ensures (NoDotDot(p).Pass? ==> ".." !in Segments(NormPath(p))) <==> NoDotDot(p).Fail? || !EdgeDotDot(p)
  {
    var xs, ys := Split(Trim(p, IsSpace)), Split(p);
    assert ".." in Segments(NormPath(p)) <==> ".." in xs by { GuardMatchesNormalised(p); }
    assert ".." in xs && ".." !in ys ==> EdgeDotDot(p) by {
      SplitTrimmed(p);
      OnlyAtTheEdge(xs, ys, "..");
    }
  }

  /** A path the guard admits although it normalises to "/..". */
  lemma GuardMissesPaddedDotDot()
    ensures NoDotDot(".. ").Pass? && ".." in Segments(NormPath(".. "))
  {
    SplitAt(".. ", "");
    assert Trim(".. ", IsSpace) == ".." by {
      assert TrimStart(".. ", IsSpace) == ".. ";
      assert ".. "[..2] == "..";
      assert TrimEnd(".. ", IsSpace) == TrimEnd("..", IsSpace) == "..";
    }
    CoreFixes("..");
    assert Core(".. ") == Trim("..", IsSlash) == "..";
    NormShape(".. ");
    assert NormPath(".. ")[1..] == "..";
    SplitAt("..", "");
  }

  /** A scope check read on the cores. */
  lemma InScopeByCore(scope: string, path: string)
    ensures EnforcePrefix(scope, path).Pass?
       <==> Core(scope) == "" || Core(path) == Core(scope) || Core(scope) + "/" <= Core(path)
  {
    NormShape(scope);
    NormShape(path);
    var s, t := Core(scope), Core(path);
    assert "/" + s + "/" == "/" + (s + "/");
    if s + "/" <= t { assert "/" + t == "/" + (s + "/") + t[|s| + 1..]; }
    if "/" + s + "/" <= "/" + t { assert ("/" + t)[1..|s| + 2] == ("/" + s + "/")[1..]; }
    assert ("/" + s)[1..] == s && ("/" + t)[1..] == t;
  }

  // ----- where a segment shows in the text -----

  lemma {:induction false} SegmentShows(t: string, k: nat) returns (a: string, b: string)
    requires k < |Split(t)|
    ensures t == a + Split(t)[k] + b && (b == "" || b[0] == '/')
    ensures if k == 0 then a == "" else a != "" && a[|a| - 1] == '/'
  {
    if t == "" {
      a, b := "", "";
    } else if t[0] != '/' {
      a, b := SegmentShows(t[1..], k);
      if k > 0 { a := [t[0]] + a; }
    } else if k == 0 {
      a, b := "", t;
    } else {
      a, b := SegmentShows(t[1..], k - 1);
      a := "/" + a;
    }
  }

  lemma GrowFirstOf(lead: string, xs: seq<string>, ys: seq<string>)
    requires xs != []
    ensures GrowFirst(lead, xs + ys) == GrowFirst(lead, xs) + ys
  {
    assert (xs + ys)[1..] == xs[1..] + ys;
  }

  lemma {:induction false} SplitJoin(a: string, b: string)
    ensures Split(a + "/" + b) == Split(a) + Split(b)
  {
    var t := a + "/" + b;
    if a == "" {
      assert t[1..] == b;
    } else {
      SplitJoin(a[1..], b);
      assert t[1..] == a[1..] + "/" + b && t[0] == a[0];
      if a[0] == '/' {
        assert [""] + (Split(a[1..]) + Split(b)) == ([""] + Split(a[1..])) + Split(b);
      } else {
        assert Split(t) == GrowFirst([a[0]], Split(a[1..]) + Split(b));
        GrowFirstOf([a[0]], Split(a[1..]), Split(b));
      }
    }
  }

  predicate InnerDotDotAt(t: string, i: nat) {
    i + 4 <= |t| && t[i] == '/' && t[i + 1] == t[i + 2] == '.' && t[i + 3] == '/'
  }

  /** The text contains "/../". */
  predicate HasInnerDotDot(t: string) {
    exists i: nat :: i < |t| && InnerDotDotAt(t, i)
  }

  lemma InnerDotDotIsSegment(t: string)
    requires HasInnerDotDot(t)
    ensures ".." in Split(t)
  {
    var i: nat :| i < |t| && InnerDotDotAt(t, i);
    var a, b := t[..i], t[i + 4..];
    assert t == a + "/" + (".." + "/" + b);
    SplitJoin(a, ".." + "/" + b);
    SplitAt("..", b);
  }

  lemma TrimIsPart(p: string, drop: char -> bool) returns (i: nat)
    ensures i + |Trim(p, drop)| <= |p| && Trim(p, drop) == p[i..i + |Trim(p, drop)|]
  {
    i := TrimStartShape(p, drop);
    var k := TrimEndShape(p[i..], drop);
    assert p[i..][..k] == p[i..i + k];
  }

  lemma CoreIsPart(p: string) returns (i: nat)
    ensures i + |Core(p)| <= |p| && Core(p) == p[i..i + |Core(p)|]
  {
    var a := TrimIsPart(p, IsSpace);
    var b := TrimIsPart(Trim(p, IsSpace), IsSlash);
    i := a + b;
    Seqs.SliceOfSlice(p, a, a + |Trim(p, IsSpace)|, i, i + |Core(p)|);
  }

  lemma InnerDotDotSpreads(t: string, p: string, i: nat)
    requires HasInnerDotDot(t) && i + |t| <= |p| && t == p[i..i + |t|]
    ensures HasInnerDotDot(p)
  {
    var k: nat :| k < |t| && InnerDotDotAt(t, k);
    assert forall n :: 0 <= n < |t| ==> t[n] == p[i + n];
    assert InnerDotDotAt(p, i + k);
  }

  lemma InnerDotDotInCore(path: string)
    requires HasInnerDotDot(Core(path))
    ensures NoDotDot(path).Fail?
  {
    var i := CoreIsPart(path);
    InnerDotDotSpreads(Core(path), path, i);
    InnerDotDotIsSegment(path);
  }

  lemma CoresNest(scope: string, path: string)
    requires EnforcePrefix(scope, path).Pass?
    ensures Core(scope) <= Core(path)
  {
    InScopeByCore(scope, path);
    assert Core(scope) <= Core(scope) + "/";
  }

  /** Out of a scope with a ".." between two slashes no admitted path can be named. */
  lemma InnerDotDotIsUnusable(scope: string, path: string)
    requires HasInnerDotDot(Core(scope)) && NoDotDot(path).Pass?
    ensures EnforcePrefix(scope, path).Fail?
  {
    if EnforcePrefix(scope, path).Pass? {
      CoresNest(scope, path);
      InnerDotDotSpreads(Core(scope), Core(path), 0);
      InnerDotDotInCore(path);
    }
  }

  // ----- normalising twice -----

  lemma CoreOfNormKept(t: string)
    requires Bare(t, IsSlash) && (t == "" || !IsSpace(t[|t| - 1]))
    ensures Core("/" + t) == t
  {
    var s := "/" + t;
    assert s[|s| - 1] == if t == "" then '/' else t[|t| - 1];
    TrimFixes(s, IsSpace);
    assert s[1..] == t;
    assert TrimStart(s, IsSlash) == TrimStart(t, IsSlash);
    TrimFixes(t, IsSlash);
  }

  lemma CoreOfNormCut(t: string)
    requires Bare(t, IsSlash) && t != "" && IsSpace(t[|t| - 1])
    ensures |Core("/" + t)| < |t|
  {
    var s := "/" + t;
    assert TrimStart(s, IsSpace) == s && s[|s| - 1] == t[|t| - 1];
    var k := TrimEndShape(s, IsSpace);
    var u := s[..k];
    assert u[0] == '/' && Trim(s, IsSpace) == u;
    TrimShrinks(u[1..], IsSlash);
    assert TrimStart(u, IsSlash) == TrimStart(u[1..], IsSlash);
  }

  lemma CoreOfNorm(t: string)
    requires Bare(t, IsSlash)
    ensures t == "" || !IsSpace(t[|t| - 1]) ==> Core("/" + t) == t
    ensures t != "" && IsSpace(t[|t| - 1]) ==> |Core("/" + t)| < |t|
  {
    if t == "" || !IsSpace(t[|t| - 1]) { CoreOfNormKept(t); } else { CoreOfNormCut(t); }
  }

  /** Normalising again changes nothing exactly when no white space was left at the end. */
  lemma NormIdempotent(p: string)
    ensures NormPath(NormPath(p)) == NormPath(p)
       <==> Core(p) == "" || !IsSpace(Core(p)[|Core(p)| - 1])
  {
    NormShape(p);
    NormShape(NormPath(p));
    CoreOfNorm(Core(p));
    assert NormPath(p)[1..] == Core(p);
    assert NormPath(NormPath(p))[1..] == Core(NormPath(p));
  }

  /** A path that normalising twice changes. */
  lemma NormChangesTwice()
    ensures NormPath("a /") == "/a " && NormPath("/a ") == "/a"
  {
    assert Core("a /") == "a " by {
      TrimFixes("a /", IsSpace);
      assert "a /"[..2] == "a ";
      assert TrimEnd("a /", IsSlash) == TrimEnd("a ", IsSlash) == "a ";
    }
    assert Core("/a ") == "a" by {
      assert "/a "[..2] == "/a" && "/a"[1..] == "a";
      assert TrimEnd("/a ", IsSpace) == TrimEnd("/a", IsSpace) == "/a";
      assert TrimStart("/a", IsSlash) == TrimStart("a", IsSlash) == "a";
    }
  }

  // ----- the drive-bound prefix -----

  lemma {:induction false} SplitOnceAt(drive: string, tail: string)
    requires '/' !in drive
    ensures SplitOnce(drive) == None
    ensures SplitOnce(drive + "/" + tail) == Some((drive, tail))
  {
    var s := drive + "/" + tail;
    if drive == "" {
      assert s[1..] == tail;
    } else {
      SplitOnceAt(drive[1..], tail);
      assert s[1..] == drive[1..] + "/" + tail;
      assert drive == [drive[0]] + drive[1..];
    }
  }

  /** Decoding a minted prefix gives the drive back for every path, and the path's core normalised
      once more: the normalised path itself exactly when that core is free of outer white space. */
  lemma DrivePrefixRoundTrip(drive: string, path: string)
    requires drive != "" && '/' !in drive
    ensures ParseDrivePrefix(DrivePrefix(drive, path)) == Some((drive, NormPath(Core(path))))
    ensures ParseDrivePrefix(DrivePrefix(drive, path)) == Some((drive, NormPath(path))) <==> Clean(path)
  {
    MintedRest(drive, path);
    NormShape(path);
    var t := Core(path);
    if t == "" {
      assert Core("") == "";
    } else {
      NormShape(t);
      CoreShrinks(t);
      if Clean(path) { CoreFixes(t); }
      assert NormPath(t)[1..] == Core(t) && NormPath(path)[1..] == t;
    }
  }

  /** A path whose minted prefix decodes to another one. */
  lemma MintedPathReadsBackShorter()
    ensures ParseDrivePrefix(DrivePrefix("d", "a /")) == Some(("d", "/a")) && NormPath("a /") == "/a "
  {
    NormChangesTwice();
    NormShape("a /");
    DrivePrefixRoundTrip("d", "a /");
    assert Core("a /") == NormPath("a /")[1..] == "a ";
    assert Core("a ") == "a" by {
      assert "a "[..1] == "a";
      assert TrimEnd("a ", IsSpace) == TrimEnd("a", IsSpace) == "a";
    }
  }

  /** A prefix that decodes to a scope with white space inside its slash. */
  lemma UncleanScopeDecodes()
    ensures ParseDrivePrefix("ce-drive/d/ / a") == Some(("d", "/ a")) && Core("/ a") == " a" && !Clean("/ a")
  {
    var rest := "d/ / a";
    assert "ce-drive/d/ / a"[|DRIVE_NS|..] == rest;
    assert SplitOnce(rest) == Some(("d", " / a")) by {
      assert "d" + "/" + " / a" == rest;
      SplitOnceAt("d", " / a");
    }
    assert Core("/ a") == " a" by {
      TrimFixes("/ a", IsSpace);
      assert "/ a"[1..] == " a";
      assert TrimStart("/ a", IsSlash) == TrimStart(" a", IsSlash) == " a";
    }
    assert Trim(" / a", IsSpace) == "/ a" == Trim("/ a", IsSpace) by {
      assert " / a"[1..] == "/ a";
      assert TrimStart(" / a", IsSpace) == TrimStart("/ a", IsSpace) == "/ a";
    }
    assert NormPath(" / a") == "/ a";
    assert IsSpace(" a"[0]);
  }

  /** What a minted prefix looks like: a grant for the whole drive has no path behind the drive. */
  lemma MintedText(drive: string, path: string)
    ensures DrivePrefix(drive, path) == "ce-drive/" + drive + (if Core(path) == "" then "" else "/" + Core(path))
  {
    NormShape(path);
    assert "ce-drive/" + drive + "" == "ce-drive/" + drive;
  }

  lemma {:induction false} SplitOnceJoins(s: string)
    ensures SplitOnce(s).Some? ==> s == SplitOnce(s).value.0 + "/" + SplitOnce(s).value.1
  {
    if s != "" && s[0] != '/' { SplitOnceJoins(s[1..]); }
  }

  lemma BoundHasText(prefix: string, drive: string, scope: string)
    requires ParseDrivePrefix(prefix) == Some((drive, scope))
    ensures drive != "" && '/' !in drive
    ensures (prefix == "ce-drive/" + drive && scope == "/")
            || exists rest :: prefix == "ce-drive/" + drive + "/" + rest && scope == NormPath(rest)
  {
    var rest := prefix[|DRIVE_NS|..];
    assert prefix == "ce-drive/" + rest;
    SplitOnceJoins(rest);
    if SplitOnce(rest).Some? {
      assert prefix == "ce-drive/" + drive + "/" + SplitOnce(rest).value.1;
    }
  }

  lemma TextIsBound(drive: string, rest: string)
    requires drive != "" && '/' !in drive
    ensures ParseDrivePrefix("ce-drive/" + drive) == Some((drive, "/"))
    ensures ParseDrivePrefix("ce-drive/" + drive + "/" + rest) == Some((drive, NormPath(rest)))
  {
    assert ("ce-drive/" + drive)[|DRIVE_NS|..] == drive;
    assert "ce-drive/" + drive + "/" + rest == DRIVE_NS + (drive + "/" + rest);
    assert ("ce-drive/" + drive + "/" + rest)[|DRIVE_NS|..] == drive + "/" + rest;
    SplitOnceAt(drive, rest);
  }

  /** Which prefixes bind a drive, and to what. */
  lemma BoundIff(prefix: string, drive: string, scope: string)
    ensures ParseDrivePrefix(prefix) == Some((drive, scope)) <==>
              && drive != "" && '/' !in drive
              && ((prefix == "ce-drive/" + drive && scope == "/")
                  || exists rest :: prefix == "ce-drive/" + drive + "/" + rest && scope == NormPath(rest))
  {
    if ParseDrivePrefix(prefix) == Some((drive, scope)) {
      BoundHasText(prefix, drive, scope);
    }
    if drive != "" && '/' !in drive {
      TextIsBound(drive, "");
      if rest :| prefix == "ce-drive/" + drive + "/" + rest && scope == NormPath(rest) {
        TextIsBound(drive, rest);
      }
    }
  }

  /** One prefix string never stands for two drives or two normalised paths. */
  lemma DrivePrefixInjective(d: string, p: string, d': string, p': string)
    requires '/' !in d && '/' !in d'
    ensures DrivePrefix(d, p) == DrivePrefix(d', p') <==> d == d' && NormPath(p) == NormPath(p')
  {
    MintedRest(d, p);
    MintedRest(d', p');
    NormShape(p);
    NormShape(p');
    if DrivePrefix(d, p) == DrivePrefix(d', p') {
      assert d == d' && Core(p) == Core(p');
    }
  }

  lemma MintedRest(d: string, p: string)
    requires '/' !in d
    ensures DRIVE_NS <= DrivePrefix(d, p)
    ensures SplitOnce(DrivePrefix(d, p)[|DRIVE_NS|..]) == if Core(p) == "" then None else Some((d, Core(p)))
    ensures Core(p) == "" ==> DrivePrefix(d, p)[|DRIVE_NS|..] == d
  {
    NormShape(p);
    SplitOnceAt(d, Core(p));
    assert DRIVE_NS + d + ("/" + Core(p)) == DRIVE_NS + (d + "/" + Core(p));
    assert (DRIVE_NS + (d + "/" + Core(p)))[|DRIVE_NS|..] == d + "/" + Core(p);
    assert (DRIVE_NS + d)[|DRIVE_NS|..] == d;
  }

  // ----- parent and leaf -----

  /** `s.rfind('/')` on a string that has one. */
  function LastSlash(s: string): (i: nat)
    requires '/' in s
    ensures i < |s| && s[i] == '/' && '/' !in s[i + 1..]
  {
    if s[|s| - 1] == '/' then |s| - 1
    else
      assert '/' in s[..|s| - 1];
      var i := LastSlash(s[..|s| - 1]);
      assert s[i + 1..] == s[..|s| - 1][i + 1..] + [s[|s| - 1]];
      i
  }

  function SplitPath(path: string): Option<(string, string)> {
    var norm := NormPath(path);
    if norm == "/" then None
    else
      NormShape(path);
      assert norm[0] == '/';
      var i := LastSlash(norm);
      Some((if i == 0 then "/" else norm[..i], norm[i + 1..]))
  }

  /** A path cut at its last slash. */
  lemma CutAtLastSlash(norm: string, i: nat)
    requires i + 1 < |norm| && norm[0] == '/' && norm[1] != '/' && norm[i] == '/' && '/' !in norm[i + 1..]
    ensures var parent := if i == 0 then "/" else norm[..i];
            && norm == (if parent == "/" then "/" else parent + "/") + norm[i + 1..]
            && Segments(norm) == Segments(parent) + [norm[i + 1..]]
  {
    var name := norm[i + 1..];
    assert norm == norm[..i] + "/" + name;
    SplitAt(name, "");
    if i > 0 {
      assert norm[1..] == norm[..i][1..] + "/" + name;
      SplitJoin(norm[..i][1..], name);
    }
  }

  /** The root alone has no parent; any other path is its parent followed by one non-empty, slash-free
      name, the last of its segments. */
  lemma SplitPathRejoins(path: string)
    ensures SplitPath(path) == None <==> NormPath(path) == "/"
    ensures SplitPath(path).Some? ==>
      var (parent, name) := SplitPath(path).value;
      && name != "" && '/' !in name
      && NormPath(path) == (if parent == "/" then "/" else parent + "/") + name
      && parent != "" && parent[0] == '/' && Segments(NormPath(path)) == Segments(parent) + [name]
  {
    NormShape(path);
    if NormPath(path) != "/" {
      var norm := NormPath(path);
      assert norm[|norm| - 1] == Core(path)[|Core(path)| - 1] && norm[1] == Core(path)[0];
      CutAtLastSlash(norm, LastSlash(norm));
    }
  }
}
