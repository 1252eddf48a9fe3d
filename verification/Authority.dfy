/**
 The authorization gate and owner-mediated sharing (src/serve.rs, `authorize_req` and `op_share`).

 The capability verifier is another crate. Its verdict on the presented chain is an input here; only
 the last link of the chain (the leaf) is looked at by the code modelled.
 */
module Authority {
  import opened Wrappers
  import opened Paths
  import opened WireTypes

  const READ := "drive:read"
  const WRITE := "drive:write"
  const ADMIN := "drive:admin"

  type Op = DriveOp<string>
  type Err = DriveErr<string>

  /** The leaf of a verified chain: what it confers and the caveats this host enforces. */
  datatype Cap = Cap(pathPrefix: Option<string>, abilities: seq<string>, notAfter: u64)

  function RequiredAbility(op: Op): string {
    match op
    case Open | Stat(_) | List(_, _, _) | Read(_, _, _) => READ
    case Write(_, _, _, _) | Mkdir(_) | Copy(_, _) => WRITE
    case Move(_, _) | Delete(_, _) => WRITE
    case Share(_, _, _, _) => ADMIN
    case Poll(_, _) | Watch => READ
    case Meta(_) | Backlinks(_) | Versions(_) => READ
    case SetProp(_, _, _) | Tag(_, _, _) | Link(_, _, _, _) => WRITE
  }

  function OpPath(op: Op): Option<string> {
    match op
    case Stat(path) => Some(path)
    case List(path, _, _) => Some(path)
    case Read(path, _, _) => Some(path)
    case Write(path, _, _, _) => Some(path)
    case Mkdir(path) => Some(path)
    case Delete(path, _) => Some(path)
    case Share(path, _, _, _) => Some(path)
    case Move(_, dst) => Some(dst)
    case Copy(_, dst) => Some(dst)
    case Open | Poll(_, _) | Watch => None
    case Meta(path) => Some(path)
    case SetProp(path, _, _) => Some(path)
    case Tag(path, _, _) => Some(path)
    case Link(path, _, _, _) => Some(path)
    case Versions(path) => Some(path)
    case Backlinks(_) => None
  }

  function AsErr(e: PathError): Err {
    match e
    case BadPath => DriveErr.BadPath
    case OutOfScope => DriveErr.OutOfScope
  }

  function Checked(o: Outcome<PathError>): Outcome<Err> {
    match o
    case Pass => Pass
    case Fail(e) => Fail(AsErr(e))
  }

  function CheckScope(scope: string, op: Op): Outcome<Err> {
    match OpPath(op)
    case None => Pass
    case Some(path) =>
      if NoDotDot(path).Fail? then Checked(NoDotDot(path))
      else if (op.Move? || op.Copy?) && NoDotDot(op.src).Fail? then Checked(NoDotDot(op.src))
      else if (op.Move? || op.Copy?) && EnforcePrefix(scope, op.src).Fail? then Checked(EnforcePrefix(scope, op.src))
      else Checked(EnforcePrefix(scope, path))
  }

  /** `verdict` is what the capability verifier says of the whole chain. */
  function AuthorizeReq(verdict: Outcome<Err>, leaf: Option<Cap>, drive: string, op: Op): Result<seq<string>, Err> {
    if verdict.Fail? then Failure(verdict.error)
    else if leaf.None? || leaf.value.pathPrefix.None? then Failure(Unauthorized)
    else
      match ParseDrivePrefix(leaf.value.pathPrefix.value)
      case None => Failure(Unauthorized)
      case Some((boundDrive, scope)) =>
        if boundDrive != drive then Failure(DriveErr.OutOfScope)
        else
          match CheckScope(scope, op)
          case Fail(e) => Failure(e)
          case Pass => Success(leaf.value.abilities)
  }

  /** Every path of this drive that an operation names, both ends of a move or copy included. */
  function Named(op: Op): set<string> {
    match op
    case Move(src, dst) => {src, dst}
    case Copy(src, dst) => {src, dst}
    case Open | Poll(_, _) | Watch | Backlinks(_) => {}
    case _ => {op.path}
  }

  /** The leaf binds `drive` and every path in `paths` lies, segment-wise, in its subtree. */
  predicate Covers(leaf: Option<Cap>, drive: string, paths: set<string>) {
    leaf.Some? && leaf.value.pathPrefix.Some? &&
    match ParseDrivePrefix(leaf.value.pathPrefix.value)
    case None => false
    case Some((d, scope)) =>
      && d == drive
      && forall p <- paths :: Segments(NormPath(scope)) <= Segments(NormPath(p))
  }

  lemma CheckScopeIsExact(scope: string, op: Op)
    ensures CheckScope(scope, op).Pass?
       <==> forall p <- Named(op) :: NoDotDot(p).Pass? && EnforcePrefix(scope, p).Pass?
  {
    if op.Move? || op.Copy? {
      assert Named(op) == {op.src, op.dst};
    } else if OpPath(op).Some? {
      assert Named(op) == {OpPath(op).value};
    }
  }

  /** The gate opens exactly when the verifier accepts, the leaf covers everything the operation
      names on the requested drive, and none of it climbs with "..". */
  lemma GateIsExact(verdict: Outcome<Err>, leaf: Option<Cap>, drive: string, op: Op)
    ensures AuthorizeReq(verdict, leaf, drive, op).Success?
       <==> verdict.Pass? && Covers(leaf, drive, Named(op)) && forall p <- Named(op) :: NoDotDot(p).Pass?
    ensures AuthorizeReq(verdict, leaf, drive, op).Success? ==>
      AuthorizeReq(verdict, leaf, drive, op).value == leaf.value.abilities
  {
    var paths := Named(op);
    if leaf.Some? && leaf.value.pathPrefix.Some? {
      match ParseDrivePrefix(leaf.value.pathPrefix.value)
      case None =>
      case Some((d, scope)) =>
        CheckScopeIsExact(scope, op);
        forall p <- paths
          ensures EnforcePrefix(scope, p).Pass? <==> Segments(NormPath(scope)) <= Segments(NormPath(p))
        {
          ScopeIsSegmentPrefix(scope, p);
        }
    }
  }

  /** The drive and the subtree a leaf is bound to. */
  function Binding(leaf: Option<Cap>): Option<(string, string)> {
    if leaf.None? || leaf.value.pathPrefix.None? then None else ParseDrivePrefix(leaf.value.pathPrefix.value)
  }

  /** Which error a refusal gives: the verifier's own, then a leaf that binds no drive, then another
      drive, then "..", then a path outside the subtree. */
  lemma GateRefusals(verdict: Outcome<Err>, leaf: Option<Cap>, drive: string, op: Op)
    ensures var r, bound := AuthorizeReq(verdict, leaf, drive, op), Binding(leaf);
            && (verdict.Fail? ==> r == Failure(verdict.error))
            && (verdict.Pass? && bound.None? ==> r == Failure(Unauthorized))
            && (verdict.Pass? && bound.Some? && bound.value.0 != drive ==> r == Failure(DriveErr.OutOfScope))
            && (verdict.Pass? && bound.Some? && bound.value.0 == drive ==>
                  if exists p <- Named(op) :: ".." in Split(p) then r == Failure(DriveErr.BadPath)
                  else if exists p <- Named(op) :: !(Segments(NormPath(bound.value.1)) <= Segments(NormPath(p)))
                  then r == Failure(DriveErr.OutOfScope)
                  else r == Success(leaf.value.abilities))
  {
    if verdict.Pass? && Binding(leaf).Some? && Binding(leaf).value.0 == drive {
      var scope := Binding(leaf).value.1;
      ScopeRefusals(scope, op);
      forall p <- Named(op)
        ensures EnforcePrefix(scope, p).Pass? <==> Segments(NormPath(scope)) <= Segments(NormPath(p))
      {
        ScopeIsSegmentPrefix(scope, p);
      }
      CheckScopeIsExact(scope, op);
    }
  }

  predicate Climbs(op: Op) {
    exists p <- Named(op) :: NoDotDot(p).Fail?
  }

  predicate Strays(scope: string, op: Op) {
    exists p <- Named(op) :: EnforcePrefix(scope, p).Fail?
  }

  lemma NamedByEnds(scope: string, op: Op)
    requires op.Move? || op.Copy?
    ensures Climbs(op) <==> NoDotDot(op.dst).Fail? || NoDotDot(op.src).Fail?
    ensures Strays(scope, op) <==> EnforcePrefix(scope, op.src).Fail? || EnforcePrefix(scope, op.dst).Fail?
  {
    assert op.src in Named(op) && op.dst in Named(op);
  }

  lemma NamedByPath(scope: string, op: Op)
    requires !op.Move? && !op.Copy?
    ensures Climbs(op) <==> OpPath(op).Some? && NoDotDot(OpPath(op).value).Fail?
    ensures Strays(scope, op) <==> OpPath(op).Some? && EnforcePrefix(scope, OpPath(op).value).Fail?
  {
    assert Named(op) == if OpPath(op).Some? then {OpPath(op).value} else {};
  }

  /** Why a path is refused: ".." at either end comes before the scope. */
  lemma ScopeRefusals(scope: string, op: Op)
    ensures CheckScope(scope, op) == Fail(DriveErr.BadPath) <==> Climbs(op)
    ensures CheckScope(scope, op) == Fail(DriveErr.OutOfScope) <==> !Climbs(op) && Strays(scope, op)
  {
    if op.Move? || op.Copy? { NamedByEnds(scope, op); } else { NamedByPath(scope, op); }
  }

  /** Some path the operation names normalises to one with a ".." segment. */
  predicate NamesDotDot(op: Op) {
    exists p <- Named(op) :: ".." in Segments(NormPath(p))
  }

  /** The gate admits such an operation exactly when it would admit it anyway and a named path, trimmed,
      begins or ends with "..". */
  lemma GateAdmitsDotDotIff(verdict: Outcome<Err>, leaf: Option<Cap>, drive: string, op: Op)
    ensures AuthorizeReq(verdict, leaf, drive, op).Success? && NamesDotDot(op)
       <==> verdict.Pass? && Covers(leaf, drive, Named(op)) && !Climbs(op) && exists p <- Named(op) :: EdgeDotDot(p)
  {
    GateIsExact(verdict, leaf, drive, op);
    forall p <- Named(op)
      ensures NoDotDot(p).Pass? ==> (".." in Segments(NormPath(p)) <==> EdgeDotDot(p))
    {
      GuardIsRightIff(p);
    }
  }

  /** Widening the subtree on the same drive never closes the gate. */
  lemma WideningKeepsAccess(verdict: Outcome<Err>, leaf: Cap, wider: Cap, drive: string, op: Op)
    requires AuthorizeReq(verdict, Some(leaf), drive, op).Success?
    requires wider.pathPrefix.Some? && ParseDrivePrefix(wider.pathPrefix.value).Some?
    requires var (d, s) := ParseDrivePrefix(leaf.pathPrefix.value).value;
             var (d', s') := ParseDrivePrefix(wider.pathPrefix.value).value;
             d' == d && EnforcePrefix(s', s).Pass?
    ensures AuthorizeReq(verdict, Some(wider), drive, op).Success?
  {
    GateIsExact(verdict, Some(leaf), drive, op);
    GateIsExact(verdict, Some(wider), drive, op);
    ScopeIsSegmentPrefix(ParseDrivePrefix(wider.pathPrefix.value).value.1,
                         ParseDrivePrefix(leaf.pathPrefix.value).value.1);
  }

  // ----- sharing -----

  function Filter(abilities: seq<string>, held: seq<string>): (r: seq<string>)
    ensures forall a :: a in r <==> a in abilities && a in held
  {
    if abilities == [] then []
    else (if abilities[0] in held then [abilities[0]] else []) + Filter(abilities[1..], held)
  }

  /** Expiry of the minted grant; 0 stands for "never". */
  function SharedExpiry(asked: u64, parent: u64): u64 {
    if asked == 0 then parent
    else if parent == 0 then asked
    else if asked < parent then asked else parent
  }

  function OpShare(parent: Option<Cap>, drive: string, audienceParses: bool, path: string,
                   abilities: seq<string>, notAfter: u64): Result<Cap, Err> {
    if parent.None? then Failure(Unauthorized)
    else if !audienceParses then Failure(DriveErr.BadPath)
    else if NoDotDot(path).Fail? then Failure(DriveErr.BadPath)
    else if parent.value.pathPrefix.None? then Failure(Unauthorized)
    else if ParseDrivePrefix(parent.value.pathPrefix.value).None? then Failure(Unauthorized)
    else
      var parentScope := ParseDrivePrefix(parent.value.pathPrefix.value).value.1;
      if EnforcePrefix(parentScope, path).Fail? then Checked(EnforcePrefix(parentScope, path)).PropagateFailure()
      else
        var requested := if abilities == [] then [READ] else Filter(abilities, parent.value.abilities);
        if requested == [] then Failure(DriveErr.OutOfScope)
        else Success(Cap(Some(DrivePrefix(drive, path)), requested, SharedExpiry(notAfter, parent.value.notAfter)))
  }

  /** Some ability is left to grant: read when none is named, else one of those named that is held. */
  predicate Grantable(asked: seq<string>, held: seq<string>) {
    asked == [] || exists a <- asked :: a in held
  }

  /** When a Share is granted, and which error it gives otherwise. */
  lemma ShareAnswers(parent: Option<Cap>, drive: string, audienceParses: bool, path: string,
                     abilities: seq<string>, notAfter: u64)
    ensures var r, bound := OpShare(parent, drive, audienceParses, path, abilities, notAfter), Binding(parent);
            && (r == Failure(DriveErr.BadPath) <==> parent.Some? && (!audienceParses || ".." in Split(path)))
            && (parent.None? ==> r == Failure(Unauthorized))
            && (parent.Some? && audienceParses && ".." !in Split(path) ==>
                  if bound.None? then r == Failure(Unauthorized)
                  else if Segments(NormPath(bound.value.1)) <= Segments(NormPath(path))
                          && Grantable(abilities, parent.value.abilities)
                  then r.Success?
                  else r == Failure(DriveErr.OutOfScope))
  {
    if Binding(parent).Some? {
      ScopeIsSegmentPrefix(Binding(parent).value.1, path);
      var kept := Filter(abilities, parent.value.abilities);
      if kept != [] { assert kept[0] in kept; }
    }
  }

  /** What is granted keeps the order and the repetitions of what was asked. */
  lemma {:induction false} FilterKeepsOrder(abilities: seq<string>, held: seq<string>, k: nat)
    requires k < |abilities|
    ensures Filter(abilities[..k + 1], held)
         == Filter(abilities[..k], held) + if abilities[k] in held then [abilities[k]] else []
  {
    if k == 0 {
      assert abilities[..1] == [abilities[0]] && abilities[..1][1..] == abilities[..0] == [];
    } else {
      FilterKeepsOrder(abilities[1..], held, k - 1);
      assert abilities[1..][..k] == abilities[..k + 1][1..] && abilities[1..][..k - 1] == abilities[..k][1..];
    }
  }

  /** What the capability verifier says of a chain ending in this leaf, for this ability. */
  type Verifier = (Cap, string) -> Outcome<Err>

  /** One Share request: who holds the presented grant (an index into the grants made so far), what is
      asked, and the verifier as it judges at that moment. */
  datatype ShareCall = ShareCall(holder: nat, verify: Verifier, drive: string, audienceParses: bool, path: string,
                                 abilities: Vec<string>, notAfter: u64)

  /** The request as the host serves it: the gate, then the handler. */
  function ServeShare(holder: Cap, c: ShareCall): Result<Cap, Err> {
    var op := Share(c.path, "", c.abilities, ShareCaveats(c.notAfter, None, None));
    match AuthorizeReq(c.verify(holder, RequiredAbility(op)), Some(holder), c.drive, op)
    case Failure(e) => Failure(e)
    case Success(_) => OpShare(Some(holder), c.drive, c.audienceParses, c.path, c.abilities, c.notAfter)
  }

  // ----- what a grant confers -----

  /** The README's chain of abilities; watch stands beside it. */
  const LADDER := ["drive:read", "drive:comment", "drive:write", "drive:delete", "drive:share", "drive:admin"]

  /** Holding `a` confers `b`. */
  predicate Implies(a: string, b: string) {
    a == b || exists i, j :: 0 <= j <= i < |LADDER| && LADDER[i] == a && LADDER[j] == b
  }

  predicate Confers(held: seq<string>, b: string) {
    exists a <- held :: Implies(a, b)
  }

  ghost predicate NoMoreAuthority(child: seq<string>, parent: seq<string>) {
    forall b :: Confers(child, b) ==> Confers(parent, b)
  }

  /** `a` ends no later than `b`, 0 being "never". */
  predicate NoLater(a: u64, b: u64) {
    b == 0 || (a != 0 && a <= b)
  }

  /** `cap` is bound to `drive`, inside the subtree `scope`. */
  predicate BoundWithin(cap: Cap, drive: string, scope: string) {
    && cap.pathPrefix.Some? && ParseDrivePrefix(cap.pathPrefix.value).Some?
    && var (d, s) := ParseDrivePrefix(cap.pathPrefix.value).value;
       d == drive && EnforcePrefix(scope, s).Pass?
  }

  /** Trimming white space never eats into a clean scope at the start. */
  lemma SpaceTrimKeeps(s: string, lead: string, t: string) returns (j: nat)
    requires s != "" && Bare(s, IsSpace) && s <= t
    requires lead == "" || lead == "/"
    ensures |s| <= j <= |t| && Trim(lead + t, IsSpace) == lead + t[..j]
  {
    var x := lead + t;
    assert x[0] == if lead == "" then s[0] else '/';
    assert x[|lead| + |s| - 1] == t[|s| - 1] == s[|s| - 1];
    var k := TrimEndShape(x, IsSpace);
    j := k - |lead|;
    assert x[..k] == lead + t[..j];
  }

  /** Text that starts with a clean scope keeps starting with it when it is trimmed. */
  lemma CoreKeepsScope(s: string, lead: string, t: string)
    requires s != "" && Bare(s, IsSlash) && Bare(s, IsSpace)
    requires lead == "" || lead == "/"
    requires t == s || s + "/" <= t
    ensures Core(lead + t) == s || s + "/" <= Core(lead + t)
  {
    var j := SpaceTrimKeeps(s, lead, t);
    var u := t[..j];
    assert u[0] == t[0] == s[0];
    assert TrimStart(lead + u, IsSlash) == u by {
      if lead == "/" { assert (lead + u)[1..] == u; } else { assert lead + u == u; }
    }
    TrimEndKeepsScope(s, u);
  }

  lemma TrimEndKeepsScope(s: string, u: string)
    requires s != "" && !IsSlash(s[|s| - 1])
    requires u == s || s + "/" <= u
    ensures TrimEnd(u, IsSlash) == s || s + "/" <= TrimEnd(u, IsSlash)
  {
    var j := TrimEndShape(u, IsSlash);
    assert u[|s| - 1] == s[|s| - 1];
  }

  /** The minted scope is the path's core, normalised once more by the reader of the prefix. */
  function MintedScope(path: string): string {
    NormPath(Core(path))
  }

  /** Sharing out of a scope stays inside it, whatever path is shared, exactly when the scope has no
      white space at either end. */
  lemma SharesStayInsideIffClean(scope: string)
    ensures (forall path :: EnforcePrefix(scope, path).Pass? ==> EnforcePrefix(scope, MintedScope(path)).Pass?)
       <==> Clean(scope)
  {
    if Clean(scope) {
      forall path | EnforcePrefix(scope, path).Pass?
        ensures EnforcePrefix(scope, MintedScope(path)).Pass?
      {
        ShareStaysInside(scope, path);
      }
    } else {
      var path := ShareEscapes(scope);
    }
  }

  lemma ShareStaysInside(scope: string, path: string)
    requires Clean(scope) && EnforcePrefix(scope, path).Pass?
    ensures EnforcePrefix(scope, MintedScope(path)).Pass?
  {
    InScopeByCore(scope, path);
    InScopeByCore(scope, MintedScope(path));
    NormShape(scope);
    var s, t := Core(scope), Core(path);
    if s != "" {
      CoreKeepsScope(s, "", t);
      assert "" + t == t;
      CoreKeepsScope(s, "/", Core(t));
      NormShape(t);
    }
  }

  /** Any path with the scope's core is in the scope, and the grant minted for it is not. */
  lemma SharedCoreEscapes(scope: string, path: string)
    requires !Clean(scope) && Core(path) == Core(scope)
    ensures EnforcePrefix(scope, path).Pass? && !EnforcePrefix(scope, MintedScope(path)).Pass?
  {
    var s := Core(scope);
    NormShape(scope);
    InScopeByCore(scope, path);
    InScopeByCore(scope, MintedScope(path));
    CoreShrinks(s);
    NormShape(s);
    CoreOfNorm(Core(s));
  }

  lemma ShareEscapes(scope: string) returns (path: string)
    requires !Clean(scope)
    ensures EnforcePrefix(scope, path).Pass? && !EnforcePrefix(scope, MintedScope(path)).Pass?
  {
    NormShape(scope);
    path := "/" + Core(scope) + "/";
    CoreOfSlashed(Core(scope));
    SharedCoreEscapes(scope, path);
  }

  lemma CoreOfSlashed(s: string)
    requires s != "" && Bare(s, IsSlash)
    ensures Core("/" + s + "/") == s
  {
    var path := "/" + s + "/";
    TrimFixes(path, IsSpace);
    assert path[1..] == s + "/" && (s + "/")[..|s|] == s;
    assert TrimStart(path, IsSlash) == TrimStart(s + "/", IsSlash) == s + "/";
    assert TrimEnd(s + "/", IsSlash) == TrimEnd(s, IsSlash) == s;
  }

  lemma CoreOfSpacedStart(s: string)
    requires s != "" && Bare(s, IsSlash) && !IsSpace(s[0])
    ensures Core(" " + s + "/") == s
  {
    var path := " " + s + "/";
    assert path[1..] == s + "/" && (s + "/")[..|s|] == s;
    assert TrimStart(path, IsSpace) == TrimStart(s + "/", IsSpace) == s + "/";
    assert TrimEnd(s + "/", IsSpace) == s + "/";
    assert TrimStart(s + "/", IsSlash) == s + "/";
    assert TrimEnd(s + "/", IsSlash) == TrimEnd(s, IsSlash) == s;
  }

  lemma CoreOfSpacedEnd(s: string)
    requires s != "" && Bare(s, IsSlash) && !IsSpace(s[|s| - 1])
    ensures Core("/" + s + " ") == s
  {
    var path := "/" + s + " ";
    assert path[..|s| + 1] == "/" + s && ("/" + s)[1..] == s;
    assert TrimStart(path, IsSpace) == path;
    assert TrimEnd(path, IsSpace) == TrimEnd("/" + s, IsSpace) == "/" + s;
    assert TrimStart("/" + s, IsSlash) == TrimStart(s, IsSlash) == s;
    assert TrimEnd(s, IsSlash) == s;
  }

  predicate StartsDotDot(s: string) {
    |s| >= 2 && s[0] == s[1] == '.' && (|s| == 2 || s[2] == '/')
  }

  predicate EndsDotDot(s: string) {
    |s| >= 3 && s[|s| - 3] == '/' && s[|s| - 2] == s[|s| - 1] == '.'
  }

  /** The scope's own path, with a space instead of a slash where that hides a "..". */
  function OwnPath(s: string): string {
    [if StartsDotDot(s) then ' ' else '/'] + s + [if EndsDotDot(s) then ' ' else '/']
  }

  /** Where a ".." segment of padded text can come from. */
  lemma DotDotInPadded(s: string, lead: char, tail: char, m: nat)
    requires lead != '.' && tail != '.' && 0 < m && m + 1 <= |s|
    requires s[m - 1] == s[m] == '.'
    requires if m == 1 then lead == '/' else s[m - 2] == '/'
    requires if m + 1 == |s| then tail == '/' else s[m + 1] == '/'
    ensures (lead == '/' && StartsDotDot(s)) || (tail == '/' && EndsDotDot(s)) || HasInnerDotDot(s)
  {
    if 1 < m && m + 1 < |s| { assert InnerDotDotAt(s, m - 2); }
  }

  lemma PaddedPasses(s: string, lead: char, tail: char, k: nat)
    requires lead != '.' && tail != '.' && k < |Split([lead] + s + [tail])|
    ensures Split([lead] + s + [tail])[k] == ".." ==>
              (lead == '/' && StartsDotDot(s)) || (tail == '/' && EndsDotDot(s)) || HasInnerDotDot(s)
  {
    var c := [lead] + s + [tail];
    var a, b := SegmentShows(c, k);
    if Split(c)[k] == ".." {
      var m := |a|;
      assert c[m] == c[m + 1] == '.' && c[|s| + 1] == tail;
      assert forall i :: 0 <= i < |s| ==> c[i + 1] == s[i];
      assert m + 1 < |s| + 1 && c[m + 2] == b[0];
      DotDotInPadded(s, lead, tail, m);
    }
  }

  lemma OwnPathPasses(s: string)
    requires !HasInnerDotDot(s)
    ensures NoDotDot(OwnPath(s)).Pass?
  {
    var lead, tail := if StartsDotDot(s) then ' ' else '/', if EndsDotDot(s) then ' ' else '/';
    forall k | 0 <= k < |Split([lead] + s + [tail])|
      ensures Split([lead] + s + [tail])[k] != ".."
    {
      PaddedPasses(s, lead, tail, k);
    }
  }

  lemma CoreOfOwnPath(s: string)
    requires s != "" && Bare(s, IsSlash) && !Bare(s, IsSpace)
    ensures Core(OwnPath(s)) == s
  {
    if StartsDotDot(s) {
      CoreOfSpacedStart(s);
    } else if EndsDotDot(s) {
      CoreOfSpacedEnd(s);
    } else {
      CoreOfSlashed(s);
    }
  }

  // ----- runs of Share -----

  /** All grants alive after serving `calls` in order, the root grant first. */
  function ShareRun(root: Cap, calls: seq<ShareCall>): (caps: seq<Cap>)
    ensures caps != [] && caps[0] == root
  {
    if |calls| == 0 then [root]
    else
      var caps := ShareRun(root, calls[..|calls| - 1]);
      var c := calls[|calls| - 1];
      if c.holder >= |caps| then caps
      else
        match ServeShare(caps[c.holder], c)
        case Failure(_) => caps
        case Success(minted) => caps + [minted]
  }

  /** What is assumed of the verifier: it accepts a leaf for an ability only if the leaf confers it. */
  ghost predicate SoundVerifier(verify: Verifier) {
    forall cap, ability :: verify(cap, ability).Pass? ==> Confers(cap.abilities, ability)
  }

  ghost predicate AllSound(calls: seq<ShareCall>) {
    forall k :: 0 <= k < |calls| ==> SoundVerifier(calls[k].verify)
  }

  predicate SameDrive(cap: Cap, drive: string) {
    && cap.pathPrefix.Some? && ParseDrivePrefix(cap.pathPrefix.value).Some?
    && ParseDrivePrefix(cap.pathPrefix.value).value.0 == drive
  }

  /** The operations whose handlers change the drive or its metadata. */
  predicate ChangesDrive(op: Op) {
    op.Write? || op.Mkdir? || op.Move? || op.Copy? || op.Delete? || op.SetProp? || op.Tag? || op.Link?
  }

  /** Nothing is served to a holder who may not read, nothing changed for one who may not write, and
      nothing shared for one who is not an admin. Writing is enough to delete. */
  lemma GateNeedsAbility(verify: Verifier, leaf: Cap, drive: string, op: Op)
    requires SoundVerifier(verify)
    requires AuthorizeReq(verify(leaf, RequiredAbility(op)), Some(leaf), drive, op).Success?
    ensures Confers(leaf.abilities, READ)
    ensures ChangesDrive(op) ==> Confers(leaf.abilities, WRITE)
    ensures op.Share? ==> Confers(leaf.abilities, ADMIN)
  {
    assert verify(leaf, RequiredAbility(op)).Pass?;
    LadderReachesRead(leaf.abilities, RequiredAbility(op));
  }

  /** The verifier says exactly what the leaf's abilities confer. */
  ghost predicate ExactVerifier(verify: Verifier) {
    forall cap, ability :: verify(cap, ability).Pass? <==> Confers(cap.abilities, ability)
  }

  /** The whole gate, with such a verifier: admin to share, write to change the drive (to move and to
      delete too), read for everything else, and nothing more. */
  lemma GateOpensIff(verify: Verifier, leaf: Cap, drive: string, op: Op)
    requires ExactVerifier(verify)
    ensures AuthorizeReq(verify(leaf, RequiredAbility(op)), Some(leaf), drive, op).Success? <==>
              && Covers(Some(leaf), drive, Named(op))
              && (forall p <- Named(op) :: ".." !in Split(p))
              && Confers(leaf.abilities, if op.Share? then "drive:admin"
                                         else if ChangesDrive(op) then "drive:write" else "drive:read")
  {
    GateIsExact(verify(leaf, RequiredAbility(op)), Some(leaf), drive, op);
  }

  lemma LadderReachesRead(held: seq<string>, ability: string)
    requires ability == READ || ability == WRITE || ability == ADMIN
    requires Confers(held, ability)
    ensures Confers(held, READ)
  {
    assert LADDER[0] == READ && LADDER[2] == WRITE && LADDER[5] == ADMIN;
    var a :| a in held && Implies(a, ability);
    assert exists i :: 0 <= i < |LADDER| && LADDER[i] == a;
    assert Implies(a, READ);
  }

  /** Only the top of the ladder confers it, and it confers the whole ladder. */
  lemma AdminConfersRead(held: seq<string>)
    requires Confers(held, ADMIN)
    ensures NoMoreAuthority([READ], held)
  {
    assert |LADDER[0]| == 10 && LADDER[1][6] == 'c' && LADDER[2][6] == 'w';
    assert LADDER[3][6] == 'd' && LADDER[4][6] == 's';
    assert LADDER[5] == ADMIN && LADDER[0] == READ && |ADMIN| == 11 && ADMIN[6] == 'a';
    assert ADMIN in held;
    forall b | Confers([READ], b)
      ensures Confers(held, b)
    {
      assert Implies(READ, b);
      assert Implies(ADMIN, b);
    }
  }

  /** One Share: same drive, inside the holder's effective scope when that is clean, no later expiry,
      and either a selection of the holder's abilities or bare read. */
  lemma ShareAttenuates(holder: Cap, c: ShareCall)
    requires ServeShare(holder, c).Success?
    ensures c.verify(holder, ADMIN).Pass? && SameDrive(holder, c.drive)
    ensures var child := ServeShare(holder, c).value;
            var scope := ParseDrivePrefix(holder.pathPrefix.value).value.1;
            && child.pathPrefix == Some(DrivePrefix(c.drive, c.path)) && SameDrive(child, c.drive)
            && (Clean(scope) ==> BoundWithin(child, c.drive, scope))
            && (Clean(c.path) ==> ParseDrivePrefix(child.pathPrefix.value) == Some((c.drive, NormPath(c.path))))
            && NoLater(child.notAfter, holder.notAfter)
            && (c.notAfter != 0 ==> NoLater(child.notAfter, c.notAfter))
            && child.notAfter in {c.notAfter, holder.notAfter}
            && child.abilities != []
            && (if c.abilities == [] then child.abilities == [READ]
                else child.abilities == Filter(c.abilities, holder.abilities)
                     && forall a :: a in child.abilities <==> a in c.abilities && a in holder.abilities)
  {
    var scope := ParseDrivePrefix(holder.pathPrefix.value).value.1;
    ParsedDrive(holder.pathPrefix.value);
    DrivePrefixRoundTrip(c.drive, c.path);
    if Clean(scope) { ShareStaysInside(scope, c.path); }
  }

  lemma ParsedDrive(prefix: string)
    requires ParseDrivePrefix(prefix).Some?
    ensures ParseDrivePrefix(prefix).value.0 != "" && '/' !in ParseDrivePrefix(prefix).value.0
  {}

  /** A Share request is granted exactly when the verifier accepts the holder as an admin, the holder's
      grant covers the path on that drive, the path names no "..", the audience parses, and an ability
      is left to grant. */
  lemma ShareServedIff(holder: Cap, c: ShareCall)
    ensures ServeShare(holder, c).Success? <==>
              && c.verify(holder, "drive:admin").Pass?
              && Covers(Some(holder), c.drive, {c.path}) && ".." !in Split(c.path)
              && c.audienceParses && Grantable(c.abilities, holder.abilities)
  {
    var op := Share(c.path, "", c.abilities, ShareCaveats(c.notAfter, None, None));
    assert Named(op) == {c.path};
    GateIsExact(c.verify(holder, RequiredAbility(op)), Some(holder), c.drive, op);
    ShareAnswers(Some(holder), c.drive, c.audienceParses, c.path, c.abilities, c.notAfter);
  }

  /** `cap` confers nothing its root grant did not: drive, expiry and abilities always. */
  ghost predicate Under(cap: Cap, drive: string, root: Cap) {
    && SameDrive(cap, drive)
    && NoLater(cap.notAfter, root.notAfter)
    && NoMoreAuthority(cap.abilities, root.abilities)
  }

  lemma ServedStaysUnder(root: Cap, drive: string, holder: Cap, c: ShareCall)
    requires SoundVerifier(c.verify) && Under(holder, drive, root)
    requires ServeShare(holder, c).Success?
    ensures Under(ServeShare(holder, c).value, drive, root)
  {
    assert c.drive == drive;
    ShareAttenuates(holder, c);
    if c.abilities == [] { AdminConfersRead(holder.abilities); }
  }

  /** Along any run of Share requests every grant stays under its root. */
  lemma {:induction false} ShareRunStaysUnderRoot(root: Cap, drive: string, calls: seq<ShareCall>)
    requires AllSound(calls)
    requires SameDrive(root, drive)
    ensures forall cap <- ShareRun(root, calls) :: Under(cap, drive, root)
  {
    if |calls| > 0 {
      var before := calls[..|calls| - 1];
      ShareRunStaysUnderRoot(root, drive, before);
      var caps, c := ShareRun(root, before), calls[|calls| - 1];
      if c.holder < |caps| {
        var holder := caps[c.holder];
        var r := ServeShare(holder, c);
        if r.Success? {
          ServedStaysUnder(root, drive, holder, c);
        }
      }
    }
  }

  /** Every grant of the run is bound to the drive, inside the scope. */
  ghost predicate RunStaysWithin(root: Cap, drive: string, scope: string, calls: seq<ShareCall>) {
    forall cap <- ShareRun(root, calls) :: BoundWithin(cap, drive, scope)
  }

  lemma ServedStaysWithin(holder: Cap, drive: string, scope: string, c: ShareCall)
    requires Clean(scope) && BoundWithin(holder, drive, scope) && ServeShare(holder, c).Success?
    ensures BoundWithin(ServeShare(holder, c).value, drive, scope)
  {
    var held := ParseDrivePrefix(holder.pathPrefix.value).value.1;
    assert c.drive == drive && EnforcePrefix(held, c.path).Pass?;
    ScopeIsPreorder(scope, held, c.path);
    ShareStaysInside(scope, c.path);
    ParsedDrive(holder.pathPrefix.value);
    DrivePrefixRoundTrip(drive, c.path);
  }

  lemma {:induction false} CleanRunStaysInScope(root: Cap, drive: string, scope: string, calls: seq<ShareCall>)
    requires root.pathPrefix.Some? && ParseDrivePrefix(root.pathPrefix.value) == Some((drive, scope))
    requires Clean(scope)
    ensures RunStaysWithin(root, drive, scope, calls)
  {
    if |calls| == 0 {
      ScopeIsPreorder(scope, scope, scope);
    } else {
      var before := calls[..|calls| - 1];
      CleanRunStaysInScope(root, drive, scope, before);
      var caps, c := ShareRun(root, before), calls[|calls| - 1];
      if c.holder < |caps| && ServeShare(caps[c.holder], c).Success? {
        assert caps[c.holder] in caps;
        ServedStaysWithin(caps[c.holder], drive, scope, c);
      }
    }
  }

  lemma ServesBareShare(root: Cap, scope: string, c: ShareCall)
    requires root.pathPrefix.Some? && ParseDrivePrefix(root.pathPrefix.value) == Some((c.drive, scope))
    requires c.verify(root, ADMIN).Pass? && c.audienceParses && c.abilities == []
    requires NoDotDot(c.path).Pass? && EnforcePrefix(scope, c.path).Pass?
    ensures ServeShare(root, c).Success?
    ensures ServeShare(root, c).value.pathPrefix == Some(DrivePrefix(c.drive, c.path))
  {
    var op := Share(c.path, "", c.abilities, ShareCaveats(c.notAfter, None, None));
    assert AuthorizeReq(c.verify(root, RequiredAbility(op)), Some(root), c.drive, op).Success? by {
      assert CheckScope(scope, op).Pass?;
    }
    assert OpShare(Some(root), c.drive, true, c.path, [], c.notAfter).Success?;
  }

  lemma OneCallRun(root: Cap, c: ShareCall)
    requires c.holder == 0 && ServeShare(root, c).Success?
    ensures ShareRun(root, [c]) == [root, ServeShare(root, c).value]
  {
    assert [c][..0] == [] && ShareRun(root, []) == [root];
  }

  /** The call by which a holder of a scope that is not clean gets a grant outside it. */
  lemma UncleanRootEscapes(verify: Verifier, root: Cap, drive: string, scope: string) returns (c: ShareCall)
    requires root.pathPrefix.Some? && ParseDrivePrefix(root.pathPrefix.value) == Some((drive, scope))
    requires !Clean(scope) && !HasInnerDotDot(Core(scope)) && verify(root, ADMIN).Pass?
    ensures c == ShareCall(0, verify, drive, true, OwnPath(Core(scope)), [], 0)
    ensures !RunStaysWithin(root, drive, scope, [c])
  {
    var path := OwnPath(Core(scope));
    NormShape(scope);
    CoreOfOwnPath(Core(scope));
    OwnPathPasses(Core(scope));
    SharedCoreEscapes(scope, path);
    c := ShareCall(0, verify, drive, true, path, [], 0);
    ServesBareShare(root, scope, c);
    OneCallRun(root, c);
    var child := ServeShare(root, c).value;
    assert !BoundWithin(child, drive, scope) by {
      ParsedDrive(root.pathPrefix.value);
      DrivePrefixRoundTrip(drive, path);
    }
    assert child in ShareRun(root, [c]);
  }

  /** Nothing can be shared out of a scope with a ".." between two slashes. */
  lemma {:induction false} UnusableRootSharesNothing(root: Cap, drive: string, scope: string, calls: seq<ShareCall>)
    requires root.pathPrefix.Some? && ParseDrivePrefix(root.pathPrefix.value) == Some((drive, scope))
    requires HasInnerDotDot(Core(scope))
    ensures ShareRun(root, calls) == [root]
  {
    if |calls| > 0 {
      var c := calls[|calls| - 1];
      UnusableRootSharesNothing(root, drive, scope, calls[..|calls| - 1]);
      if NoDotDot(c.path).Pass? { InnerDotDotIsUnusable(scope, c.path); }
      UnusableShareFails(root, drive, scope, c);
    }
  }

  lemma UnusableShareFails(root: Cap, drive: string, scope: string, c: ShareCall)
    requires root.pathPrefix.Some? && ParseDrivePrefix(root.pathPrefix.value) == Some((drive, scope))
    requires NoDotDot(c.path).Fail? || EnforcePrefix(scope, c.path).Fail?
    ensures ServeShare(root, c).Failure?
  {
    assert OpShare(Some(root), c.drive, c.audienceParses, c.path, c.abilities, c.notAfter).Failure?;
  }

  /** ... and all of them inside its subtree, whatever is shared, exactly when the root's scope has no
      white space at either end, or a ".." between two slashes, so that no path in it passes the guard.
      (The root may be shared from at all: a sound verifier accepts it for that.) */
  lemma RunsStayInScopeIffClean(verify: Verifier, root: Cap, drive: string, scope: string)
    requires root.pathPrefix.Some? && ParseDrivePrefix(root.pathPrefix.value) == Some((drive, scope))
    requires SoundVerifier(verify) && verify(root, ADMIN).Pass?
    ensures (forall calls :: AllSound(calls) ==> RunStaysWithin(root, drive, scope, calls))
       <==> Clean(scope) || HasInnerDotDot(Core(scope))
  {
    if Clean(scope) {
      forall calls
        ensures RunStaysWithin(root, drive, scope, calls)
      {
        CleanRunStaysInScope(root, drive, scope, calls);
      }
    } else if HasInnerDotDot(Core(scope)) {
      forall calls
        ensures RunStaysWithin(root, drive, scope, calls)
      {
        UnusableRootSharesNothing(root, drive, scope, calls);
        ScopeIsPreorder(scope, scope, scope);
      }
    } else {
      var c := UncleanRootEscapes(verify, root, drive, scope);
      assert AllSound([c]);
    }
  }

  /** The second condition, in terms of paths: it says that no path in an unclean scope is admitted. */
  lemma UnusableIffNoPath(scope: string)
    requires !Clean(scope)
    ensures HasInnerDotDot(Core(scope))
       <==> !exists path :: NoDotDot(path).Pass? && EnforcePrefix(scope, path).Pass?
  {
    if HasInnerDotDot(Core(scope)) {
      forall path | NoDotDot(path).Pass?
        ensures EnforcePrefix(scope, path).Fail?
      {
        InnerDotDotIsUnusable(scope, path);
      }
    } else {
      NormShape(scope);
      CoreOfOwnPath(Core(scope));
      OwnPathPasses(Core(scope));
      SharedCoreEscapes(scope, OwnPath(Core(scope)));
    }
  }

  /** An admin of "/ a" shares "/ a/": the grant is for "/a", which is not inside "/ a". */
  const SPACED_ROOT := Cap(Some("ce-drive/d/ / a"), [ADMIN], 0)

  lemma SpacedRootEscapes(verify: Verifier)
    requires verify(SPACED_ROOT, ADMIN).Pass?
    ensures !RunStaysWithin(SPACED_ROOT, "d", "/ a", [ShareCall(0, verify, "d", true, "/ a/", [], 0)])
  {
    UncleanScopeDecodes();
    SpacedOwnPath();
    var c := UncleanRootEscapes(verify, SPACED_ROOT, "d", "/ a");
  }

  lemma SpacedOwnPath()
    ensures OwnPath(" a") == "/ a/" && !HasInnerDotDot(" a")
  {
    assert ['/'] + " a" + ['/'] == "/ a/";
  }
}
