/** Authority packets, and what is left of them for a host that did not load all required context.
    Digests stand for the canonical contents they are taken of. */
module Receipts {
  import opened Common
  import opened StringOrder

  datatype Tool = Tool(id: string, constraints: seq<string>)

  datatype Mode = ReadOnly | Write | OtherMode(text: string)

  /** The fields of a packet. `identity` holds the actor, worker, spec, task, baseline and policy, none
      of which may be empty; times are counted from the zero time. */
  datatype Body = Body(identity: seq<string>, phase: string, role: string, mode: Mode, allowed: seq<Tool>,
                       denied: seq<string>, readPaths: seq<string>, writePaths: seq<string>, network: string,
                       sandbox: string, issued: int, expires: int)

  datatype Authority = Authority(body: Body, digest: Option<Body>)

  datatype Roles = Roles(known: string -> bool, writes: string -> bool, normalizes: string -> bool)

  datatype AuthError = DigestMismatch | Misshapen | WrongPhase | Outdated | ToolDenied | ToolNotAllowed
                     | RoleMayNotWrite | PathDenied(path: string)

  const MUTABLE_TOOLS := ["verify", "complete-task", "submit"]

  // ----- canonical form -----

  predicate ToolsInOrder(tools: seq<Tool>) {
    forall i, j :: 0 <= i < j < |tools| ==> !Less(tools[j].id, tools[i].id)
  }

  function InsertTool(x: Tool, s: seq<Tool>): (r: seq<Tool>)
    ensures forall y :: y in r <==> y == x || y in s
  {
    if s == [] then [x]
    else
      assert s == [s[0]] + s[1..];
      if Less(x.id, s[0].id) then [x] + s else [s[0]] + InsertTool(x, s[1..])
  }

  /** `sort.SliceStable` by id. */
  function SortTools(s: seq<Tool>): (r: seq<Tool>)
    ensures forall y :: y in r <==> y in s
  {
    if s == [] then []
    else
      assert s == s[..|s| - 1] + [s[|s| - 1]];
      InsertTool(s[|s| - 1], SortTools(s[..|s| - 1]))
  }

  function SortConstraints(s: seq<Tool>): (r: seq<Tool>)
    ensures |r| == |s| && forall i :: 0 <= i < |s| ==> r[i] == Tool(s[i].id, Sorted(s[i].constraints))
  {
    seq(|s|, i requires 0 <= i < |s| => Tool(s[i].id, Sorted(s[i].constraints)))
  }

  function Canonical(b: Body): Body {
    b.(denied := Sorted(b.denied), readPaths := Sorted(b.readPaths), writePaths := Sorted(b.writePaths),
       allowed := SortConstraints(SortTools(b.allowed)))
  }

  lemma {:induction false} InsertToolKeepsOrder(x: Tool, s: seq<Tool>)
    requires ToolsInOrder(s)
    ensures ToolsInOrder(InsertTool(x, s))
  {
    if s != [] {
      LessTotal(x.id, s[0].id);
      if Less(x.id, s[0].id) {
        forall j | 0 < j < |s| ensures !Less(s[j].id, x.id) {
          NotLessTransitive(x.id, s[0].id, s[j].id);
        }
      } else {
        InsertToolKeepsOrder(x, s[1..]);
        var t := InsertTool(x, s[1..]);
        forall j | 0 <= j < |t| ensures !Less(t[j].id, s[0].id) {
          assert t[j] in t;
          if t[j] != x {
            var k :| 0 <= k < |s[1..]| && s[1..][k] == t[j];
            assert s[k + 1] == t[j];
          }
        }
      }
    }
  }

  lemma {:induction false} SortToolsOrders(s: seq<Tool>)
    ensures ToolsInOrder(SortTools(s))
  {
    if s != [] {
      SortToolsOrders(s[..|s| - 1]);
      InsertToolKeepsOrder(s[|s| - 1], SortTools(s[..|s| - 1]));
    }
  }

  lemma {:induction false} InsertLastTool(x: Tool, s: seq<Tool>)
    requires forall i :: 0 <= i < |s| ==> !Less(x.id, s[i].id)
    ensures InsertTool(x, s) == s + [x]
  {
    if s != [] {
      InsertLastTool(x, s[1..]);
      assert s == [s[0]] + s[1..];
    }
  }

  lemma {:induction false} SortToolsFixed(s: seq<Tool>)
    requires ToolsInOrder(s)
    ensures SortTools(s) == s
  {
    if s != [] {
      var n := |s| - 1;
      SortToolsFixed(s[..n]);
      InsertLastTool(s[n], s[..n]);
      assert s == s[..n] + [s[n]];
    }
  }

  /** A canonical packet stays as it is. */
  lemma CanonicalIsFixed(b: Body)
    ensures Canonical(Canonical(b)) == Canonical(b)
  {
    SortedTwice(b.denied);
    SortedTwice(b.readPaths);
    SortedTwice(b.writePaths);
    ToolsTwice(b.allowed);
  }

  lemma SortedTwice(s: seq<string>)
    ensures Sorted(Sorted(s)) == Sorted(s)
  {
    SortedIsNonDescending(s);
    SortedIsFixed(Sorted(s));
  }

  lemma ToolsTwice(allowed: seq<Tool>)
    ensures var tools := SortConstraints(SortTools(allowed)); SortConstraints(SortTools(tools)) == tools
  {
    var tools := SortConstraints(SortTools(allowed));
    SortToolsOrders(allowed);
    SortToolsFixed(tools);
    forall i | 0 <= i < |tools| ensures Sorted(tools[i].constraints) == tools[i].constraints {
      SortedTwice(SortTools(allowed)[i].constraints);
    }
  }

  // ----- authority -----

  function WantedMode(roles: Roles, role: string): Mode {
    if roles.writes(role) then Write else ReadOnly
  }

  predicate WellShaped(roles: Roles, b: Body) {
    && "" !in b.identity && b.phase != "" && roles.known(b.role) && b.issued != 0 && b.expires > b.issued
    && b.mode == WantedMode(roles, b.role)
    && b.network in {"deny", "allow"}
    && AllNormalize(roles, b.readPaths) && AllNormalize(roles, b.writePaths)
  }

  predicate AllNormalize(roles: Roles, paths: seq<string>) {
    forall i :: 0 <= i < |paths| ==> roles.normalizes(paths[i])
  }

  function FinalizeAuthority(roles: Roles, b: Body): Option<Authority> {
    var c := Canonical(b);
    if WellShaped(roles, c) then Some(Authority(c, Some(c))) else None
  }

  function ValidateAuthority(roles: Roles, a: Authority, now: int, phase: string): Option<AuthError> {
    var c := Canonical(a.body);
    if a.digest != Some(c) then Some(DigestMismatch)
    else if !WellShaped(roles, c) then Some(Misshapen)
    else if phase != c.phase then Some(WrongPhase)
    else if now < c.issued || now >= c.expires then Some(Outdated)
    else None
  }

  predicate Names(tools: seq<Tool>, tool: string) {
    exists i :: 0 <= i < |tools| && tools[i].id == tool
  }

  /** The two reports a read-only role may still file. */
  predicate Writes(role: string, tool: string, mutable: bool) {
    mutable && !(role == "validator" && tool == "verify") && !(role == "auditor" && tool == "report")
  }

  predicate Accepts(roles: Roles, a: Authority, tool: string, paths: seq<string>, now: int, phase: string, mutable: bool) {
    && ValidateAuthority(roles, a, now, phase).None?
    && tool !in a.body.denied && Names(a.body.allowed, tool)
    && (Writes(a.body.role, tool, mutable) ==>
          a.body.mode == Write && forall i :: 0 <= i < |paths| ==> paths[i] in a.body.writePaths)
  }

  method HasTool(tools: seq<Tool>, tool: string) returns (allowed: bool)
    ensures allowed <==> Names(tools, tool)
  {
    allowed := false;
    for i := 0 to |tools|
      invariant allowed <==> exists k :: 0 <= k < i && tools[k].id == tool
    {
      if tools[i].id == tool {
        allowed := true;
      }
    }
  }

  /** The first path that is not declared for writing. */
  method UndeclaredPath(paths: seq<string>, writePaths: seq<string>) returns (bad: Option<string>)
    ensures bad.None? <==> forall i :: 0 <= i < |paths| ==> paths[i] in writePaths
    ensures bad.Some? ==> bad.value !in writePaths && exists i :: 0 <= i < |paths| && paths[i] == bad.value
                                                               && forall k :: 0 <= k < i ==> paths[k] in writePaths
  {
    for i := 0 to |paths|
      invariant forall k :: 0 <= k < i ==> paths[k] in writePaths
    {
      if paths[i] !in writePaths {
        return Some(paths[i]);
      }
    }
    return None;
  }

  method AuthorizeTool(roles: Roles, a: Authority, tool: string, paths: seq<string>, now: int, phase: string, mutable: bool)
    returns (refused: Option<AuthError>)
    ensures refused.None? <==> Accepts(roles, a, tool, paths, now, phase, mutable)
    ensures var invalid, writing := ValidateAuthority(roles, a, now, phase), Writes(a.body.role, tool, mutable);
            if invalid.Some? then refused == invalid
            else if tool in a.body.denied then refused == Some(ToolDenied)
            else if !Names(a.body.allowed, tool) then refused == Some(ToolNotAllowed)
            else if writing && a.body.mode != Write then refused == Some(RoleMayNotWrite)
            else refused.Some? ==> writing && refused.value.PathDenied?
    ensures refused.Some? && refused.value.PathDenied? ==>
              refused.value.path in paths && refused.value.path !in a.body.writePaths
  {
    var invalid := ValidateAuthority(roles, a, now, phase);
    if invalid.Some? {
      return invalid;
    }
    if tool in a.body.denied {
      return Some(ToolDenied);
    }
    var allowed := HasTool(a.body.allowed, tool);
    if !allowed {
      return Some(ToolNotAllowed);
    }
    var writing := mutable;
    if (a.body.role == "validator" && tool == "verify") || (a.body.role == "auditor" && tool == "report") {
      writing := false;
    }
    if writing && a.body.mode != Write {
      return Some(RoleMayNotWrite);
    }
    if writing {
      var bad := UndeclaredPath(paths, a.body.writePaths);
      if bad.Some? {
        return Some(PathDenied(bad.value));
      }
    }
    return None;
  }

  // ----- receipts -----

  datatype Facts = Facts(manifest: string, host: string, driver: string, supplied: seq<string>, missing: seq<string>,
                         reportedTokens: int)

  datatype Receipt = Receipt(facts: Facts, digest: Option<Facts>)

  predicate Complete(r: Receipt) {
    r.facts.missing == []
  }

  predicate ReceiptValid(r: Receipt) {
    r.facts.manifest != "" && r.facts.host != "" && r.facts.driver != "" && r.digest == Some(r.facts)
  }

  /** Derives what is missing from what is required; a host cannot shorten the list by what it says. */
  method BuildContextReceipt(manifest: string, host: string, driver: string, required: seq<string>, supplied: seq<string>,
                             reportedTokens: int) returns (r: Option<Receipt>)
    ensures r.Some? <==> manifest != "" && host != "" && driver != "" && reportedTokens >= 0
    ensures r.Some? ==> ReceiptValid(r.value) && r.value.facts.manifest == manifest && r.value.facts.host == host
                        && r.value.facts.driver == driver && r.value.facts.reportedTokens == reportedTokens
    ensures r.Some? ==> Ascending(r.value.facts.missing) && Ascending(r.value.facts.supplied)
    ensures r.Some? ==> forall d :: d in r.value.facts.missing <==> d in required && d !in supplied
    ensures r.Some? ==> forall d :: d in r.value.facts.supplied <==> d in required && d in supplied
    ensures r.Some? ==> (Complete(r.value) <==> forall i :: 0 <= i < |required| ==> required[i] in supplied)
  {
    if manifest == "" || host == "" || driver == "" || reportedTokens < 0 {
      return None;
    }
    var has, lacks: seq<string> := [], [];
    for i := 0 to |required|
      invariant forall d :: d in has <==> d in required[..i] && d in supplied
      invariant forall d :: d in lacks <==> d in required[..i] && d !in supplied
    {
      assert required[..i + 1] == required[..i] + [required[i]];
      if required[i] in supplied {
        has := has + [required[i]];
      } else {
        lacks := lacks + [required[i]];
      }
    }
    assert required[..|required|] == required;
    has, lacks := CompactSorted(has), CompactSorted(lacks);
    var facts := Facts(manifest, host, driver, has, lacks, reportedTokens);
    assert lacks != [] ==> lacks[0] in lacks;
    return Some(Receipt(facts, Some(facts)));
  }

  function CompactSorted(s: seq<string>): (r: seq<string>)
    ensures Ascending(r) && forall x :: x in r <==> x in s
  {
    SortedIsNonDescending(s);
    CompactAscends(Sorted(s));
    Compact(Sorted(s))
  }

  // ----- withholding -----

  datatype GrantError = ReceiptInvalid | ReceiptStale | PacketMisshapen

  function Immutable(tools: seq<Tool>): (r: seq<Tool>)
    ensures forall x :: x in r <==> x in tools && x.id !in MUTABLE_TOOLS
  {
    if tools == [] then []
    else
      var n := |tools| - 1;
      assert tools == tools[..n] + [tools[n]];
      Immutable(tools[..n]) + (if tools[n].id in MUTABLE_TOOLS then [] else [tools[n]])
  }

  function AddMissing(denied: seq<string>, tools: seq<string>): (r: seq<string>)
    ensures forall x :: x in r <==> x in denied || x in tools
    decreases tools
  {
    if tools == [] then denied
    else
      assert tools == [tools[0]] + tools[1..];
      AddMissing(if tools[0] in denied then denied else denied + [tools[0]], tools[1..])
  }

  function Withheld(b: Body): Body {
    b.(writePaths := [], allowed := Immutable(b.allowed), denied := AddMissing(b.denied, MUTABLE_TOOLS))
  }

  function Granted(roles: Roles, a: Authority, receipt: Receipt, manifest: string): Result<Authority, GrantError> {
    if !ReceiptValid(receipt) then Err(ReceiptInvalid)
    else if manifest == "" || receipt.facts.manifest != manifest then Err(ReceiptStale)
    else if Complete(receipt) then Ok(a)
    else
      match FinalizeAuthority(roles, Withheld(a.body))
      case None => Err(PacketMisshapen)
      case Some(w) => Ok(w)
  }

  method AuthorizeWithReceipt(roles: Roles, a: Authority, receipt: Receipt, manifest: string)
    returns (r: Result<Authority, GrantError>)
    ensures r == Granted(roles, a, receipt, manifest)
  {
    if !ReceiptValid(receipt) {
      return Err(ReceiptInvalid);
    }
    if manifest == "" || receipt.facts.manifest != manifest {
      return Err(ReceiptStale);
    }
    if Complete(receipt) {
      return Ok(a);
    }
    var allowed: seq<Tool> := [];
    for i := 0 to |a.body.allowed|
      invariant allowed == Immutable(a.body.allowed[..i])
    {
      assert a.body.allowed[..i + 1][..i] == a.body.allowed[..i];
      if a.body.allowed[i].id !in MUTABLE_TOOLS {
        allowed := allowed + [a.body.allowed[i]];
      }
    }
    assert a.body.allowed[..|a.body.allowed|] == a.body.allowed;
    var denied := a.body.denied;
    for i := 0 to |MUTABLE_TOOLS|
      invariant AddMissing(denied, MUTABLE_TOOLS[i..]) == AddMissing(a.body.denied, MUTABLE_TOOLS)
    {
      assert MUTABLE_TOOLS[i..][1..] == MUTABLE_TOOLS[i + 1..];
      if MUTABLE_TOOLS[i] !in denied {
        denied := denied + [MUTABLE_TOOLS[i]];
      }
    }
    var w := FinalizeAuthority(roles, a.body.(writePaths := [], allowed := allowed, denied := denied));
    return if w.Some? then Ok(w.value) else Err(PacketMisshapen);
  }

  lemma SameNames(a: seq<Tool>, b: seq<Tool>, tool: string)
    requires (forall x :: x in a ==> x in b) && Names(a, tool)
    ensures Names(b, tool)
  {
    var i :| 0 <= i < |a| && a[i].id == tool;
    assert a[i] in a;
    var k :| 0 <= k < |b| && b[k] == a[i];
  }

  lemma ConstraintsKeepNames(tools: seq<Tool>, tool: string)
    ensures Names(SortConstraints(tools), tool) <==> Names(tools, tool)
  {
  }

  lemma SortedMember(s: seq<string>, x: string)
    ensures x in Sorted(s) <==> x in s
  {
  }

  lemma CanonicalMembers(b: Body, tool: string)
    ensures Names(Canonical(b).allowed, tool) <==> Names(b.allowed, tool)
    ensures tool in Canonical(b).denied <==> tool in b.denied
    ensures tool in Canonical(b).writePaths <==> tool in b.writePaths
  {
    SortedMember(b.denied, tool);
    SortedMember(b.writePaths, tool);
    ConstraintsKeepNames(SortTools(b.allowed), tool);
    if Names(b.allowed, tool) {
      SameNames(b.allowed, SortTools(b.allowed), tool);
    }
    if Names(SortTools(b.allowed), tool) {
      SameNames(SortTools(b.allowed), b.allowed, tool);
    }
  }

  lemma WithheldMembers(b: Body, tool: string)
    ensures Names(Withheld(b).allowed, tool) <==> Names(b.allowed, tool) && tool !in MUTABLE_TOOLS
    ensures b.denied <= Withheld(b).denied
  {
    AddingExtends(b.denied, MUTABLE_TOOLS);
  }

  lemma {:induction false} AddingExtends(denied: seq<string>, tools: seq<string>)
    ensures denied <= AddMissing(denied, tools)
    decreases tools
  {
    if tools != [] {
      AddingExtends(if tools[0] in denied then denied else denied + [tools[0]], tools[1..]);
    }
  }

  lemma CanonicalShape(roles: Roles, b: Body)
    ensures WellShaped(roles, Canonical(b)) <==> WellShaped(roles, b)
  {
    SortedNormalize(roles, b.readPaths);
    SortedNormalize(roles, b.writePaths);
  }

  lemma SortedNormalize(roles: Roles, paths: seq<string>)
    ensures AllNormalize(roles, Sorted(paths)) <==> AllNormalize(roles, paths)
  {
    forall i | 0 <= i < |paths| ensures exists k :: 0 <= k < |Sorted(paths)| && Sorted(paths)[k] == paths[i] {
      assert paths[i] in Sorted(paths);
    }
    forall i | 0 <= i < |Sorted(paths)| ensures exists k :: 0 <= k < |paths| && paths[k] == Sorted(paths)[i] {
      assert Sorted(paths)[i] in paths;
    }
  }

  /** The packet that is granted on an incomplete receipt. */
  function Narrowed(a: Authority): Authority {
    Authority(Canonical(Withheld(a.body)), Some(Canonical(Withheld(a.body))))
  }

  /** An incomplete receipt does not make a valid packet fail: it is narrowed. */
  lemma ShortfallNarrows(roles: Roles, a: Authority, receipt: Receipt, manifest: string)
    requires ReceiptValid(receipt) && receipt.facts.manifest == manifest && !Complete(receipt)
    requires WellShaped(roles, a.body)
    ensures Granted(roles, a, receipt, manifest) == Ok(Narrowed(a))
    ensures WellShaped(roles, Narrowed(a).body) && Narrowed(a).digest == Some(Canonical(Narrowed(a).body))
  {
    CanonicalShape(roles, Withheld(a.body));
    CanonicalIsFixed(Withheld(a.body));
  }

  lemma NarrowedParts(a: Authority, tool: string)
    ensures Names(Narrowed(a).body.allowed, tool) <==> Names(a.body.allowed, tool) && tool !in MUTABLE_TOOLS
    ensures tool in Narrowed(a).body.denied <==> tool in a.body.denied || tool in MUTABLE_TOOLS
    ensures Narrowed(a).body.writePaths == []
    ensures Narrowed(a).body.role == a.body.role && Narrowed(a).body.mode == a.body.mode
  {
    CanonicalMembers(Withheld(a.body), tool);
    WithheldMembers(a.body, tool);
    assert Sorted([]) == [];
  }

  /** The narrowed packet accepts exactly the calls the packet accepted that name no mutable tool and
      write no path. In particular verify, complete-task and submit are refused whatever the paths. */
  lemma NarrowedAcceptsExactly(roles: Roles, a: Authority, tool: string, paths: seq<string>, now: int, phase: string,
                               mutable: bool)
    requires a.digest == Some(Canonical(a.body)) && WellShaped(roles, a.body)
    ensures Accepts(roles, Narrowed(a), tool, paths, now, phase, mutable) <==>
            && Accepts(roles, a, tool, paths, now, phase, mutable)
            && tool !in MUTABLE_TOOLS && (Writes(a.body.role, tool, mutable) ==> paths == [])
  {
    CanonicalShape(roles, a.body);
    CanonicalShape(roles, Withheld(a.body));
    CanonicalIsFixed(Withheld(a.body));
    NarrowedParts(a, tool);
    SameTimes(roles, a, Narrowed(a), now, phase);
    assert paths != [] ==> paths[0] !in Narrowed(a).body.writePaths;
  }

  lemma SameTimes(roles: Roles, a: Authority, b: Authority, now: int, phase: string)
    requires a.digest == Some(Canonical(a.body)) && b.digest == Some(Canonical(b.body))
    requires WellShaped(roles, Canonical(a.body)) && WellShaped(roles, Canonical(b.body))
    requires a.body.phase == b.body.phase && a.body.issued == b.body.issued && a.body.expires == b.body.expires
    ensures ValidateAuthority(roles, a, now, phase).None? <==> ValidateAuthority(roles, b, now, phase).None?
  {
  }

  // ----- acceptance, in terms of what is written in a packet -----

  /** Two packets are the same in order exactly when they differ at most in how their lists are ordered, of
      the tools only in what sorting them by id undoes. */
  lemma CanonicalExactlyWhen(a: Body, b: Body)
    ensures Canonical(a) == Canonical(b) <==>
            && a.(denied := b.denied, readPaths := b.readPaths, writePaths := b.writePaths, allowed := b.allowed) == b
            && multiset(a.denied) == multiset(b.denied) && multiset(a.readPaths) == multiset(b.readPaths)
            && multiset(a.writePaths) == multiset(b.writePaths)
            && SortConstraints(SortTools(a.allowed)) == SortConstraints(SortTools(b.allowed))
  {
    SortedExactlyWhen(a.denied, b.denied);
    SortedExactlyWhen(a.readPaths, b.readPaths);
    SortedExactlyWhen(a.writePaths, b.writePaths);
  }

  lemma SortedExactlyWhen(s: seq<string>, t: seq<string>)
    ensures Sorted(s) == Sorted(t) <==> multiset(s) == multiset(t)
  {
    if multiset(s) == multiset(t) {
      SortedIsNonDescending(s);
      SortedIsNonDescending(t);
      NonDescendingIsUnique(Sorted(s), Sorted(t));
    }
  }

  /** A packet altered after it was finalized is told apart by its digest, whatever else is wrong with it. */
  lemma AlteredIsTold(roles: Roles, b: Body, altered: Body, now: int, phase: string)
    requires FinalizeAuthority(roles, b).Some?
    ensures var f := FinalizeAuthority(roles, b).value;
            ValidateAuthority(roles, Authority(altered, f.digest), now, phase) == Some(DigestMismatch) <==>
            Canonical(altered) != Canonical(b)
  {
  }

  /** What is written in a packet is in form: nothing missing, a mode that is the role's, and paths that stay
      in the project. */
  predicate InForm(roles: Roles, b: Body) {
    && (forall i :: 0 <= i < |b.identity| ==> b.identity[i] != "") && b.phase != "" && roles.known(b.role)
    && b.issued != 0 && b.issued < b.expires
    && (if roles.writes(b.role) then b.mode == Write else b.mode == ReadOnly)
    && (b.network == "deny" || b.network == "allow")
    && (forall p :: p in b.readPaths + b.writePaths ==> roles.normalizes(p))
  }

  lemma InFormIs(roles: Roles, b: Body)
    ensures InForm(roles, b) <==> WellShaped(roles, Canonical(b))
  {
    CanonicalShape(roles, b);
  }

  /** Main result: a packet accepts a call if and only if its digest is that of its contents, they are in
      form, the call comes in its phase and hours, the tool is allowed and not denied, and what writes is
      declared for writing by a role that may. */
  lemma AcceptsExactlyWhen(roles: Roles, a: Authority, tool: string, paths: seq<string>, now: int, phase: string,
                           mutable: bool)
    ensures Accepts(roles, a, tool, paths, now, phase, mutable) <==>
            var b := a.body;
            && a.digest == Some(Canonical(b)) && InForm(roles, b) && phase == b.phase && b.issued <= now < b.expires
            && tool !in b.denied && (exists t :: t in b.allowed && t.id == tool)
            && (mutable && !(b.role == "validator" && tool == "verify") && !(b.role == "auditor" && tool == "report") ==>
                  roles.writes(b.role) && forall p :: p in paths ==> p in b.writePaths)
  {
    InvalidTells(roles, a, now, phase);
    NamesMeans(a.body.allowed, tool);
  }

  lemma NamesMeans(tools: seq<Tool>, tool: string)
    ensures Names(tools, tool) <==> exists t :: t in tools && t.id == tool
  {
    if t :| t in tools && t.id == tool {
      var i :| 0 <= i < |tools| && tools[i] == t;
    }
  }

  /** Why a packet is not valid, in the order it is found out. */
  lemma InvalidTells(roles: Roles, a: Authority, now: int, phase: string)
    ensures var r, b := ValidateAuthority(roles, a, now, phase), a.body;
            var intact := a.digest == Some(Canonical(b));
            && (!intact ==> r == Some(DigestMismatch))
            && (intact && !InForm(roles, b) ==> r == Some(Misshapen))
            && (intact && InForm(roles, b) && phase != b.phase ==> r == Some(WrongPhase))
            && (intact && InForm(roles, b) && phase == b.phase ==>
                  r == if b.issued <= now < b.expires then None else Some(Outdated))
  {
    InFormIs(roles, a.body);
  }

  /** What a host is granted on a receipt: nothing on one that is not its own or not of the current manifest,
      the packet itself on a complete one, and the narrowed packet otherwise. */
  lemma GrantedExactlyWhen(roles: Roles, a: Authority, receipt: Receipt, manifest: string)
    ensures var r, f := Granted(roles, a, receipt, manifest), receipt.facts;
            if f.manifest == "" || f.host == "" || f.driver == "" || receipt.digest != Some(f) then r == Err(ReceiptInvalid)
            else if f.manifest != manifest then r == Err(ReceiptStale)
            else if f.missing == [] then r == Ok(a)
            else r == if InForm(roles, a.body.(writePaths := [])) then Ok(Narrowed(a)) else Err(PacketMisshapen)
  {
    InFormIs(roles, Withheld(a.body));
  }

  // ----- building a packet -----

  function BuiltTools(roles: Roles, role: string): seq<Tool> {
    [Tool("status", []), Tool("context", []), Tool("check", [])]
    + if roles.writes(role) then [Tool("verify", []), Tool("complete-task", [])]
      else if role == "validator" then [Tool("verify", [])]
      else if role == "auditor" then [Tool("report", [])]
      else []
  }

  /** What a packet is built from. */
  datatype Commission = Commission(identity: seq<string>, phase: string, role: string, files: seq<string>,
                                   sandbox: string, issued: int, expires: int)

  function BuiltBody(roles: Roles, c: Commission): Body {
    Body(c.identity, c.phase, c.role, WantedMode(roles, c.role), BuiltTools(roles, c.role),
         ["approve", "decision", "submit"], c.files, if roles.writes(c.role) then c.files else [],
         "deny", c.sandbox, c.issued, c.expires)
  }

  function BuildAuthority(roles: Roles, c: Commission): Option<Authority> {
    FinalizeAuthority(roles, BuiltBody(roles, c))
  }

  /** The tools a role is given. */
  predicate GivenTo(roles: Roles, role: string, tool: string) {
    || tool in ["status", "context", "check"]
    || (roles.writes(role) && tool in ["verify", "complete-task"])
    || (!roles.writes(role) && role == "validator" && tool == "verify")
    || (!roles.writes(role) && role == "auditor" && tool == "report")
  }

  /** A packet can be built for a commission that names everything, and then accepts exactly the calls of the
      tools its role is given, in its phase and hours, that write only for a write role and on declared
      files. */
  lemma BuiltAcceptsExactly(roles: Roles, c: Commission, tool: string, paths: seq<string>, now: int, at: string, mutable: bool)
    ensures BuildAuthority(roles, c).Some? <==>
            && (forall i :: 0 <= i < |c.identity| ==> c.identity[i] != "") && c.phase != "" && roles.known(c.role)
            && c.issued != 0 && c.issued < c.expires && (forall p :: p in c.files ==> roles.normalizes(p))
    ensures BuildAuthority(roles, c).Some? ==>
              (Accepts(roles, BuildAuthority(roles, c).value, tool, paths, now, at, mutable) <==>
               && at == c.phase && c.issued <= now < c.expires && GivenTo(roles, c.role, tool)
               && (Writes(c.role, tool, mutable) ==> roles.writes(c.role) && forall p :: p in paths ==> p in c.files))
  {
    var b := BuiltBody(roles, c);
    InFormIs(roles, b);
    if BuildAuthority(roles, c).Some? {
      FinalizedAccepts(roles, b, tool, paths, now, at, mutable);
      BuiltNames(roles, c.role, tool);
    }
  }

  lemma BuiltNames(roles: Roles, role: string, tool: string)
    ensures Names(BuiltTools(roles, role), tool) <==> GivenTo(roles, role, tool)
    ensures GivenTo(roles, role, tool) ==> tool !in ["approve", "decision", "submit"]
  {
    NamesMeans(BuiltTools(roles, role), tool);
  }

  /** What a call on a finalized packet needs, in terms of the packet before it was put in order. */
  lemma FinalizedAccepts(roles: Roles, b: Body, tool: string, paths: seq<string>, now: int, at: string, mutable: bool)
    requires FinalizeAuthority(roles, b).Some?
    ensures Accepts(roles, FinalizeAuthority(roles, b).value, tool, paths, now, at, mutable) <==>
            && tool !in b.denied && Names(b.allowed, tool) && at == b.phase && b.issued <= now < b.expires
            && (Writes(b.role, tool, mutable) ==> b.mode == Write && forall p :: p in paths ==> p in b.writePaths)
  {
    FinalizedIsValid(roles, b, now, at);
    CanonicalMembers(b, tool);
    DeclaredPaths(b, paths);
  }

  lemma FinalizedIsValid(roles: Roles, b: Body, now: int, at: string)
    requires FinalizeAuthority(roles, b).Some?
    ensures ValidateAuthority(roles, FinalizeAuthority(roles, b).value, now, at).None? <==>
            at == b.phase && b.issued <= now < b.expires
  {
    CanonicalIsFixed(b);
  }

  lemma DeclaredPaths(b: Body, paths: seq<string>)
    ensures (forall i :: 0 <= i < |paths| ==> paths[i] in Canonical(b).writePaths) <==>
            forall p :: p in paths ==> p in b.writePaths
  {
    forall p ensures p in Canonical(b).writePaths <==> p in b.writePaths {
      SortedMember(b.writePaths, p);
    }
  }
}
