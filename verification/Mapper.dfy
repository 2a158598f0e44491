/**
 The cgroup-to-pod resolvers: collector-go/mapper.go and its Python twin
 collector/k8s_mapper.py. The regular expressions are inputs; what is modelled
 is the lookup, the cache in front of it and the periodic refresh.
 */
module Mapper {
  import opened Wrappers

  datatype Identity = Identity(namespace: string, pod: string, container: string)

  const UNKNOWN := Identity("unknown", "unknown", "unknown")

  datatype Pods = Pods(uidToPod: map<string, (string, string)>, cidToName: map<string, string>)

  datatype Tables = Tables(inoToPath: map<nat, string>, pods: Pods)

  /** First capture group of the pod and of the container expression, where they match. */
  datatype Patterns = Patterns(pod: string -> Option<string>, container: string -> Option<string>)

  function Truncate(s: string, n: nat): (r: string)
    ensures r <= s && |r| == if |s| > n then n else |s|
  {
    if |s| > n then s[..n] else s
  }

  // --------------------------------------------------------- pod identity

  function Dashed(s: string): (r: string)
    ensures |r| == |s|
    ensures forall i | 0 <= i < |s| :: r[i] == if s[i] == '_' then '-' else s[i]
  {
    if s == "" then "" else [if s[0] == '_' then '-' else s[0]] + Dashed(s[1..])
  }

  function WithoutDashes(s: string): string {
    if s == "" then ""
    else if s[0] == '-' then WithoutDashes(s[1..])
    else [s[0]] + WithoutDashes(s[1..])
  }

  /** The digits of a uid, whatever separators it is written with. */
  function Digits(s: string): string {
    WithoutDashes(Dashed(s))
  }

  function NormalizeUID(raw: string): string {
    if |Digits(raw)| == 32 then Canonical(Digits(raw)) else Dashed(raw)
  }

  function Canonical(hex: string): string
    requires |hex| == 32
  {
    hex[0..8] + "-" + hex[8..12] + "-" + hex[12..16] + "-" + hex[16..20] + "-" + hex[20..32]
  }

  predicate Plain(s: string) {
    forall i | 0 <= i < |s| :: s[i] != '-' && s[i] != '_'
  }

  lemma Assoc(a: string, b: string, c: string)
    ensures (a + b) + c == a + (b + c)
  {
  }

  lemma {:induction false} WithoutDashesConcat(a: string, b: string)
    ensures WithoutDashes(a + b) == WithoutDashes(a) + WithoutDashes(b)
  {
    if a == "" {
      assert a + b == b;
    } else {
      WithoutDashesConcat(a[1..], b);
      assert (a + b)[1..] == a[1..] + b && (a + b)[0] == a[0];
      Assoc([a[0]], WithoutDashes(a[1..]), WithoutDashes(b));
    }
  }

  lemma {:induction false} WithoutDashesPlain(s: string)
    requires Plain(s)
    ensures WithoutDashes(s) == s
  {
    if s != "" {
      WithoutDashesPlain(s[1..]);
    }
  }

  lemma {:induction false} DigitsPlain(s: string)
    ensures Plain(Digits(s))
  {
    if s != "" {
      DigitsPlain(s[1..]);
    }
  }

  lemma DashedTwice(s: string)
    ensures Dashed(Dashed(s)) == Dashed(s)
  {
  }

  /** Two plain parts around a dash. */
  lemma JoinWithDash(a: string, b: string)
    ensures WithoutDashes(a + "-" + b) == WithoutDashes(a) + WithoutDashes(b)
  {
    WithoutDashesConcat(a + "-", b);
    WithoutDashesConcat(a, "-");
    assert WithoutDashes("-") == "" by { assert "-"[1..] == ""; }
  }

  lemma CanonicalDigits(hex: string)
    requires |hex| == 32 && Plain(hex)
    ensures WithoutDashes(Canonical(hex)) == hex
  {
    var a, b, c, d, e := hex[0..8], hex[8..12], hex[12..16], hex[16..20], hex[20..32];
    Rejoin(hex);
    PlainJoined(a, b);
    PlainJoined(a + b, c);
    PlainJoined(a + b + c, d);
    PlainJoined(a + b + c + d, e);
    JoinWithDash(a, b);
    JoinWithDash(a + "-" + b, c);
    JoinWithDash(a + "-" + b + "-" + c, d);
    JoinWithDash(a + "-" + b + "-" + c + "-" + d, e);
  }

  lemma Rejoin(hex: string)
    requires |hex| == 32
    ensures hex[0..8] + hex[8..12] + hex[12..16] + hex[16..20] + hex[20..32] == hex
  {
  }

  lemma PlainJoined(a: string, b: string)
    requires Plain(a + b)
    ensures Plain(a) && Plain(b) && WithoutDashes(a) == a && WithoutDashes(b) == b
  {
    assert forall i | 0 <= i < |a| :: (a + b)[i] == a[i];
    assert forall i | 0 <= i < |b| :: (a + b)[|a| + i] == b[i];
    WithoutDashesPlain(a);
    WithoutDashesPlain(b);
  }

  lemma CanonicalDashed(hex: string)
    requires |hex| == 32 && Plain(hex)
    ensures Dashed(Canonical(hex)) == Canonical(hex)
  {
    var canon := Canonical(hex);
    assert forall i | 0 <= i < |canon| :: canon[i] != '_';
  }

  /** Normalising keeps the digits and leaves no underscore. */
  lemma NormalizedDigits(raw: string)
    ensures Digits(NormalizeUID(raw)) == Digits(raw)
    ensures Dashed(NormalizeUID(raw)) == NormalizeUID(raw)
  {
    DashedTwice(raw);
    DigitsPlain(raw);
    if |Digits(raw)| == 32 {
      CanonicalDigits(Digits(raw));
      CanonicalDashed(Digits(raw));
    }
  }

  lemma NormalizeIdempotent(raw: string)
    ensures NormalizeUID(NormalizeUID(raw)) == NormalizeUID(raw)
  {
    NormalizedDigits(raw);
  }

  /** Two spellings normalise alike exactly when they have the same 32 digits, or, for anything that is not a
      32-digit uid, when they differ by underscores only. */
  lemma NormalizeIdentifies(x: string, y: string)
    ensures NormalizeUID(x) == NormalizeUID(y)
       <==> if |Digits(x)| == 32 then Digits(x) == Digits(y) else Dashed(x) == Dashed(y)
  {
    NormalizedDigits(x);
    NormalizedDigits(y);
  }

  // ------------------------------------------------------------ base name

  /** What follows the last slash. */
  function AfterSlash(s: string): string {
    if s == "" || s[|s| - 1] == '/' then "" else AfterSlash(s[..|s| - 1]) + [s[|s| - 1]]
  }

  function TrimSlashes(s: string): string {
    if s != "" && s[|s| - 1] == '/' then TrimSlashes(s[..|s| - 1]) else s
  }

  /** `filepath.Base`. */
  function GoBase(path: string): string {
    if path == "" then "."
    else if TrimSlashes(path) == "" then "/"
    else AfterSlash(TrimSlashes(path))
  }

  /** `os.path.basename(path) or "root"`. */
  function PyBase(path: string): string {
    if AfterSlash(path) == "" then "root" else AfterSlash(path)
  }

  // --------------------------------------------------------------- lookup

  function PodOf(t: Tables, uid: string): (string, string) {
    if uid in t.pods.uidToPod then t.pods.uidToPod[uid] else ("unknown", "pod-" + Truncate(uid, 8))
  }

  /** `Mapper.Resolve` with no cache in front. */
  function GoLookup(t: Tables, pats: Patterns, cg: nat): Identity {
    if cg !in t.inoToPath then UNKNOWN
    else
      var path := t.inoToPath[cg];
      match pats.pod(path)
      case None => Identity("node", "system", GoBase(path))
      case Some(raw) =>
        var (ns, pod) := PodOf(t, NormalizeUID(raw));
        var cid := pats.container(path).GetOr("");
        var cname :=
          if cid == "" then "unknown"
          else if Truncate(cid, 64) in t.pods.cidToName then t.pods.cidToName[Truncate(cid, 64)]
          else Truncate(cid, 12);
        Identity(ns, pod, cname)
  }

  /** `K8sMapper.resolve` with no cache in front. */
  function PyLookup(t: Tables, pats: Patterns, cg: nat): Identity {
    if cg !in t.inoToPath || t.inoToPath[cg] == "" then UNKNOWN
    else
      var path := t.inoToPath[cg];
      match pats.pod(path)
      case None => Identity("node", "system", PyBase(path))
      case Some(raw) =>
        var (ns, pod) := PodOf(t, NormalizeUID(raw));
        var cid := pats.container(path).GetOr("");
        var cname :=
          if Truncate(cid, 64) in t.pods.cidToName then t.pods.cidToName[Truncate(cid, 64)]
          else if cid != "" then Truncate(cid, 12) else "unknown";
        Identity(ns, pod, cname)
  }

  /** The two resolvers may disagree only on an empty path, one that ends in a slash, or a container table keyed by
      "". */
  predicate SameAnswer(t: Tables, pats: Patterns, cg: nat) {
    cg in t.inoToPath ==>
      var path := t.inoToPath[cg];
      if path == "" then false
      else if pats.pod(path).None? then GoBase(path) == PyBase(path)
      else pats.container(path).GetOr("") != "" || "" !in t.pods.cidToName || t.pods.cidToName[""] == "unknown"
  }

  /** Exactly when the Go and the Python resolver agree; the pod pattern never matches an empty path. */
  lemma ResolversAgree(t: Tables, pats: Patterns, cg: nat)
    requires cg in t.inoToPath && t.inoToPath[cg] == "" ==> pats.pod("").None?
    ensures GoLookup(t, pats, cg) == PyLookup(t, pats, cg) <==> SameAnswer(t, pats, cg)
  {
    assert Truncate("", 64) == "";
  }

  lemma BasesAgree(path: string)
    requires path != ""
    ensures GoBase(path) == PyBase(path) <==> path[|path| - 1] != '/' || GoBase(path) == "root"
  {
  }

  // ---------------------------------------------------- what an answer says

  /** A uid as the cluster writes it: 8, 4, 4, 4 and 12 characters with dashes between. */
  predicate CanonicalForm(uid: string) {
    && |uid| == 36
    && forall i | 0 <= i < 36 :: if i in {8, 13, 18, 23} then uid[i] == '-' else uid[i] != '-' && uid[i] != '_'
  }

  /** Such a uid is its own normal form. */
  lemma CanonicalFixed(uid: string)
    requires CanonicalForm(uid)
    ensures |Digits(uid)| == 32 && NormalizeUID(uid) == uid
  {
    var a, b, c, d, e := uid[0..8], uid[9..13], uid[14..18], uid[19..23], uid[24..36];
    var hex := a + b + c + d + e;
    assert hex[0..8] == a && hex[8..12] == b && hex[12..16] == c && hex[16..20] == d && hex[20..32] == e;
    assert uid == a + uid[8..9] + b + uid[13..14] + c + uid[18..19] + d + uid[23..24] + e;
    assert uid[8..9] == uid[13..14] == uid[18..19] == uid[23..24] == "-";
    assert uid == Canonical(hex);
    PlainParts(a, b, c, d, e);
    CanonicalDigits(hex);
    assert Dashed(uid) == uid;
  }

  lemma PlainParts(a: string, b: string, c: string, d: string, e: string)
    requires Plain(a) && Plain(b) && Plain(c) && Plain(d) && Plain(e)
    ensures Plain(a + b + c + d + e)
  {
  }

  /** The pod: that of the listed uid which the path spells, with dashes, underscores or neither; for an unlisted one
      the first eight characters of its normal form. */
  ghost predicate NamesPod(pods: Pods, raw: string, id: Identity) {
    && (forall uid | uid in pods.uidToPod && CanonicalForm(uid) && Digits(raw) == Digits(uid) ::
          id.namespace == pods.uidToPod[uid].0 && id.pod == pods.uidToPod[uid].1)
    && (NormalizeUID(raw) !in pods.uidToPod ==> id.namespace == "unknown")
    && (NormalizeUID(raw) !in pods.uidToPod && |NormalizeUID(raw)| >= 8 ==>
          id.pod == "pod-" + NormalizeUID(raw)[..8])
  }

  /** The container: its listed name, by at most 64 characters of its id; for an unlisted one the first twelve. */
  ghost predicate NamesContainer(pods: Pods, cid: Option<string>, id: Identity) {
    && (cid.GetOr("") == "" && "" !in pods.cidToName ==> id.container == "unknown")
    && (cid.Some? && 0 < |cid.value| <= 64 && cid.value in pods.cidToName ==>
          id.container == pods.cidToName[cid.value])
    && (cid.Some? && |cid.value| > 64 && cid.value[..64] in pods.cidToName ==>
          id.container == pods.cidToName[cid.value[..64]])
    && (cid.Some? && 12 <= |cid.value| <= 64 && cid.value !in pods.cidToName ==> id.container == cid.value[..12])
    && (cid.Some? && 0 < |cid.value| < 12 && cid.value !in pods.cidToName ==> id.container == cid.value)
  }

  /** The last component of a path that does not end in a slash. */
  ghost predicate NamesLast(path: string, name: string) {
    forall i | 0 <= i < |path| - 1 && path[i] == '/' && '/' !in path[i + 1..] :: name == path[i + 1..]
  }

  /** What any answer about a cgroup must say, given the tables. */
  ghost predicate Answers(t: Tables, pats: Patterns, cg: nat, id: Identity) {
    && (cg !in t.inoToPath ==> id == Identity("unknown", "unknown", "unknown"))
    && (cg in t.inoToPath && t.inoToPath[cg] != "" ==>
          var path := t.inoToPath[cg];
          && (pats.pod(path).None? ==> id.namespace == "node" && id.pod == "system" && NamesLast(path, id.container))
          && (pats.pod(path).Some? ==>
                NamesPod(t.pods, pats.pod(path).value, id) && NamesContainer(t.pods, pats.container(path), id)))
  }

  lemma {:induction false} AfterSlashIs(path: string, i: nat)
    requires i < |path| && path[i] == '/' && '/' !in path[i + 1..]
    ensures AfterSlash(path) == path[i + 1..]
  {
    var n := |path| - 1;
    if i < n {
      assert path[n] in path[i + 1..];
      assert path[..n][i + 1..] == path[i + 1..n] && path[i + 1..] == path[i + 1..n] + [path[n]];
      AfterSlashIs(path[..n], i);
    }
  }

  lemma BaseNamesLast(path: string)
    requires path != ""
    ensures NamesLast(path, GoBase(path)) && NamesLast(path, PyBase(path))
  {
    forall i | 0 <= i < |path| - 1 && path[i] == '/' && '/' !in path[i + 1..]
      ensures GoBase(path) == path[i + 1..] == PyBase(path)
    {
      assert path[|path| - 1] in path[i + 1..];
      AfterSlashIs(path, i);
    }
  }

  lemma PodOfNames(t: Tables, raw: string, cname: string)
    ensures var (ns, pod) := PodOf(t, NormalizeUID(raw)); NamesPod(t.pods, raw, Identity(ns, pod, cname))
  {
    forall uid | uid in t.pods.uidToPod && CanonicalForm(uid) && Digits(raw) == Digits(uid)
      ensures NormalizeUID(raw) == uid
    {
      CanonicalFixed(uid);
    }
  }

  /** Both lookups answer so. */
  lemma LookupsAnswer(t: Tables, pats: Patterns, cg: nat)
    ensures Answers(t, pats, cg, GoLookup(t, pats, cg)) && Answers(t, pats, cg, PyLookup(t, pats, cg))
  {
    if cg in t.inoToPath && t.inoToPath[cg] != "" {
      var path := t.inoToPath[cg];
      if pats.pod(path).None? {
        BaseNamesLast(path);
      } else {
        PodOfNames(t, pats.pod(path).value, GoLookup(t, pats, cg).container);
        PodOfNames(t, pats.pod(path).value, PyLookup(t, pats, cg).container);
      }
    }
  }

  // ---------------------------------------------------------------- cache

  /** One call: the cgroup asked for, the clock before and after, and what a scan and a pod listing would return now. */
  datatype Request = Request(cg: nat, now: real, after: real, scan: map<nat, string>, listing: Option<Pods>)

  datatype State = State(tables: Tables, cache: map<nat, Identity>, lastScan: real)

  predicate Fresh(s: State, now: real, refresh: real) {
    now - s.lastScan < refresh && s.tables.inoToPath != map[]
  }

  /** `maybeRefresh`: a failed listing keeps the old pod tables; the cache never outlives the tables. */
  function Refreshed(s: State, r: Request, refresh: real): State {
    if Fresh(s, r.now, refresh) then s
    else State(Tables(r.scan, r.listing.GetOr(s.tables.pods)), map[], r.after)
  }

  /** A refresh is due when the period is over or no path is known. Then the paths are those of the scan, the pods
      those of the listing or, when it failed, the old ones, and nothing is cached; until then nothing changes. */
  predicate IsRefresh(s: State, r: Request, refresh: real, stamp: real, s': State) {
    if r.now >= s.lastScan + refresh || s.tables.inoToPath == map[] then
      && s'.tables.inoToPath == r.scan && s'.cache == map[] && s'.lastScan == stamp
      && s'.tables.pods == match r.listing case Some(pods) => pods case None => s.tables.pods
    else s' == s
  }

  /** The call through the cache. */
  function CachedStep(s: State, r: Request, lookup: (Tables, nat) -> Identity, refresh: real): (State, Identity) {
    var s1 := Refreshed(s, r, refresh);
    if r.cg in s1.cache then (s1, s1.cache[r.cg])
    else
      var id := lookup(s1.tables, r.cg);
      (s1.(cache := s1.cache[r.cg := id]), id)
  }

  /** The simple form: refresh on the same schedule, look everything up. */
  function PlainStep(s: State, r: Request, lookup: (Tables, nat) -> Identity, refresh: real): (State, Identity) {
    var s1 := Refreshed(s, r, refresh);
    (s1, lookup(s1.tables, r.cg))
  }

  /** Every cached identity is what the current tables say. */
  ghost predicate Coherent(s: State, lookup: (Tables, nat) -> Identity) {
    forall cg | cg in s.cache :: s.cache[cg] == lookup(s.tables, cg)
  }

  class GoMapper {
    const pats: Patterns
    const refresh: real
    var inoToPath: map<nat, string>
    var uidToPod: map<string, (string, string)>
    var cidToName: map<string, string>
    var cache: map<nat, Identity>
    var lastScan: real

    constructor (pats: Patterns, never: real)
      ensures this.pats == pats && refresh == 30.0
      ensures Value() == State(Tables(map[], Pods(map[], map[])), map[], never)
      ensures Coherent(Value(), Lookup())
    {
      this.pats, refresh := pats, 30.0;
      inoToPath, uidToPod, cidToName, cache, lastScan := map[], map[], map[], map[], never;
    }

    ghost function Value(): State
      reads this
    {
      State(Tables(inoToPath, Pods(uidToPod, cidToName)), cache, lastScan)
    }

    function Lookup(): (Tables, nat) -> Identity {
      (t: Tables, cg: nat) => GoLookup(t, pats, cg)
    }

    method MaybeRefresh(r: Request)
      modifies this
      ensures Value() == Refreshed(old(Value()), r, refresh)
      ensures IsRefresh(old(Value()), r, refresh, r.after, Value())
    {
      if r.now - lastScan < refresh && |inoToPath| > 0 {
        return;
      }
      inoToPath := r.scan;
      if r.listing.Some? {
        uidToPod, cidToName := r.listing.value.uidToPod, r.listing.value.cidToName;
      }
      cache := map[];
      lastScan := r.after;
    }

    method Resolve(r: Request) returns (id: Identity)
      requires Coherent(Value(), Lookup())
      modifies this
      ensures (Value(), id) == CachedStep(old(Value()), r, Lookup(), refresh)
      ensures Coherent(Value(), Lookup())
      ensures id == GoLookup(Value().tables, pats, r.cg)
      ensures Answers(Value().tables, pats, r.cg, id)
    {
      MaybeRefresh(r);
      LookupsAnswer(Value().tables, pats, r.cg);
      if r.cg in cache {
        return cache[r.cg];
      }
      if r.cg !in inoToPath {
        id := UNKNOWN;
      } else {
        var path := inoToPath[r.cg];
        var pm := pats.pod(path);
        if pm.None? {
          id := Identity("node", "system", GoBase(path));
        } else {
          var uid := NormalizeUID(pm.value);
          var cid := pats.container(path).GetOr("");
          var ns, pod := "unknown", "pod-" + Truncate(uid, 8);
          if uid in uidToPod {
            ns, pod := uidToPod[uid].0, uidToPod[uid].1;
          }
          var cname := "unknown";
          if cid != "" {
            var key := Truncate(cid, 64);
            cname := if key in cidToName then cidToName[key] else Truncate(cid, 12);
          }
          id := Identity(ns, pod, cname);
        }
      }
      cache := cache[r.cg := id];
    }
  }

  class PyMapper {
    const pats: Patterns
    const refresh: real
    var inoToPath: map<nat, string>
    var uidToPod: map<string, (string, string)>
    var cidToName: map<string, string>
    var cache: map<nat, Identity>
    var lastScan: real

    constructor (pats: Patterns, refresh: real)
      ensures this.pats == pats && this.refresh == refresh
      ensures Value() == State(Tables(map[], Pods(map[], map[])), map[], 0.0)
      ensures Coherent(Value(), Lookup())
    {
      this.pats, this.refresh := pats, refresh;
      inoToPath, uidToPod, cidToName, cache, lastScan := map[], map[], map[], map[], 0.0;
    }

    ghost function Value(): State
      reads this
    {
      State(Tables(inoToPath, Pods(uidToPod, cidToName)), cache, lastScan)
    }

    function Lookup(): (Tables, nat) -> Identity {
      (t: Tables, cg: nat) => PyLookup(t, pats, cg)
    }

    /** The clock is read once, so the scan is stamped with the time the refresh was decided. */
    method MaybeRefresh(r: Request)
      modifies this
      ensures Value() == Refreshed(old(Value()), r.(after := r.now), refresh)
      ensures IsRefresh(old(Value()), r, refresh, r.now, Value())
    {
      if r.now - lastScan >= refresh || |inoToPath| == 0 {
        inoToPath := r.scan;
        if r.listing.Some? {
          uidToPod, cidToName := r.listing.value.uidToPod, r.listing.value.cidToName;
        }
        cache := map[];
        lastScan := r.now;
      }
    }

    method Resolve(r: Request) returns (id: Identity)
      requires Coherent(Value(), Lookup())
      modifies this
      ensures (Value(), id) == CachedStep(old(Value()), r.(after := r.now), Lookup(), refresh)
      ensures Coherent(Value(), Lookup())
      ensures id == PyLookup(Value().tables, pats, r.cg)
      ensures Answers(Value().tables, pats, r.cg, id)
    {
      MaybeRefresh(r);
      LookupsAnswer(Value().tables, pats, r.cg);
      if r.cg in cache {
        return cache[r.cg];
      }
      var path := if r.cg in inoToPath then inoToPath[r.cg] else "";
      if path == "" {
        id := UNKNOWN;
      } else {
        var pm := pats.pod(path);
        if pm.None? {
          id := Identity("node", "system", PyBase(path));
        } else {
          var uid := NormalizeUID(pm.value);
          var cid := pats.container(path).GetOr("");
          var (ns, pod) := if uid in uidToPod then uidToPod[uid] else ("unknown", "pod-" + Truncate(uid, 8));
          var key := Truncate(cid, 64);
          var cname := if key in cidToName then cidToName[key] else if cid != "" then Truncate(cid, 12) else "unknown";
          id := Identity(ns, pod, cname);
        }
      }
      cache := cache[r.cg := id];
    }
  }

  // ------------------------------------------------------------- theorems

  function CachedRun(s: State, rs: seq<Request>, lookup: (Tables, nat) -> Identity, refresh: real)
    : (seq<Identity>, State)
  {
    if rs == [] then ([], s)
    else
      var (ids, s1) := CachedRun(s, rs[..|rs| - 1], lookup, refresh);
      var (s2, id) := CachedStep(s1, rs[|rs| - 1], lookup, refresh);
      (ids + [id], s2)
  }

  function PlainRun(s: State, rs: seq<Request>, lookup: (Tables, nat) -> Identity, refresh: real)
    : (seq<Identity>, State)
  {
    if rs == [] then ([], s)
    else
      var (ids, s1) := PlainRun(s, rs[..|rs| - 1], lookup, refresh);
      var (s2, id) := PlainStep(s1, rs[|rs| - 1], lookup, refresh);
      (ids + [id], s2)
  }

  /** The cache is invisible: over any run, every answer is the one the uncached resolver would have given. */
  lemma {:induction false} CacheInvisible(s: State, rs: seq<Request>, lookup: (Tables, nat) -> Identity, refresh: real)
    requires Coherent(s, lookup)
    ensures CachedRun(s, rs, lookup, refresh).0 == PlainRun(s, rs, lookup, refresh).0
    ensures Coherent(CachedRun(s, rs, lookup, refresh).1, lookup)
    ensures CachedRun(s, rs, lookup, refresh).1.tables == PlainRun(s, rs, lookup, refresh).1.tables
    ensures CachedRun(s, rs, lookup, refresh).1.lastScan == PlainRun(s, rs, lookup, refresh).1.lastScan
  {
    if rs != [] {
      CacheInvisible(s, rs[..|rs| - 1], lookup, refresh);
    }
  }

  /** Tables on which the two resolvers never part. */
  ghost predicate Agreeable(t: Tables, pats: Patterns) {
    && (forall cg | cg in t.inoToPath :: t.inoToPath[cg] != "")
    && (forall cg | cg in t.inoToPath && pats.pod(t.inoToPath[cg]).None? ::
          t.inoToPath[cg][|t.inoToPath[cg]| - 1] != '/')
    && "" !in t.pods.cidToName
  }

  lemma AgreeableAgrees(t: Tables, pats: Patterns, cg: nat)
    requires Agreeable(t, pats)
    ensures GoLookup(t, pats, cg) == PyLookup(t, pats, cg)
  {
    ResolversAgree(t, pats, cg);
    if cg in t.inoToPath {
      BasesAgree(t.inoToPath[cg]);
    }
  }
}
