/**
 The Go and the Python mapper side by side, over whole runs: the same lookups,
 the same refresh period, and stamps that differ by what a refresh takes.
 */
module TwinMappers {
  import opened Mapper
  import opened Wrappers

  const NO_TABLES := Tables(map[], Pods(map[], map[]))

  /** A request whose clock does not run backwards and whose tables keep the two lookups together. */
  ghost predicate Admissible(r: Request, pats: Patterns) {
    && r.now <= r.after
    && Agreeable(Tables(r.scan, Pods(map[], map[])), pats)
    && (r.listing.Some? ==> "" !in r.listing.value.cidToName)
  }

  ghost predicate AllAdmissible(rs: seq<Request>, pats: Patterns) {
    forall i | 0 <= i < |rs| :: Admissible(rs[i], pats)
  }

  /** Python stamps a refresh with the time it was decided, Go with the time it ended. */
  function Stamped(rs: seq<Request>): (r: seq<Request>)
    ensures |r| == |rs| && forall i | 0 <= i < |rs| :: r[i] == rs[i].(after := rs[i].now)
  {
    seq(|rs|, i requires 0 <= i < |rs| => rs[i].(after := rs[i].now))
  }

  function GoAnswers(rs: seq<Request>, pats: Patterns, refresh: real, never: real): seq<Identity> {
    CachedRun(State(NO_TABLES, map[], never), rs, (t: Tables, cg: nat) => GoLookup(t, pats, cg), refresh).0
  }

  function PyAnswers(rs: seq<Request>, pats: Patterns, refresh: real): seq<Identity> {
    CachedRun(State(NO_TABLES, map[], 0.0), Stamped(rs), (t: Tables, cg: nat) => PyLookup(t, pats, cg), refresh).0
  }

  /** The tables and stamps after a run, with no cache. */
  function Refreshes(s: State, rs: seq<Request>, refresh: real): State {
    if rs == [] then s else Refreshed(Refreshes(s, rs[..|rs| - 1], refresh), rs[|rs| - 1], refresh)
  }

  function GoAfter(rs: seq<Request>, refresh: real, never: real): State {
    Refreshes(State(NO_TABLES, map[], never), rs, refresh)
  }

  function PyAfter(rs: seq<Request>, refresh: real): State {
    Refreshes(State(NO_TABLES, map[], 0.0), Stamped(rs), refresh)
  }

  /** The moment falls between the two mappers' next refreshes. */
  predicate InGap(g: State, p: State, now: real, refresh: real) {
    g.tables.inoToPath != map[] && p.lastScan + refresh <= now < g.lastScan + refresh
  }

  /** No request comes when Python's tables have expired and Go's have not. */
  predicate InStep(rs: seq<Request>, refresh: real, never: real) {
    rs == [] ||
    var front, r := rs[..|rs| - 1], rs[|rs| - 1];
    InStep(front, refresh, never) && !InGap(GoAfter(front, refresh, never), PyAfter(front, refresh), r.now, refresh)
  }

  /** Both mappers were last refreshed by request `i`. */
  predicate LastRefresh(rs: seq<Request>, g: State, p: State, i: nat, refresh: real) {
    && i < |rs| && g.lastScan == rs[i].after && p.lastScan == rs[i].now
    && forall k | i < k < |rs| :: rs[k].now < rs[i].now + refresh
  }

  /** While in step both hold the same tables, and, unless these are empty, the stamps of one and the same refresh. */
  ghost predicate Together(rs: seq<Request>, g: State, p: State, refresh: real) {
    && g.tables == p.tables && g.cache == p.cache == map[]
    && (g.tables.inoToPath != map[] ==> exists i: nat :: LastRefresh(rs, g, p, i, refresh))
  }

  lemma TogetherStep(rs: seq<Request>, r: Request, g: State, p: State, refresh: real)
    requires Together(rs, g, p, refresh) && !InGap(g, p, r.now, refresh)
    requires r.now <= r.after && forall i | 0 <= i < |rs| :: rs[i].now <= rs[i].after
    ensures Together(rs + [r], Refreshed(g, r, refresh), Refreshed(p, r.(after := r.now), refresh), refresh)
  {
    var g', p' := Refreshed(g, r, refresh), Refreshed(p, r.(after := r.now), refresh);
    if Fresh(g, r.now, refresh) {
      var i: nat :| LastRefresh(rs, g, p, i, refresh);
      assert LastRefresh(rs + [r], g', p', i, refresh);
    } else {
      if g.tables.inoToPath != map[] {
        var i: nat :| LastRefresh(rs, g, p, i, refresh);
        assert rs[i].now <= rs[i].after;
      }
      assert LastRefresh(rs + [r], g', p', |rs|, refresh);
    }
  }

  lemma {:induction false} StayTogether(rs: seq<Request>, refresh: real, never: real)
    requires InStep(rs, refresh, never) && forall i | 0 <= i < |rs| :: rs[i].now <= rs[i].after
    ensures Together(rs, GoAfter(rs, refresh, never), PyAfter(rs, refresh), refresh)
  {
    if rs != [] {
      var front, r := rs[..|rs| - 1], rs[|rs| - 1];
      StayTogether(front, refresh, never);
      TogetherStep(front, r, GoAfter(front, refresh, never), PyAfter(front, refresh), refresh);
      assert front + [r] == rs;
      assert Stamped(rs)[..|rs| - 1] == Stamped(front);
    }
  }

  /** The last answer of a run is the uncached one on the tables of that moment. */
  lemma LastAnswer(s: State, rs: seq<Request>, r: Request, lookup: (Tables, nat) -> Identity, refresh: real)
    requires s.cache == map[]
    ensures CachedRun(s, rs + [r], lookup, refresh).0 ==
            CachedRun(s, rs, lookup, refresh).0
            + [lookup(Refreshed(Refreshes(s, rs, refresh), r, refresh).tables, r.cg)]
  {
    var all := rs + [r];
    assert all[..|rs|] == rs;
    CacheInvisible(s, rs, lookup, refresh);
    CacheInvisible(s, all, lookup, refresh);
    PlainIsRefreshes(s, rs, lookup, refresh);
  }

  lemma {:induction false} PlainIsRefreshes(s: State, rs: seq<Request>, lookup: (Tables, nat) -> Identity,
                                            refresh: real)
    requires s.cache == map[]
    ensures PlainRun(s, rs, lookup, refresh).1 == Refreshes(s, rs, refresh)
  {
    if rs != [] {
      PlainIsRefreshes(s, rs[..|rs| - 1], lookup, refresh);
    }
  }

  lemma GoStep(rs: seq<Request>, r: Request, pats: Patterns, refresh: real, never: real)
    ensures GoAnswers(rs + [r], pats, refresh, never) ==
            GoAnswers(rs, pats, refresh, never)
            + [GoLookup(Refreshed(GoAfter(rs, refresh, never), r, refresh).tables, pats, r.cg)]
  {
    LastAnswer(State(NO_TABLES, map[], never), rs, r, (t: Tables, cg: nat) => GoLookup(t, pats, cg), refresh);
  }

  lemma PyStep(rs: seq<Request>, r: Request, pats: Patterns, refresh: real)
    ensures PyAnswers(rs + [r], pats, refresh) ==
            PyAnswers(rs, pats, refresh)
            + [PyLookup(Refreshed(PyAfter(rs, refresh), r.(after := r.now), refresh).tables, pats, r.cg)]
  {
    assert Stamped(rs + [r]) == Stamped(rs) + [r.(after := r.now)];
    LastAnswer(State(NO_TABLES, map[], 0.0), Stamped(rs), r.(after := r.now),
               (t: Tables, cg: nat) => PyLookup(t, pats, cg), refresh);
  }

  lemma {:induction false} AgreeableAfter(rs: seq<Request>, pats: Patterns, refresh: real, never: real)
    requires AllAdmissible(rs, pats)
    ensures Agreeable(GoAfter(rs, refresh, never).tables, pats)
  {
    if rs != [] {
      AgreeableAfter(rs[..|rs| - 1], pats, refresh, never);
      assert Admissible(rs[|rs| - 1], pats);
    }
  }

  lemma RefreshedAgreeable(s: State, r: Request, pats: Patterns, refresh: real)
    requires Agreeable(s.tables, pats) && Admissible(r, pats)
    ensures Agreeable(Refreshed(s, r, refresh).tables, pats)
  {
  }

  /** As long as they stay in step, the two mappers give the same answers. */
  lemma {:induction false} MappersAgree(rs: seq<Request>, pats: Patterns, refresh: real, never: real)
    requires AllAdmissible(rs, pats) && InStep(rs, refresh, never)
    ensures GoAnswers(rs, pats, refresh, never) == PyAnswers(rs, pats, refresh)
  {
    if rs == [] {
      assert Stamped(rs) == [];
    } else {
      var front, r := rs[..|rs| - 1], rs[|rs| - 1];
      MappersAgree(front, pats, refresh, never);
      assert front + [r] == rs;
      GoStep(front, r, pats, refresh, never);
      PyStep(front, r, pats, refresh);
      StayTogether(front, refresh, never);
      var g, p := GoAfter(front, refresh, never), PyAfter(front, refresh);
      TogetherStep(front, r, g, p, refresh);
      AgreeableAfter(front, pats, refresh, never);
      RefreshedAgreeable(g, r, pats, refresh);
      AgreeableAgrees(Refreshed(g, r, refresh).tables, pats, r.cg);
    }
  }

  // ------------------------------------------------------------- out of step

  lemma {:induction false} Above(ks: set<nat>) returns (n: nat)
    ensures forall k | k in ks :: k < n
    decreases |ks|
  {
    if ks == {} {
      n := 0;
    } else {
      var k :| k in ks;
      var m := Above(ks - {k});
      n := if m <= k then k + 1 else m;
      assert forall x | x in ks :: x == k || x in ks - {k};
    }
  }

  /** A scan and a listing that resolve `cg`. */
  function Telling(cg: nat, now: real, after: real, pats: Patterns): Request {
    var pods := match pats.pod("/a")
                case None => Pods(map[], map[])
                case Some(raw) => Pods(map[NormalizeUID(raw) := ("n", "p")], map[]);
    Request(cg, now, after, map[cg := "/a"], Some(pods))
  }

  lemma TellingAdmissible(cg: nat, now: real, after: real, pats: Patterns)
    requires now <= after
    ensures Admissible(Telling(cg, now, after, pats), pats)
  {
  }

  lemma TellingResolves(cg: nat, now: real, after: real, pats: Patterns, s: State, refresh: real)
    requires now <= after && !Fresh(s, now, refresh)
    ensures Admissible(Telling(cg, now, after, pats), pats)
    ensures var r := Telling(cg, now, after, pats);
            PyLookup(Refreshed(s, r.(after := r.now), refresh).tables, pats, cg) != UNKNOWN
  {
    assert "p" != "unknown" && "node" != "unknown";
  }

  /** Out of step, some scan tells the two mappers apart. */
  lemma Separated(rs: seq<Request>, pats: Patterns, now: real, after: real, refresh: real, never: real)
    returns (r: Request)
    requires AllAdmissible(rs, pats) && InStep(rs, refresh, never) && now <= after
    requires InGap(GoAfter(rs, refresh, never), PyAfter(rs, refresh), now, refresh)
    ensures Admissible(r, pats) && r.now == now && r.after == after
    ensures GoAnswers(rs + [r], pats, refresh, never) != PyAnswers(rs + [r], pats, refresh)
  {
    var g, p := GoAfter(rs, refresh, never), PyAfter(rs, refresh);
    var cg := Above(g.tables.inoToPath.Keys);
    r := Telling(cg, now, after, pats);
    StayTogether(rs, refresh, never);
    TellingResolves(cg, now, after, pats, p, refresh);
    GoStep(rs, r, pats, refresh, never);
    PyStep(rs, r, pats, refresh);
    assert cg !in g.tables.inoToPath;
    assert GoLookup(Refreshed(g, r, refresh).tables, pats, cg) == UNKNOWN;
    MappersAgree(rs, pats, refresh, never);
    var goLast, pyLast := UNKNOWN, PyLookup(Refreshed(p, r.(after := r.now), refresh).tables, pats, cg);
    LastDiffers(GoAnswers(rs, pats, refresh, never), goLast, pyLast);
  }

  lemma LastDiffers(ids: seq<Identity>, x: Identity, y: Identity)
    requires x != y
    ensures ids + [x] != ids + [y]
  {
    assert (ids + [x])[|ids|] != (ids + [y])[|ids|];
  }

  // -------------------------------------------------------------- exactly when

  function Clocks(rs: seq<Request>): (c: seq<(real, real)>)
    ensures |c| == |rs| && forall i | 0 <= i < |rs| :: c[i] == (rs[i].now, rs[i].after)
  {
    seq(|rs|, i requires 0 <= i < |rs| => (rs[i].now, rs[i].after))
  }

  /** A run at the given times. */
  ghost predicate RunAt(rs: seq<Request>, times: seq<(real, real)>, pats: Patterns) {
    Clocks(rs) == times && AllAdmissible(rs, pats)
  }

  lemma {:induction false} FirstGap(rs: seq<Request>, refresh: real, never: real) returns (n: nat)
    requires !InStep(rs, refresh, never)
    ensures n < |rs| && InStep(rs[..n], refresh, never)
    ensures InGap(GoAfter(rs[..n], refresh, never), PyAfter(rs[..n], refresh), rs[n].now, refresh)
  {
    n := |rs| - 1;
    if !InStep(rs[..n], refresh, never) {
      var front := rs[..n];
      n := FirstGap(front, refresh, never);
      assert front[..n] == rs[..n];
    }
  }

  lemma {:induction false} AnswersTake(s: State, rs: seq<Request>, lookup: (Tables, nat) -> Identity, refresh: real,
                                       n: nat)
    requires n <= |rs|
    ensures |CachedRun(s, rs, lookup, refresh).0| == |rs|
    ensures CachedRun(s, rs, lookup, refresh).0[..n] == CachedRun(s, rs[..n], lookup, refresh).0
  {
    if rs != [] {
      AnswersTake(s, rs[..|rs| - 1], lookup, refresh, if n < |rs| then n else |rs| - 1);
      if n < |rs| {
        assert rs[..|rs| - 1][..n] == rs[..n];
      } else {
        assert rs[..n] == rs;
      }
    }
  }

  lemma GoTake(rs: seq<Request>, pats: Patterns, refresh: real, never: real, n: nat)
    requires n <= |rs|
    ensures |GoAnswers(rs, pats, refresh, never)| == |rs|
    ensures GoAnswers(rs, pats, refresh, never)[..n] == GoAnswers(rs[..n], pats, refresh, never)
  {
    AnswersTake(State(NO_TABLES, map[], never), rs, (t: Tables, cg: nat) => GoLookup(t, pats, cg), refresh, n);
  }

  lemma PyTake(rs: seq<Request>, pats: Patterns, refresh: real, n: nat)
    requires n <= |rs|
    ensures |PyAnswers(rs, pats, refresh)| == |rs|
    ensures PyAnswers(rs, pats, refresh)[..n] == PyAnswers(rs[..n], pats, refresh)
  {
    AnswersTake(State(NO_TABLES, map[], 0.0), Stamped(rs), (t: Tables, cg: nat) => PyLookup(t, pats, cg), refresh, n);
    assert Stamped(rs)[..n] == Stamped(rs[..n]);
  }

  /** A run that falls out of step has a twin at the same times on which the mappers part. */
  lemma TwinParts(rs: seq<Request>, times: seq<(real, real)>, pats: Patterns, refresh: real, never: real)
    returns (other: seq<Request>)
    requires RunAt(rs, times, pats) && !InStep(rs, refresh, never)
    ensures RunAt(other, times, pats) && GoAnswers(other, pats, refresh, never) != PyAnswers(other, pats, refresh)
  {
    var n := FirstGap(rs, refresh, never);
    var front := rs[..n];
    assert Admissible(rs[n], pats);
    var r := Separated(front, pats, rs[n].now, rs[n].after, refresh, never);
    other := front + [r] + rs[n + 1..];
    assert other[..n + 1] == front + [r];
    GoTake(other, pats, refresh, never, n + 1);
    PyTake(other, pats, refresh, n + 1);
    forall i | 0 <= i < |other| ensures Admissible(other[i], pats) && Clocks(other)[i] == times[i] {
      assert i != n ==> other[i] == rs[i];
      assert Admissible(rs[i], pats) && Clocks(rs)[i] == times[i];
    }
    assert Clocks(other) == times;
  }

  /** Request `j` comes when the tables that request `i` may have fetched have expired for Python and not for Go, and
      none between them refetches. */
  predicate Straddles(times: seq<(real, real)>, i: nat, j: nat, refresh: real) {
    && i < j < |times| && times[i].0 + refresh <= times[j].0 < times[i].1 + refresh
    && forall k | i < k < j :: times[k].0 < times[i].0 + refresh
  }

  /** A run that falls out of step does so at such times. */
  lemma GapStraddles(rs: seq<Request>, refresh: real, never: real) returns (i: nat, j: nat)
    requires !InStep(rs, refresh, never) && forall n | 0 <= n < |rs| :: rs[n].now <= rs[n].after
    ensures Straddles(Clocks(rs), i, j, refresh)
  {
    j := FirstGap(rs, refresh, never);
    var g, p := GoAfter(rs[..j], refresh, never), PyAfter(rs[..j], refresh);
    StayTogether(rs[..j], refresh, never);
    i :| LastRefresh(rs[..j], g, p, i, refresh);
    forall k | i < k < j ensures Clocks(rs)[k].0 < Clocks(rs)[i].0 + refresh {
      assert rs[..j][k] == rs[k] && rs[..j][i] == rs[i];
    }
  }

  /** A run at the given times whose scans find nothing before request `i`, and a path from then on. */
  function FromOn(times: seq<(real, real)>, i: nat, pats: Patterns): (rs: seq<Request>)
    ensures |rs| == |times|
  {
    seq(|times|, n requires 0 <= n < |times| =>
      if n < i then Request(0, times[n].0, times[n].1, map[], None) else Telling(0, times[n].0, times[n].1, pats))
  }

  lemma FromOnRuns(times: seq<(real, real)>, i: nat, pats: Patterns)
    requires forall n | 0 <= n < |times| :: times[n].0 <= times[n].1
    ensures RunAt(FromOn(times, i, pats), times, pats)
  {
    var rs := FromOn(times, i, pats);
    forall n | 0 <= n < |rs| ensures Admissible(rs[n], pats) && Clocks(rs)[n] == times[n] {
      TellingAdmissible(0, times[n].0, times[n].1, pats);
    }
    assert Clocks(rs) == times;
  }

  /** One request more. */
  lemma AfterNext(rs: seq<Request>, n: nat, refresh: real, never: real)
    requires n < |rs|
    ensures GoAfter(rs[..n + 1], refresh, never) == Refreshed(GoAfter(rs[..n], refresh, never), rs[n], refresh)
    ensures PyAfter(rs[..n + 1], refresh) == Refreshed(PyAfter(rs[..n], refresh), rs[n].(after := rs[n].now), refresh)
    ensures InStep(rs[..n + 1], refresh, never) <==>
            InStep(rs[..n], refresh, never) &&
            !InGap(GoAfter(rs[..n], refresh, never), PyAfter(rs[..n], refresh), rs[n].now, refresh)
  {
    assert rs[..n + 1][..n] == rs[..n];
    assert Stamped(rs[..n + 1])[..n] == Stamped(rs[..n]);
  }

  lemma {:induction false} NothingFound(rs: seq<Request>, n: nat, refresh: real, never: real)
    requires n <= |rs| && forall k | 0 <= k < n :: rs[k].scan == map[]
    ensures GoAfter(rs[..n], refresh, never).tables.inoToPath == map[] == PyAfter(rs[..n], refresh).tables.inoToPath
    ensures InStep(rs[..n], refresh, never)
  {
    if n == 0 {
      assert Stamped(rs[..0]) == [];
    } else {
      NothingFound(rs, n - 1, refresh, never);
      AfterNext(rs, n - 1, refresh, never);
    }
  }

  /** From request `i` on, both mappers hold what it fetched until Python's tables expire. */
  lemma {:induction false} HeldFrom(rs: seq<Request>, i: nat, n: nat, refresh: real, never: real)
    requires i < n <= |rs| && rs[i].now <= rs[i].after
    requires forall k | 0 <= k < i :: rs[k].scan == map[]
    requires rs[i].scan != map[] && forall k | i < k < n :: rs[k].now < rs[i].now + refresh
    ensures GoAfter(rs[..n], refresh, never).lastScan == rs[i].after
    ensures PyAfter(rs[..n], refresh).lastScan == rs[i].now
    ensures GoAfter(rs[..n], refresh, never).tables.inoToPath == rs[i].scan
    ensures PyAfter(rs[..n], refresh).tables.inoToPath == rs[i].scan
    ensures InStep(rs[..n], refresh, never)
  {
    if n == i + 1 {
      NothingFound(rs, i, refresh, never);
    } else {
      HeldFrom(rs, i, n - 1, refresh, never);
    }
    AfterNext(rs, n - 1, refresh, never);
  }

  lemma {:induction false} InStepPrefix(rs: seq<Request>, n: nat, refresh: real, never: real)
    requires n <= |rs| && InStep(rs, refresh, never)
    ensures InStep(rs[..n], refresh, never)
  {
    if n < |rs| {
      InStepPrefix(rs[..|rs| - 1], n, refresh, never);
      assert rs[..|rs| - 1][..n] == rs[..n];
    } else {
      assert rs[..n] == rs;
    }
  }

  /** At such times some run falls out of step. */
  lemma StraddlesParts(times: seq<(real, real)>, i: nat, j: nat, pats: Patterns, refresh: real, never: real)
    requires Straddles(times, i, j, refresh) && times[i].0 <= times[i].1
    ensures !InStep(FromOn(times, i, pats), refresh, never)
  {
    var rs := FromOn(times, i, pats);
    assert 0 in rs[i].scan;
    HeldFrom(rs, i, j, refresh, never);
    AfterNext(rs, j, refresh, never);
    if InStep(rs, refresh, never) {
      InStepPrefix(rs, j + 1, refresh, never);
    }
  }

  /** For given times of the requests and of the refreshes they may cause: the two mappers answer alike, whatever the
      scans and listings hold, if and only if no two requests stand as `Straddles` says. */
  lemma MappersAgreeIff(times: seq<(real, real)>, pats: Patterns, refresh: real, never: real)
    requires forall n | 0 <= n < |times| :: times[n].0 <= times[n].1
    ensures (forall rs :: RunAt(rs, times, pats) ==>
                            GoAnswers(rs, pats, refresh, never) == PyAnswers(rs, pats, refresh))
       <==> !exists i: nat, j: nat :: Straddles(times, i, j, refresh)
  {
    if i: nat, j: nat :| Straddles(times, i, j, refresh) {
      FromOnRuns(times, i, pats);
      StraddlesParts(times, i, j, pats, refresh, never);
      var other := TwinParts(FromOn(times, i, pats), times, pats, refresh, never);
    } else {
      forall rs | RunAt(rs, times, pats) ensures GoAnswers(rs, pats, refresh, never) == PyAnswers(rs, pats, refresh) {
        assert forall n | 0 <= n < |rs| :: Admissible(rs[n], pats);
        if !InStep(rs, refresh, never) {
          var i, j := GapStraddles(rs, refresh, never);
        }
        MappersAgree(rs, pats, refresh, never);
      }
    }
  }

  /** A refresh that takes five seconds, and a request one second after Python's tables have expired. */
  function LateRequest(): seq<Request> {
    [Request(1, 100.0, 105.0, map[1 := "/a"], None), Request(1, 131.0, 131.0, map[1 := "/b"], None)]
  }

  lemma StampsMatter(pats: Patterns, never: real)
    requires pats.pod("/a").None? && pats.pod("/b").None?
    ensures AllAdmissible(LateRequest(), pats)
    ensures GoAnswers(LateRequest(), pats, 30.0, never)[1..] == [Identity("node", "system", "a")]
    ensures PyAnswers(LateRequest(), pats, 30.0)[1..] == [Identity("node", "system", "b")]
  {
    var rs := LateRequest();
    var front, r := [rs[0]], rs[1];
    assert rs == front + [r];
    GoStep(front, r, pats, 30.0, never);
    PyStep(front, r, pats, 30.0);
    GoTake(front, pats, 30.0, never, 0);
    PyTake(front, pats, 30.0, 0);
    AfterFirst(front, never);
    SecondLookups(pats, State(Tables(map[1 := "/a"], Pods(map[], map[])), map[], 105.0),
                  State(Tables(map[1 := "/a"], Pods(map[], map[])), map[], 100.0), r);
  }

  lemma AfterFirst(front: seq<Request>, never: real)
    requires front == [LateRequest()[0]]
    ensures GoAfter(front, 30.0, never) == State(Tables(map[1 := "/a"], Pods(map[], map[])), map[], 105.0)
    ensures PyAfter(front, 30.0) == State(Tables(map[1 := "/a"], Pods(map[], map[])), map[], 100.0)
  {
    OneRefresh(State(NO_TABLES, map[], never), front, 30.0);
    OneRefresh(State(NO_TABLES, map[], 0.0), Stamped(front), 30.0);
  }

  lemma OneRefresh(s: State, rs: seq<Request>, refresh: real)
    requires |rs| == 1 && s.tables.inoToPath == map[]
    ensures Refreshes(s, rs, refresh) ==
            State(Tables(rs[0].scan, rs[0].listing.GetOr(s.tables.pods)), map[], rs[0].after)
  {
    assert rs[..|rs| - 1] == [];
    assert Refreshes(s, [], refresh) == s;
  }

  lemma SecondLookups(pats: Patterns, g: State, p: State, r: Request)
    requires pats.pod("/a").None? && pats.pod("/b").None? && r == LateRequest()[1]
    requires g == State(Tables(map[1 := "/a"], Pods(map[], map[])), map[], 105.0)
    requires p == State(Tables(map[1 := "/a"], Pods(map[], map[])), map[], 100.0)
    ensures GoLookup(Refreshed(g, r, 30.0).tables, pats, 1) == Identity("node", "system", "a")
    ensures PyLookup(Refreshed(p, r.(after := r.now), 30.0).tables, pats, 1) == Identity("node", "system", "b")
  {
    Bases();
    assert 1 in g.tables.inoToPath;
    assert Fresh(g, 131.0, 30.0) && !Fresh(p, 131.0, 30.0);
  }

  lemma Bases()
    ensures GoBase("/a") == "a" && PyBase("/b") == "b"
  {
    assert "/a"[..1] == "/" && "/b"[..1] == "/";
  }
}
