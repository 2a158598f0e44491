/**
 The window's feature rows: `drain` in collector-go/main.go, over the maps of
 the kernel side.
 */
module Features {
  import opened CounterMap
  import opened DiskWindows
  import opened Drains
  import opened Kernel
  import opened Wrappers

  /** Per cgroup, the features it has; a feature is named by the map that feeds it. */
  type Rows = map<nat, map<Sig, real>>

  const RATES: seq<Sig> := [CRead, CWrite, COpen, CTcpConn, CTcpRetx]
  const SUMS: seq<Sig> := [CNetRx, CNetTx, CDiskR, CDiskW, CExec, CFork, CCtxSw]

  /** The signals exported per second. */
  predicate IsRate(s: Sig) {
    s.CRead? || s.CWrite? || s.COpen? || s.CTcpConn? || s.CTcpRetx?
  }

  function Lookup(rows: Rows, cg: nat, s: Sig): Option<real> {
    if cg in rows && s in rows[cg] then Some(rows[cg][s]) else None
  }

  /** What a window of `window` seconds should say of one cgroup and feature, given the maps it drained. */
  function Feature(maps: map<Sig, Table>, s: Sig, cg: nat, window: real): Option<real>
    requires window > 0.0
  {
    if s == CDiskIo || cg !in Of(maps, s) then None
    else
      var v := Of(maps, s)[cg];
      if IsRate(s) then Some(v as real / window)
      else if s == CDiskLat then Some(LatencyMs(v, At(Of(maps, CDiskIo), cg)))
      else if s == CCpu then Some(v as real / (window * 1000000000.0))
      else Some(v as real)
  }

  /** The counter a feature came from can be had back: by the unit it was divided by, or, for the latency, by the
      count, as long as there was one. */
  lemma FeatureRecovers(maps: map<Sig, Table>, s: Sig, cg: nat, window: real)
    requires window > 0.0 && s != CDiskIo && cg in Of(maps, s)
    ensures Feature(maps, s, cg, window).Some?
    ensures var v, n, io := Feature(maps, s, cg, window).value, Of(maps, s)[cg], At(Of(maps, CDiskIo), cg);
            && (s in {CRead, CWrite, COpen, CTcpConn, CTcpRetx} ==> v * window == n as real)
            && (s == CCpu ==> v * (window * 1000000000.0) == n as real)
            && (s == CDiskLat ==> (v * io as real * 1000000.0 == n as real <==> io > 0 || n == 0))
            && (s in {CNetRx, CNetTx, CDiskR, CDiskW, CExec, CFork, CCtxSw} ==> v == n as real)
  {
    if s == CDiskLat {
      MeanExact(Of(maps, s)[cg], At(Of(maps, CDiskIo), cg));
    }
  }

  function Scaled(t: Table, d: real): map<nat, real>
    requires d > 0.0
  {
    map cg | cg in t :: t[cg] as real / d
  }

  /** No cgroup is listed without a feature. */
  predicate NoEmptyRow(rows: Rows) {
    forall cg | cg in rows :: rows[cg] != map[]
  }

  /** `get(cg)[feature] = value`. */
  function Enter(rows: Rows, cg: nat, s: Sig, v: real): Rows {
    var row: map<Sig, real> := if cg in rows then rows[cg] else map[];
    rows[cg := row[s := v]]
  }

  lemma EnterLooksUp(rows: Rows, cg: nat, s: Sig, v: real)
    ensures NoEmptyRow(rows) ==> NoEmptyRow(Enter(rows, cg, s, v))
    ensures forall cg', s' :: Lookup(Enter(rows, cg, s, v), cg', s') ==
                              if cg' == cg && s' == s then Some(v) else Lookup(rows, cg', s')
  {
    assert s in Enter(rows, cg, s, v)[cg];
  }

  /** The same for every cgroup of a snapshot. */
  method Record(rows: Rows, s: Sig, values: map<nat, real>) returns (out: Rows)
    ensures NoEmptyRow(rows) ==> NoEmptyRow(out)
    ensures forall cg, s' :: Lookup(out, cg, s') ==
                             if s' == s && cg in values then Some(values[cg]) else Lookup(rows, cg, s')
  {
    out := rows;
    var left := values.Keys;
    while left != {}
      invariant left <= values.Keys
      invariant NoEmptyRow(rows) ==> NoEmptyRow(out)
      invariant forall cg, s' :: Lookup(out, cg, s') ==
                                 if s' == s && cg in values && cg !in left then Some(values[cg])
                                 else Lookup(rows, cg, s')
    {
      var cg :| cg in left;
      EnterLooksUp(out, cg, s, values[cg]);
      out, left := Enter(out, cg, s, values[cg]), left - {cg};
    }
  }

  // ----------------------------------------------------------------- passes

  /** What the kernel credits between the steps of a drain of each map. */
  type Arrivals = (Sig, nat) -> seq<Hit>

  ghost predicate NoneArrive(f: Arrivals) {
    forall s, n :: f(s, n) == []
  }

  function For(f: Arrivals, s: Sig): nat -> seq<Hit> {
    (n: nat) => f(s, n)
  }

  /** One more window has been handed over, and it is `res`. */
  ghost predicate Handed(a: seq<Op>, b: seq<Op>, mode: Mode, res: Table) {
    && Legal(a, mode) && Legal(b, mode) && a <= b
    && Exec(b, mode).phase.Idle? && Exec(b, mode).windows == Exec(a, mode).windows + [res]
  }

  /** The maps of `done` have handed over their part of `snaps`; the others have only been credited. */
  ghost predicate Took(from: Log, log: Log, mode: Mode, snaps: map<Sig, Table>, done: set<Sig>) {
    forall s: Sig :: if s in done then Handed(LogOf(from, s), LogOf(log, s), mode, Of(snaps, s))
                     else Undisturbed(LogOf(from, s), LogOf(log, s), mode)
  }

  /** With no arrivals the snapshots are the maps as they were, and what is done is empty. */
  ghost predicate Exactly(was: map<Sig, Table>, now: map<Sig, Table>, snaps: map<Sig, Table>, done: set<Sig>) {
    forall s: Sig :: if s in done then Of(now, s) == map[] && Of(snaps, s) == Of(was, s) else Of(now, s) == Of(was, s)
  }

  /** Exactly the signals of `done` are in the rows. */
  ghost predicate Filed(rows: Rows, snaps: map<Sig, Table>, done: set<Sig>, window: real)
    requires window > 0.0
  {
    && NoEmptyRow(rows)
    && forall cg, s :: Lookup(rows, cg, s) == if s in done then Feature(snaps, s, cg, window) else None
  }

  lemma TookAt(from: Log, log: Log, later: Log, mode: Mode, snaps: map<Sig, Table>, done: set<Sig>, s: Sig, t: Table,
               s': Sig)
    requires Took(from, log, mode, snaps, done) && s !in done
    requires Drained(LogOf(log, s), LogOf(later, s), mode, t) && OthersCredited(log, later, s, mode)
    ensures if s' in done + {s} then Handed(LogOf(from, s'), LogOf(later, s'), mode, Of(snaps[s := t], s'))
            else Undisturbed(LogOf(from, s'), LogOf(later, s'), mode)
  {
    if s' == s {
      HandedAfter(LogOf(from, s), LogOf(log, s), LogOf(later, s), mode, t);
    } else if s' in done {
      HandedThen(LogOf(from, s'), LogOf(log, s'), LogOf(later, s'), mode, Of(snaps, s'));
    } else {
      UndisturbedThen(LogOf(from, s'), LogOf(log, s'), LogOf(later, s'), mode);
    }
  }

  lemma TookOne(from: Log, log: Log, later: Log, mode: Mode, snaps: map<Sig, Table>, done: set<Sig>, s: Sig, t: Table)
    requires Took(from, log, mode, snaps, done) && s !in done
    requires Drained(LogOf(log, s), LogOf(later, s), mode, t) && OthersCredited(log, later, s, mode)
    ensures Took(from, later, mode, snaps[s := t], done + {s})
  {
    forall s': Sig
      ensures if s' in done + {s} then Handed(LogOf(from, s'), LogOf(later, s'), mode, Of(snaps[s := t], s'))
              else Undisturbed(LogOf(from, s'), LogOf(later, s'), mode)
    {
      TookAt(from, log, later, mode, snaps, done, s, t, s');
    }
  }

  lemma HandedAfter(a: seq<Op>, b: seq<Op>, c: seq<Op>, mode: Mode, res: Table)
    requires Undisturbed(a, b, mode) && Drained(b, c, mode, res)
    ensures Handed(a, c, mode, res)
  {
  }

  lemma HandedThen(a: seq<Op>, b: seq<Op>, c: seq<Op>, mode: Mode, res: Table)
    requires Handed(a, b, mode, res) && Undisturbed(b, c, mode)
    ensures Handed(a, c, mode, res)
  {
  }

  /** The values are those of the feature. */
  ghost predicate Files(snaps: map<Sig, Table>, s: Sig, values: map<nat, real>, window: real)
    requires window > 0.0
  {
    forall cg :: Feature(snaps, s, cg, window) == if cg in values then Some(values[cg]) else None
  }

  lemma ScaledFiles(snaps: map<Sig, Table>, s: Sig, divisor: real, window: real)
    requires window > 0.0 && s != CDiskLat && s != CDiskIo
    requires divisor == if IsRate(s) then window else if s == CCpu then window * 1000000000.0 else 1.0
    ensures Files(snaps, s, Scaled(Of(snaps, s), divisor), window)
  {
  }

  function Latencies(lat: Table, cnt: Table): map<nat, real> {
    map cg | cg in lat :: LatencyMs(lat[cg], At(cnt, cg))
  }

  lemma LatenciesFile(snaps: map<Sig, Table>, window: real)
    requires window > 0.0
    ensures Files(snaps, CDiskLat, Latencies(Of(snaps, CDiskLat), Of(snaps, CDiskIo)), window)
    ensures Files(snaps, CDiskIo, map[], window)
  {
  }

  /** A new snapshot does not change the features already filed. */
  lemma FiledMore(rows: Rows, snaps: map<Sig, Table>, done: set<Sig>, window: real, s: Sig, t: Table)
    requires window > 0.0 && Filed(rows, snaps, done, window) && s !in done && (s == CDiskIo ==> CDiskLat !in done)
    ensures Filed(rows, snaps[s := t], done, window)
  {
    forall cg, s' | s' in done ensures Feature(snaps[s := t], s', cg, window) == Feature(snaps, s', cg, window) {
      assert s' != s;
    }
  }

  lemma FiledStep(rows: Rows, snaps: map<Sig, Table>, done: set<Sig>, window: real, s: Sig, values: map<nat, real>,
                  out: Rows)
    requires window > 0.0 && Filed(rows, snaps, done, window) && Files(snaps, s, values, window) && s !in done
    requires NoEmptyRow(out)
    requires forall cg, s' :: Lookup(out, cg, s') ==
                              if s' == s && cg in values then Some(values[cg]) else Lookup(rows, cg, s')
    ensures Filed(out, snaps, done + {s}, window)
  {
  }

  lemma RateAt(i: nat)
    requires i < |RATES|
    ensures IsRate(RATES[i]) && RATES[i] !in RATES[..i] && RATES[..i + 1] == RATES[..i] + [RATES[i]]
  {
  }

  lemma SumAt(i: nat)
    requires i < |SUMS|
    ensures !IsRate(SUMS[i]) && !SUMS[i].CDiskLat? && !SUMS[i].CDiskIo? && !SUMS[i].CCpu?
    ensures SUMS[i] !in SUMS[..i] && SUMS[..i + 1] == SUMS[..i] + [SUMS[i]]
  {
  }

  lemma AllNamed(s: Sig)
    ensures s in RATES <==> IsRate(s)
    ensures s in SUMS <==> !IsRate(s) && !s.CDiskLat? && !s.CDiskIo? && !s.CCpu?
  {
    assert RATES[0] == CRead && RATES[1] == CWrite && RATES[2] == COpen && RATES[3] == CTcpConn && RATES[4] == CTcpRetx;
    assert SUMS[0] == CNetRx && SUMS[1] == CNetTx && SUMS[2] == CDiskR && SUMS[3] == CDiskW && SUMS[4] == CExec;
    assert SUMS[5] == CFork && SUMS[6] == CCtxSw;
  }

  /** The pass so far. */
  ghost predicate Progress(from: Log, log: Log, mode: Mode, was: map<Sig, Table>, now: map<Sig, Table>, quiet: bool,
                           rows: Rows, snaps: map<Sig, Table>, done: set<Sig>, window: real)
    requires window > 0.0
  {
    && Took(from, log, mode, snaps, done) && Filed(rows, snaps, done, window)
    && (quiet ==> Exactly(was, now, snaps, done))
  }

  ghost predicate AllIdle(log: Log, mode: Mode) {
    forall s: Sig :: Legal(LogOf(log, s), mode) && Exec(LogOf(log, s), mode).phase.Idle?
  }

  lemma ExactlyOne(was: map<Sig, Table>, now: map<Sig, Table>, later: map<Sig, Table>, snaps: map<Sig, Table>,
                   done: set<Sig>, s: Sig, t: Table)
    requires Exactly(was, now, snaps, done) && s !in done
    requires t == Of(now, s) && SameTables(later, now[s := map[]])
    ensures Exactly(was, later, snaps[s := t], done + {s})
  {
    forall s': Sig
      ensures if s' in done + {s} then Of(later, s') == map[] && Of(snaps[s := t], s') == Of(was, s')
              else Of(later, s') == Of(was, s')
    {
      assert Of(later, s') == Of(now[s := map[]], s');
    }
  }

  /** One turn of a loop over map names: drain the map, scale what it held, file it under its feature. */
  method Pass(c: Collector, rows: Rows, s: Sig, divisor: real, reading: Arrivals, deleting: Arrivals, window: real,
              ghost from: Log, ghost was: map<Sig, Table>, ghost snaps: map<Sig, Table>, ghost done: set<Sig>)
    returns (out: Rows, ghost snaps': map<Sig, Table>)
    requires window > 0.0 && c.Valid() && AllIdle(from, c.maps.mode) && s !in done && s != CDiskLat && s != CDiskIo
    requires Progress(from, c.log, c.maps.mode, was, c.maps.counters, NoneArrive(reading) && NoneArrive(deleting),
                      rows, snaps, done, window)
    requires divisor == if IsRate(s) then window else if s == CCpu then window * 1000000000.0 else 1.0
    modifies c`log, c.maps`counters
    ensures c.Valid()
    ensures Progress(from, c.log, c.maps.mode, was, c.maps.counters, NoneArrive(reading) && NoneArrive(deleting),
                     out, snaps', done + {s}, window)
  {
    ghost var log, now := c.log, c.maps.counters;
    assert Undisturbed(LogOf(from, s), LogOf(log, s), c.maps.mode);
    var t := c.DrainMap(s, For(reading, s), For(deleting, s));
    var values := Scaled(t, divisor);
    out := Record(rows, s, values);
    snaps' := snaps[s := t];
    TookOne(from, log, c.log, c.maps.mode, snaps, done, s, t);
    FiledMore(rows, snaps, done, window, s, t);
    ScaledFiles(snaps', s, divisor, window);
    FiledStep(rows, snaps', done, window, s, values, out);
    if NoneArrive(reading) && NoneArrive(deleting) {
      ExactlyOne(was, now, c.maps.counters, snaps, done, s, t);
    }
  }

  /** Both disk maps have handed over their windows; the others have only been credited. */
  ghost predicate PairTook(log: Log, later: Log, mode: Mode, lat: Table, cnt: Table) {
    forall s: Sig ::
      if s.CDiskLat? then Handed(LogOf(log, s), LogOf(later, s), mode, lat)
      else if s.CDiskIo? then Handed(LogOf(log, s), LogOf(later, s), mode, cnt)
      else Undisturbed(LogOf(log, s), LogOf(later, s), mode)
  }

  /** Both disk maps, as Go drains them: one and then the other. */
  method TakeInTurn(c: Collector, reading: Arrivals, deleting: Arrivals) returns (lat: Table, cnt: Table)
    requires c.Valid() && StateOf(c.log, CDiskLat, c.maps.mode).phase.Idle?
    requires StateOf(c.log, CDiskIo, c.maps.mode).phase.Idle?
    modifies c`log, c.maps`counters
    ensures c.Valid() && PairTook(old(c.log), c.log, c.maps.mode, lat, cnt)
    ensures NoneArrive(reading) && NoneArrive(deleting) ==>
              && lat == Of(old(c.maps.counters), CDiskLat) && cnt == Of(old(c.maps.counters), CDiskIo)
              && SameTables(c.maps.counters, old(c.maps.counters)[CDiskLat := map[]][CDiskIo := map[]])
  {
    lat := c.DrainMap(CDiskLat, For(reading, CDiskLat), For(deleting, CDiskLat));
    ghost var mid := c.log;
    cnt := c.DrainMap(CDiskIo, For(reading, CDiskIo), For(deleting, CDiskIo));
    InTurnTook(old(c.log), mid, c.log, c.maps.mode, lat, cnt);
  }

  lemma InTurnTook(log: Log, mid: Log, later: Log, mode: Mode, lat: Table, cnt: Table)
    requires Drained(LogOf(log, CDiskLat), LogOf(mid, CDiskLat), mode, lat) && OthersCredited(log, mid, CDiskLat, mode)
    requires Drained(LogOf(mid, CDiskIo), LogOf(later, CDiskIo), mode, cnt) && OthersCredited(mid, later, CDiskIo, mode)
    ensures PairTook(log, later, mode, lat, cnt)
  {
    DrainedThen(LogOf(log, CDiskLat), LogOf(mid, CDiskLat), LogOf(later, CDiskLat), mode, lat);
    HandedAfter(LogOf(log, CDiskIo), LogOf(mid, CDiskIo), LogOf(later, CDiskIo), mode, cnt);
    forall s: Sig | !s.CDiskLat? && !s.CDiskIo? ensures Undisturbed(LogOf(log, s), LogOf(later, s), mode) {
      UndisturbedThen(LogOf(log, s), LogOf(mid, s), LogOf(later, s), mode);
    }
  }

  lemma DrainedThen(a: seq<Op>, b: seq<Op>, c: seq<Op>, mode: Mode, res: Table)
    requires Drained(a, b, mode, res) && Undisturbed(b, c, mode)
    ensures Handed(a, c, mode, res)
  {
  }

  lemma HandedBefore(a: seq<Op>, b: seq<Op>, c: seq<Op>, mode: Mode, res: Table)
    requires Undisturbed(a, b, mode) && Handed(b, c, mode, res)
    ensures Handed(a, c, mode, res)
  {
  }

  lemma DrainedHanded(a: seq<Op>, b: seq<Op>, mode: Mode, res: Table)
    requires Drained(a, b, mode, res)
    ensures Handed(a, b, mode, res)
  {
  }

  ghost predicate RestCredited(log: Log, later: Log, mode: Mode) {
    forall s: Sig | !s.CDiskLat? && !s.CDiskIo? :: Undisturbed(LogOf(log, s), LogOf(later, s), mode)
  }

  lemma RestThen(log: Log, mid: Log, later: Log, mode: Mode)
    requires RestCredited(log, mid, mode) && RestCredited(mid, later, mode)
    ensures RestCredited(log, later, mode)
  {
    forall s: Sig | !s.CDiskLat? && !s.CDiskIo? ensures Undisturbed(LogOf(log, s), LogOf(later, s), mode) {
      UndisturbedThen(LogOf(log, s), LogOf(mid, s), LogOf(later, s), mode);
    }
  }

  lemma OthersRest(log: Log, later: Log, s: Sig, mode: Mode)
    requires OthersCredited(log, later, s, mode) && (s == CDiskLat || s == CDiskIo)
    ensures RestCredited(log, later, mode)
  {
  }

  /** The two clears of the Python twin. */
  method ClearBoth(c: Collector, lat: Table, latKeys: seq<nat>, cnt: Table, cntKeys: seq<nat>, deleting: Arrivals,
                   ghost a: seq<Op>, ghost b: seq<Op>, ghost latStart: set<nat>, ghost cntStart: set<nat>)
    requires c.Valid()
    requires IsReading(a, LogOf(c.log, CDiskLat), c.maps.mode, lat, latKeys, latStart)
    requires IsReading(b, LogOf(c.log, CDiskIo), c.maps.mode, cnt, cntKeys, cntStart)
    modifies c`log, c.maps`counters
    ensures c.Valid() && RestCredited(old(c.log), c.log, c.maps.mode)
    ensures Handed(a, LogOf(c.log, CDiskLat), c.maps.mode, lat) && Handed(b, LogOf(c.log, CDiskIo), c.maps.mode, cnt)
    ensures NoneArrive(deleting) && c.maps.mode.Bcc? ==>
              SameTables(c.maps.counters, old(c.maps.counters)[CDiskLat := map[]][CDiskIo := map[]])
  {
    ghost var was, mode, l2 := c.maps.counters, c.maps.mode, c.log;
    c.DeleteAll(CDiskLat, lat, latKeys, For(deleting, CDiskLat), a, latStart);
    ghost var mid, l3 := c.maps.counters, c.log;
    HitsRead(b, LogOf(l2, CDiskIo), LogOf(l3, CDiskIo), mode, cnt, cntKeys, cntStart);
    c.DeleteAll(CDiskIo, cnt, cntKeys, For(deleting, CDiskIo), b, cntStart);
    BothHanded(a, b, l2, l3, c.log, mode, lat, cnt);
    WithoutAll(was, CDiskLat);
    WithoutAll(mid, CDiskIo);
    if NoneArrive(deleting) && mode.Bcc? {
      BothEmptied(was, mid, c.maps.counters);
    }
  }

  lemma BothHanded(a: seq<Op>, b: seq<Op>, log: Log, mid: Log, later: Log, mode: Mode, lat: Table, cnt: Table)
    requires Drained(a, LogOf(mid, CDiskLat), mode, lat) && OthersCredited(log, mid, CDiskLat, mode)
    requires Drained(b, LogOf(later, CDiskIo), mode, cnt) && OthersCredited(mid, later, CDiskIo, mode)
    ensures Handed(a, LogOf(later, CDiskLat), mode, lat) && Handed(b, LogOf(later, CDiskIo), mode, cnt)
    ensures RestCredited(log, later, mode)
  {
    DrainedThen(a, LogOf(mid, CDiskLat), LogOf(later, CDiskLat), mode, lat);
    DrainedHanded(b, LogOf(later, CDiskIo), mode, cnt);
    OthersRest(log, mid, CDiskLat, mode);
    OthersRest(mid, later, CDiskIo, mode);
    RestThen(log, mid, later, mode);
  }

  lemma BothEmptied(was: map<Sig, Table>, mid: map<Sig, Table>, now: map<Sig, Table>)
    requires SameTables(mid, was[CDiskLat := map[]]) && SameTables(now, mid[CDiskIo := map[]])
    ensures SameTables(now, was[CDiskLat := map[]][CDiskIo := map[]])
  {
    forall s: Sig ensures Of(now, s) == Of(was[CDiskLat := map[]][CDiskIo := map[]], s) {
      assert Of(now, s) == Of(mid[CDiskIo := map[]], s) && Of(mid, s) == Of(was[CDiskLat := map[]], s);
    }
  }

  /** The same, as Python drains them: both are read before either is cleared. */
  method TakeTogether(c: Collector, reading: Arrivals, deleting: Arrivals) returns (lat: Table, cnt: Table)
    requires c.Valid() && c.maps.mode.Bcc? && StateOf(c.log, CDiskLat, c.maps.mode).phase.Idle?
    requires StateOf(c.log, CDiskIo, c.maps.mode).phase.Idle?
    modifies c`log, c.maps`counters
    ensures c.Valid() && PairTook(old(c.log), c.log, c.maps.mode, lat, cnt)
    ensures NoneArrive(reading) && NoneArrive(deleting) ==>
              && lat == Of(old(c.maps.counters), CDiskLat) && cnt == Of(old(c.maps.counters), CDiskIo)
              && SameTables(c.maps.counters, old(c.maps.counters)[CDiskLat := map[]][CDiskIo := map[]])
  {
    ghost var mode, l0, latStart := c.maps.mode, c.log, Of(c.maps.counters, CDiskLat).Keys;
    var latKeys, cntKeys;
    lat, latKeys := c.ReadAll(CDiskLat, For(reading, CDiskLat));
    ghost var l1, cntStart := c.log, Of(c.maps.counters, CDiskIo).Keys;
    cnt, cntKeys := c.ReadAll(CDiskIo, For(reading, CDiskIo));
    ghost var l2 := c.log;
    HitsRead(LogOf(l0, CDiskLat), LogOf(l1, CDiskLat), LogOf(l2, CDiskLat), mode, lat, latKeys, latStart);
    ClearBoth(c, lat, latKeys, cnt, cntKeys, deleting, LogOf(l0, CDiskLat), LogOf(l1, CDiskIo), latStart, cntStart);
    HandedBefore(LogOf(l0, CDiskIo), LogOf(l1, CDiskIo), LogOf(c.log, CDiskIo), mode, cnt);
    OthersRest(l0, l1, CDiskLat, mode);
    OthersRest(l1, l2, CDiskIo, mode);
    RestThen(l0, l1, l2, mode);
    RestThen(l0, l2, c.log, mode);
  }

  /** The latency feature, from its two maps. */
  method PassLatency(c: Collector, rows: Rows, reading: Arrivals, deleting: Arrivals, window: real,
                     ghost from: Log, ghost was: map<Sig, Table>, ghost snaps: map<Sig, Table>, ghost done: set<Sig>)
    returns (out: Rows, ghost snaps': map<Sig, Table>)
    requires window > 0.0 && c.Valid() && AllIdle(from, c.maps.mode) && CDiskLat !in done && CDiskIo !in done
    requires Progress(from, c.log, c.maps.mode, was, c.maps.counters, NoneArrive(reading) && NoneArrive(deleting),
                      rows, snaps, done, window)
    modifies c`log, c.maps`counters
    ensures c.Valid()
    ensures Progress(from, c.log, c.maps.mode, was, c.maps.counters, NoneArrive(reading) && NoneArrive(deleting),
                     out, snaps', done + {CDiskLat, CDiskIo}, window)
  {
    ghost var log, now := c.log, c.maps.counters;
    assert Undisturbed(LogOf(from, CDiskLat), LogOf(log, CDiskLat), c.maps.mode);
    assert Undisturbed(LogOf(from, CDiskIo), LogOf(log, CDiskIo), c.maps.mode);
    var lat, cnt;
    if c.maps.mode == Go {
      lat, cnt := TakeInTurn(c, reading, deleting);
    } else {
      lat, cnt := TakeTogether(c, reading, deleting);
    }
    var values := Latencies(lat, cnt);
    out := Record(rows, CDiskLat, values);
    snaps' := snaps[CDiskLat := lat][CDiskIo := cnt];
    PairStep(from, log, c.log, c.maps.mode, snaps, done, lat, cnt);
    FiledPair(rows, snaps, done, window, lat, cnt, out);
    if NoneArrive(reading) && NoneArrive(deleting) {
      ExactlyPair(was, now, c.maps.counters, snaps, done, lat, cnt);
    }
  }

  lemma PairStep(from: Log, log: Log, later: Log, mode: Mode, snaps: map<Sig, Table>, done: set<Sig>, lat: Table,
                 cnt: Table)
    requires Took(from, log, mode, snaps, done) && CDiskLat !in done && CDiskIo !in done
    requires PairTook(log, later, mode, lat, cnt)
    ensures Took(from, later, mode, snaps[CDiskLat := lat][CDiskIo := cnt], done + {CDiskLat, CDiskIo})
  {
    var more, all := snaps[CDiskLat := lat][CDiskIo := cnt], done + {CDiskLat, CDiskIo};
    forall s: Sig
      ensures if s in all then Handed(LogOf(from, s), LogOf(later, s), mode, Of(more, s))
              else Undisturbed(LogOf(from, s), LogOf(later, s), mode)
    {
      PairStepAt(from, log, later, mode, snaps, done, lat, cnt, s);
    }
  }

  lemma PairStepAt(from: Log, log: Log, later: Log, mode: Mode, snaps: map<Sig, Table>, done: set<Sig>, lat: Table,
                   cnt: Table, s: Sig)
    requires Took(from, log, mode, snaps, done) && CDiskLat !in done && CDiskIo !in done
    requires PairTook(log, later, mode, lat, cnt)
    ensures if s in done + {CDiskLat, CDiskIo}
            then Handed(LogOf(from, s), LogOf(later, s), mode, Of(snaps[CDiskLat := lat][CDiskIo := cnt], s))
            else Undisturbed(LogOf(from, s), LogOf(later, s), mode)
  {
    if s == CDiskLat {
      HandedBefore(LogOf(from, s), LogOf(log, s), LogOf(later, s), mode, lat);
    } else if s == CDiskIo {
      HandedBefore(LogOf(from, s), LogOf(log, s), LogOf(later, s), mode, cnt);
    } else if s in done {
      HandedThen(LogOf(from, s), LogOf(log, s), LogOf(later, s), mode, Of(snaps, s));
    } else {
      UndisturbedThen(LogOf(from, s), LogOf(log, s), LogOf(later, s), mode);
    }
  }

  lemma FiledPair(rows: Rows, snaps: map<Sig, Table>, done: set<Sig>, window: real, lat: Table, cnt: Table, out: Rows)
    requires window > 0.0 && Filed(rows, snaps, done, window) && CDiskLat !in done && CDiskIo !in done
    requires NoEmptyRow(out)
    requires forall cg, s :: Lookup(out, cg, s) ==
                             if s == CDiskLat && cg in Latencies(lat, cnt) then Some(Latencies(lat, cnt)[cg])
                             else Lookup(rows, cg, s)
    ensures Filed(out, snaps[CDiskLat := lat][CDiskIo := cnt], done + {CDiskLat, CDiskIo}, window)
  {
    var one := snaps[CDiskLat := lat];
    var both := one[CDiskIo := cnt];
    FiledMore(rows, snaps, done, window, CDiskLat, lat);
    FiledMore(rows, one, done, window, CDiskIo, cnt);
    LatenciesFile(both, window);
    FiledStep(rows, both, done, window, CDiskLat, Latencies(lat, cnt), out);
    FiledStep(out, both, done + {CDiskLat}, window, CDiskIo, map[], out);
    assert done + {CDiskLat} + {CDiskIo} == done + {CDiskLat, CDiskIo};
  }

  lemma ExactlyPair(was: map<Sig, Table>, now: map<Sig, Table>, later: map<Sig, Table>, snaps: map<Sig, Table>,
                    done: set<Sig>, lat: Table, cnt: Table)
    requires Exactly(was, now, snaps, done) && CDiskLat !in done && CDiskIo !in done
    requires lat == Of(now, CDiskLat) && cnt == Of(now, CDiskIo)
    requires SameTables(later, now[CDiskLat := map[]][CDiskIo := map[]])
    ensures Exactly(was, later, snaps[CDiskLat := lat][CDiskIo := cnt], done + {CDiskLat, CDiskIo})
  {
    var mid := now[CDiskLat := map[]];
    ExactlyOne(was, now, mid, snaps, done, CDiskLat, lat);
    ExactlyOne(was, mid, later, snaps[CDiskLat := lat], done + {CDiskLat}, CDiskIo, cnt);
    assert done + {CDiskLat} + {CDiskIo} == done + {CDiskLat, CDiskIo};
  }

  // ------------------------------------------------------------- the whole

  lemma StartProgress(log: Log, mode: Mode, now: map<Sig, Table>, quiet: bool, window: real)
    requires window > 0.0 && AllIdle(log, mode)
    ensures Progress(log, log, mode, now, now, quiet, map[], map[], {}, window)
  {
  }

  lemma EndProgress(from: Log, log: Log, mode: Mode, was: map<Sig, Table>, now: map<Sig, Table>, quiet: bool,
                    rows: Rows, snaps: map<Sig, Table>, done: set<Sig>, window: real)
    requires window > 0.0 && Progress(from, log, mode, was, now, quiet, rows, snaps, done, window)
    requires forall s: Sig :: s in done
    ensures NoEmptyRow(rows) && forall cg, s :: Lookup(rows, cg, s) == Feature(snaps, s, cg, window)
    ensures forall s: Sig :: Handed(LogOf(from, s), LogOf(log, s), mode, Of(snaps, s))
    ensures quiet ==> forall s: Sig :: Of(snaps, s) == Of(was, s) && Of(now, s) == map[]
  {
  }

  /** The loop over the rates. */
  method DrainRates(c: Collector, reading: Arrivals, deleting: Arrivals, window: real)
    returns (rows: Rows, ghost snaps: map<Sig, Table>, ghost done: set<Sig>)
    requires window > 0.0 && c.Valid() && AllIdle(c.log, c.maps.mode)
    modifies c`log, c.maps`counters
    ensures c.Valid()
    ensures Progress(old(c.log), c.log, c.maps.mode, old(c.maps.counters), c.maps.counters,
                     NoneArrive(reading) && NoneArrive(deleting), rows, snaps, done, window)
    ensures forall s: Sig :: s in done <==> IsRate(s)
  {
    rows, snaps, done := map[], map[], {};
    ghost var from, was, quiet := c.log, c.maps.counters, NoneArrive(reading) && NoneArrive(deleting);
    StartProgress(c.log, c.maps.mode, c.maps.counters, quiet, window);
    for i := 0 to |RATES|
      invariant c.Valid()
      invariant Progress(from, c.log, c.maps.mode, was, c.maps.counters, quiet, rows, snaps, done, window)
      invariant forall s :: s in done <==> s in RATES[..i]
    {
      RateAt(i);
      rows, snaps := Pass(c, rows, RATES[i], window, reading, deleting, window, from, was, snaps, done);
      done := done + {RATES[i]};
    }
    assert RATES[..|RATES|] == RATES;
    forall s: Sig ensures s in done <==> IsRate(s) { AllNamed(s); }
  }

  /** The loop over the sums. */
  method DrainSums(c: Collector, before: Rows, reading: Arrivals, deleting: Arrivals, window: real, ghost from: Log,
                   ghost was: map<Sig, Table>, ghost taken: map<Sig, Table>, ghost first: set<Sig>)
    returns (rows: Rows, ghost snaps: map<Sig, Table>, ghost done: set<Sig>)
    requires window > 0.0 && c.Valid() && AllIdle(from, c.maps.mode) && forall s: Sig :: s in first <==> IsRate(s)
    requires Progress(from, c.log, c.maps.mode, was, c.maps.counters, NoneArrive(reading) && NoneArrive(deleting),
                      before, taken, first, window)
    modifies c`log, c.maps`counters
    ensures c.Valid()
    ensures Progress(from, c.log, c.maps.mode, was, c.maps.counters, NoneArrive(reading) && NoneArrive(deleting),
                     rows, snaps, done, window)
    ensures forall s: Sig :: s in done <==> !s.CDiskLat? && !s.CDiskIo? && !s.CCpu?
  {
    rows, snaps, done := before, taken, first;
    ghost var quiet := NoneArrive(reading) && NoneArrive(deleting);
    for i := 0 to |SUMS|
      invariant c.Valid()
      invariant Progress(from, c.log, c.maps.mode, was, c.maps.counters, quiet, rows, snaps, done, window)
      invariant forall s :: s in done <==> IsRate(s) || s in SUMS[..i]
    {
      SumAt(i);
      rows, snaps := Pass(c, rows, SUMS[i], 1.0, reading, deleting, window, from, was, snaps, done);
      done := done + {SUMS[i]};
    }
    assert SUMS[..|SUMS|] == SUMS;
    forall s: Sig ensures s in done <==> !s.CDiskLat? && !s.CDiskIo? && !s.CCpu? { AllNamed(s); }
  }

  /** `drain` in Go and `_drain` in Python, with whatever the kernel credits meanwhile: every feature of every cgroup is
      what the drains handed over, one window of each map; with no credits in between that is what the maps held, and
      they end empty. */
  method Drain(c: Collector, reading: Arrivals, deleting: Arrivals, window: real)
    returns (rows: Rows, ghost snaps: map<Sig, Table>)
    requires window > 0.0 && c.Valid() && AllIdle(c.log, c.maps.mode)
    modifies c`log, c.maps`counters
    ensures c.Valid() && NoEmptyRow(rows)
    ensures forall cg, s :: Lookup(rows, cg, s) == Feature(snaps, s, cg, window)
    ensures forall s: Sig :: Handed(LogOf(old(c.log), s), LogOf(c.log, s), c.maps.mode, Of(snaps, s))
    ensures NoneArrive(reading) && NoneArrive(deleting) ==>
              forall s: Sig :: Of(snaps, s) == Of(old(c.maps.counters), s) && Of(c.maps.counters, s) == map[]
  {
    ghost var from, was, done := c.log, c.maps.counters, {};
    rows, snaps, done := DrainRates(c, reading, deleting, window);
    rows, snaps, done := DrainSums(c, rows, reading, deleting, window, from, was, snaps, done);
    rows, snaps := PassLatency(c, rows, reading, deleting, window, from, was, snaps, done);
    done := done + {CDiskLat, CDiskIo};
    rows, snaps := Pass(c, rows, CCpu, window * 1000000000.0, reading, deleting, window, from, was, snaps, done);
    done := done + {CCpu};
    EndProgress(from, c.log, c.maps.mode, was, c.maps.counters, NoneArrive(reading) && NoneArrive(deleting),
                rows, snaps, done, window);
  }
}
