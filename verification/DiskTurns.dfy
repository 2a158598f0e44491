/**
 Runs that drain the two disk maps in turn with nothing in between: their
 passes, what `DiskWindows` says of them, and a run that loses a latency.
 */
module DiskTurns {
  import opened CounterMap
  import opened DiskLedger
  import opened DiskWindows
  import opened Kernel
  import opened Windows

  // --------------------------------------------------------- passes of a run

  const DRAIN_LAT := Drain(CDiskLat, Atomic)
  const DRAIN_IO := Drain(CDiskIo, Atomic)

  /** An event that drains neither disk map. */
  predicate LeavesDiskMaps(e: Event) {
    e.Drain? ==> e.sig != CDiskLat && e.sig != CDiskIo
  }

  /** The position after the last `e` before `n`; 0 when there is none. */
  function After(es: seq<Event>, e: Event, n: nat): (r: nat)
    requires n <= |es|
    ensures r <= n && (r > 0 ==> es[r - 1] == e)
    ensures forall m | r <= m < n :: es[m] != e
  {
    if n == 0 then 0 else if es[n - 1] == e then n else After(es, e, n - 1)
  }

  /** The collectors drain the disk maps in turn, latency first. */
  predicate InTurn(es: seq<Event>, n: nat)
    requires n < |es|
  {
    if es[n] == DRAIN_LAT then After(es, DRAIN_LAT, n) <= After(es, DRAIN_IO, n)
    else if es[n] == DRAIN_IO then After(es, DRAIN_IO, n) < After(es, DRAIN_LAT, n)
    else LeavesDiskMaps(es[n])
  }

  predicate SplitDrained(es: seq<Event>) {
    forall n | 0 <= n < |es| :: InTurn(es, n)
  }

  /** One pass: latency drained at `l` after `a`, count drained at `i` after `b`. */
  predicate Turn(es: seq<Event>, a: nat, b: nat, l: nat, i: nat) {
    && a <= b <= l < i < |es| && es[l] == DRAIN_LAT && es[i] == DRAIN_IO
    && (a == 0 || es[a - 1] == DRAIN_LAT) && (b == 0 || es[b - 1] == DRAIN_IO)
    && forall n | a <= n < i && n != l && n + 1 != b :: LeavesDiskMaps(es[n])
  }

  /** The pass that a count drain ends. */
  function LatDrain(es: seq<Event>, i: nat): nat
    requires i < |es| && SplitDrained(es) && es[i] == DRAIN_IO
  {
    assert InTurn(es, i);
    After(es, DRAIN_LAT, i) - 1
  }

  lemma {:induction false} SameAfter(es: seq<Event>, e: Event, m: nat, n: nat)
    requires m <= n <= |es| && After(es, e, n) <= m
    ensures After(es, e, m) == After(es, e, n)
  {
    if m < n {
      SameAfter(es, e, m, n - 1);
    }
  }

  /** The drains of the pass that a count drain at `i` ends come in order. */
  lemma TurnsAt(es: seq<Event>, i: nat) returns (a: nat, b: nat, l: nat)
    requires i < |es| && SplitDrained(es) && es[i] == DRAIN_IO
    ensures l == LatDrain(es, i) && a == After(es, DRAIN_LAT, l) && b == After(es, DRAIN_IO, i)
    ensures a <= b <= l < i && After(es, DRAIN_LAT, i) == l + 1 && es[l] == DRAIN_LAT
    ensures (a == 0 || es[a - 1] == DRAIN_LAT) && (b == 0 || es[b - 1] == DRAIN_IO)
    ensures b > 0 ==> a < b && After(es, DRAIN_IO, b - 1) <= a
  {
    l, b := LatDrain(es, i), After(es, DRAIN_IO, i);
    a := After(es, DRAIN_LAT, l);
    LatBefore(es, i, l, b);
    if b > 0 {
      IoBefore(es, l, a, b);
    }
  }

  lemma LatBefore(es: seq<Event>, i: nat, l: nat, b: nat)
    requires i < |es| && InTurn(es, i) && es[i] == DRAIN_IO && b == After(es, DRAIN_IO, i)
    requires l + 1 == After(es, DRAIN_LAT, i) && InTurn(es, l)
    ensures After(es, DRAIN_LAT, l) <= b <= l
  {
    SameAfter(es, DRAIN_IO, l, i);
  }

  lemma IoBefore(es: seq<Event>, l: nat, a: nat, b: nat)
    requires 0 < b <= l <= |es| && es[b - 1] == DRAIN_IO && InTurn(es, b - 1)
    requires a == After(es, DRAIN_LAT, l) && a <= b
    ensures a < b && After(es, DRAIN_IO, b - 1) <= a
  {
    SameAfter(es, DRAIN_LAT, b - 1, l);
  }

  lemma NotADrain(es: seq<Event>, a: nat, b: nat, l: nat, i: nat, n: nat)
    requires a <= b <= l < i <= |es| && a <= n < i && n != l && n + 1 != b
    requires After(es, DRAIN_LAT, l) == a && After(es, DRAIN_LAT, i) == l + 1 && After(es, DRAIN_IO, i) == b
    requires b > 0 ==> After(es, DRAIN_IO, b - 1) <= a
    ensures es[n] != DRAIN_LAT && es[n] != DRAIN_IO
  {
    if n < b {
      assert After(es, DRAIN_IO, b - 1) <= n < b - 1;
    }
  }

  lemma LeavesAt(es: seq<Event>, a: nat, b: nat, l: nat, i: nat, n: nat)
    requires a <= b <= l < i <= |es| && a <= n < i && n != l && n + 1 != b && InTurn(es, n)
    requires After(es, DRAIN_LAT, l) == a && After(es, DRAIN_LAT, i) == l + 1 && After(es, DRAIN_IO, i) == b
    requires b > 0 ==> After(es, DRAIN_IO, b - 1) <= a
    ensures LeavesDiskMaps(es[n])
  {
    NotADrain(es, a, b, l, i, n);
  }

  lemma AllLeave(es: seq<Event>, a: nat, b: nat, l: nat, i: nat)
    requires a <= b <= l < i <= |es| && SplitDrained(es)
    requires After(es, DRAIN_LAT, l) == a && After(es, DRAIN_LAT, i) == l + 1 && After(es, DRAIN_IO, i) == b
    requires b > 0 ==> After(es, DRAIN_IO, b - 1) <= a
    ensures forall n: nat | a <= n < i && n != l && n + 1 != b :: LeavesDiskMaps(es[n])
  {
    forall n: nat | a <= n < i && n != l && n + 1 != b ensures LeavesDiskMaps(es[n]) {
      LeavesAt(es, a, b, l, i, n);
    }
  }

  lemma PassAt(es: seq<Event>, i: nat)
    requires i < |es| && SplitDrained(es) && es[i] == DRAIN_IO
    ensures var l := LatDrain(es, i); Turn(es, After(es, DRAIN_LAT, l), After(es, DRAIN_IO, i), l, i)
  {
    var a, b, l := TurnsAt(es, i);
    AllLeave(es, a, b, l, i);
    PassFrom(es, a, b, l, i);
  }

  lemma PassFrom(es: seq<Event>, a: nat, b: nat, l: nat, i: nat)
    requires a <= b <= l < i < |es| && es[l] == DRAIN_LAT && es[i] == DRAIN_IO
    requires (a == 0 || es[a - 1] == DRAIN_LAT) && (b == 0 || es[b - 1] == DRAIN_IO)
    requires forall n: nat | a <= n < i && n != l && n + 1 != b :: LeavesDiskMaps(es[n])
    ensures Turn(es, a, b, l, i)
  {
  }

  /** Where each pass of a collector's run begins and ends. */
  datatype Marks = Marks(a: nat, b: nat, l: nat, i: nat)

  function MarksAt(es: seq<Event>, i: nat): (m: Marks)
    requires i < |es| && SplitDrained(es) && es[i] == DRAIN_IO
    ensures Turn(es, m.a, m.b, m.l, m.i) && m.i == i
  {
    PassAt(es, i);
    Marks(After(es, DRAIN_LAT, LatDrain(es, i)), After(es, DRAIN_IO, i), LatDrain(es, i), i)
  }

  /** The last drain of map `s` before `n` is the event before `a`. */
  predicate DrainedAt(es: seq<Event>, s: Sig, a: nat, n: nat) {
    && a <= n <= |es| && (a == 0 || es[a - 1] == Drain(s, Atomic))
    && forall m | a <= m < n :: !(es[m].Drain? && es[m].sig == s)
  }

  lemma SinceDrain(es: seq<Event>, mode: Mode, s: Sig, a: nat, n: nat, cg: nat)
    requires Valid(es, mode) && DrainedAt(es, s, a, n)
    ensures Since(Ops(es, mode, s), a, n, cg)
  {
    if a > 0 {
      OpAt(es, mode, s, a - 1);
    }
    forall m: nat | a <= m < n ensures !Removes(Ops(es, mode, s)[m], cg) {
      OpAt(es, mode, s, m);
      KeepsMap(Run(es[..m], mode).flight, es[m], s, cg);
    }
  }

  // ---------------------------------------------------- what these passes hold

  function TurnAt(es: seq<Event>, i: nat): Pass
    requires i < |es| && SplitDrained(es) && es[i] == DRAIN_IO
  {
    Pass(Span(MarksAt(es, i).l, MarksAt(es, i).l), Span(i, i))
  }

  /** Drained in turn, a pass cuts the run at its own two drains and at those of the pass before. */
  lemma TurnIsPass(es: seq<Event>, mode: Mode, i: nat, cg: nat)
    requires Valid(es, mode) && SplitDrained(es) && i < |es| && es[i] == DRAIN_IO
    ensures IsPass(es, mode, TurnAt(es, i))
    ensures var m := MarksAt(es, i); CutAt(es, mode, TurnAt(es, i), cg) == Cut(m.a, m.b, m.l, i)
  {
    var m := MarksAt(es, i);
    OpAt(es, mode, CDiskLat, m.l);
    OpAt(es, mode, CDiskIo, i);
    MarksDrained(es, m);
    SinceDrain(es, mode, CDiskLat, m.a, m.l, cg);
    SinceDrain(es, mode, CDiskIo, m.b, i, cg);
    LastOutIs(Ops(es, mode, CDiskLat), m.a, m.l, cg);
    LastOutIs(Ops(es, mode, CDiskIo), m.b, i, cg);
  }

  lemma MarksDrained(es: seq<Event>, m: Marks)
    requires Turn(es, m.a, m.b, m.l, m.i)
    ensures DrainedAt(es, CDiskLat, m.a, m.l) && DrainedAt(es, CDiskIo, m.b, m.i)
    ensures forall n | m.l <= n < m.i :: es[n].Drain? ==> es[n].sig != CDiskIo
  {
  }

  /** So, in every pass of every such run: a cgroup of the latency window is missing from the count window exactly if it
      completed a request between the two drains of the pass before and none from then until the count drain of this
      one. A cgroup of the count window is missing from the latency window exactly if it completed one between the two
      drains of this pass and none in the window. */
  lemma MissingInTurn(es: seq<Event>, mode: Mode, i: nat, cg: nat)
    requires Valid(es, mode) && SplitDrained(es) && i < |es| && es[i] == DRAIN_IO && HadRoom(es, mode, cg)
    ensures IsPass(es, mode, TurnAt(es, i)) && Counted(es, mode, TurnAt(es, i), cg)
    ensures var m, d := MarksAt(es, i), TurnAt(es, i);
            var lat, io := Handed(es, mode, CDiskLat, d.lat), Handed(es, mode, CDiskIo, d.io);
            && (cg in lat && cg !in io <==>
                  CompletedIn(es, mode, m.a, m.b, cg) && !CompletedIn(es, mode, m.b, i, cg))
            && (cg in io && cg !in lat <==>
                  CompletedIn(es, mode, m.l, i, cg) && !CompletedIn(es, mode, m.a, m.l, cg))
  {
    TurnIsPass(es, mode, i, cg);
    MissingIff(es, mode, TurnAt(es, i), cg);
  }


  // ---------------------------------------------------------- a run that loses

  /** `c` completes the request that `i` issued. */
  predicate Completes(i: Event, c: Event) {
    i.Issue? && c.Complete? && i.sector == c.sector && i.now < c.now < U64
  }

  /** One request issued and completed between the two drains of a pass, then the next pass. */
  function SplitPasses(i: Event, c: Event): seq<Event> {
    [DRAIN_LAT, i, c, DRAIN_IO, DRAIN_LAT, DRAIN_IO]
  }

  /** A machine, as far as the disk maps see it. */
  datatype Disk = Disk(lat: State, io: State, f: Flight)

  function View(m: Machine): Disk {
    Disk(On(m, CDiskLat), On(m, CDiskIo), m.flight)
  }

  /** A disk event, or an uninterrupted drain of one disk map. */
  predicate DiskEvent(d: Disk, e: Event) {
    e.Issue? || e.Complete? ||
    (e == DRAIN_LAT && d.lat.phase.Idle?) || (e == DRAIN_IO && d.io.phase.Idle?)
  }

  function DiskNext(d: Disk, e: Event): Disk
    requires DiskEvent(d, e)
  {
    match e
    case Drain(CDiskLat, _) => d.(lat := State(map[], Idle, d.lat.windows + [d.lat.table]))
    case Drain(_, _) => d.(io := State(map[], Idle, d.io.windows + [d.io.table]))
    case Complete(s, now) =>
      if !Matched(d.f, s) then d
      else Disk(d.lat.(table := Incr(d.lat.table, d.f.cg[s], SubU64(now, d.f.start[s]), Capacity(Go))),
                d.io.(table := Incr(d.io.table, d.f.cg[s], 1, Capacity(Go))), FlightAfter(d.f, e, Go))
    case _ => d.(f := FlightAfter(d.f, e, Go))
  }

  predicate Path(d: Disk, es: seq<Event>, d': Disk)
    decreases |es|
  {
    if es == [] then d == d' else DiskEvent(d, es[0]) && Path(DiskNext(d, es[0]), es[1..], d')
  }

  lemma OtherOps(d: Disk, e: Event, s: Sig)
    requires DiskEvent(d, e) && s != CDiskLat && s != CDiskIo
    ensures OpOn(d.f, e, s).Inc? || OpOn(d.f, e, s).Skip?
  {
  }

  lemma DiskOpsOf(d: Disk, e: Event)
    requires DiskEvent(d, e)
    ensures Can(d.lat, OpOn(d.f, e, CDiskLat)) && Can(d.io, OpOn(d.f, e, CDiskIo))
    ensures DiskNext(d, e) == Disk(Step(d.lat, OpOn(d.f, e, CDiskLat), Go), Step(d.io, OpOn(d.f, e, CDiskIo), Go),
                                   FlightAfter(d.f, e, Go))
  {
  }

  lemma ViewStep(m: Machine, e: Event)
    requires DiskEvent(View(m), e)
    ensures Enabled(m, e) && View(Next(m, e, Go)) == DiskNext(View(m), e)
  {
    var d := View(m);
    DiskOpsOf(d, e);
    forall s: Sig ensures Can(On(m, s), OpOn(d.f, e, s)) {
      if s != CDiskLat && s != CDiskIo {
        OtherOps(d, e, s);
      }
    }
    assert Enabled(m, e);
  }

  lemma ExtendView(es: seq<Event>, e: Event, d: Disk)
    requires Valid(es, Go) && View(Run(es, Go)) == d && DiskEvent(d, e)
    ensures Valid(es + [e], Go) && View(Run(es + [e], Go)) == DiskNext(d, e)
  {
    ViewStep(Run(es, Go), e);
    Extend(es, e, Go);
  }

  lemma MoveHead<T>(a: seq<T>, b: seq<T>)
    requires b != []
    ensures a + [b[0]] + b[1..] == a + b
  {
  }

  /** Disk events can always be appended to a run, and the disk maps follow them. */
  lemma {:induction false} PathIsRun(pre: seq<Event>, es: seq<Event>, d: Disk, last: Disk, whole: seq<Event>)
    requires Valid(pre, Go) && View(Run(pre, Go)) == d && Path(d, es, last) && whole == pre + es
    ensures Valid(whole, Go) && View(Run(whole, Go)) == last
    decreases |es|
  {
    if es == [] {
      assert whole == pre;
    } else {
      var e, rest, next := es[0], es[1..], DiskNext(d, es[0]);
      var longer := pre + [e];
      ExtendView(pre, e, d);
      MoveHead(pre, es);
      PathIsRun(longer, rest, next, last, whole);
    }
  }

  lemma PathStep(d: Disk, e: Event, next: Disk, rest: seq<Event>, last: Disk)
    requires DiskEvent(d, e) && DiskNext(d, e) == next && Path(next, rest, last)
    ensures Path(d, [e] + rest, last)
  {
    assert ([e] + rest)[1..] == rest;
  }

  lemma IssueMoves(d: Disk, i: Event)
    requires i.Issue? && d.f == Flight(map[], map[], map[])
    ensures DiskNext(d, i) == d.(f := Flight(map[i.sector := i.now], map[i.sector := i.cg], map[]))
  {
  }

  lemma FirstIncr(k: nat, d: nat)
    requires d < U64
    ensures Incr(map[], k, d, Capacity(Go)) == map[k := d]
  {
  }

  lemma CompleteMoves(d: Disk, c: Event, cg: nat, at: nat)
    requires c.Complete? && at < c.now < U64
    requires d.f == Flight(map[c.sector := at], map[c.sector := cg], map[]) && d.lat.table == d.io.table == map[]
    ensures DiskNext(d, c) == Disk(d.lat.(table := map[cg := c.now - at]), d.io.(table := map[cg := 1]),
                                   Flight(map[], map[], map[]))
  {
    FirstIncr(cg, c.now - at);
    FirstIncr(cg, 1);
    assert SubU64(c.now, at) == c.now - at;
    assert d.f.start - {c.sector} == map[] && d.f.cg - {c.sector} == map[];
  }

  /** The request's own two events, from an empty disk. */
  lemma RequestPath(d: Disk, i: Event, c: Event, rest: seq<Event>, last: Disk)
    requires Completes(i, c) && d.f == Flight(map[], map[], map[]) && d.lat.table == d.io.table == map[]
    requires Path(Disk(d.lat.(table := map[i.cg := c.now - i.now]), d.io.(table := map[i.cg := 1]), d.f), rest, last)
    ensures Path(d, [i] + ([c] + rest), last)
  {
    var d2 := d.(f := Flight(map[i.sector := i.now], map[i.sector := i.cg], map[]));
    CompletePath(d2, c, i.cg, i.now, rest, last);
    IssueMoves(d, i);
    PathStep(d, i, d2, [c] + rest, last);
  }

  lemma CompletePath(d: Disk, c: Event, cg: nat, at: nat, rest: seq<Event>, last: Disk)
    requires c.Complete? && at < c.now < U64
    requires d.f == Flight(map[c.sector := at], map[c.sector := cg], map[]) && d.lat.table == d.io.table == map[]
    requires Path(Disk(d.lat.(table := map[cg := c.now - at]), d.io.(table := map[cg := 1]),
                       Flight(map[], map[], map[])),
                  rest, last)
    ensures Path(d, [c] + rest, last)
  {
    CompleteMoves(d, c, cg, at);
    PathStep(d, c, DiskNext(d, c), rest, last);
  }

  /** The drains after it. */
  lemma DrainsPath(d: Disk, t: Table, u: Table)
    requires d.lat == State(t, Idle, [map[]]) && d.io == State(u, Idle, [])
    ensures Path(d, [DRAIN_IO] + ([DRAIN_LAT] + ([DRAIN_IO] + [])),
                 Disk(State(map[], Idle, [map[], t]), State(map[], Idle, [u, map[]]), d.f))
  {
    var none: Table, dl, dc := map[], DRAIN_LAT, DRAIN_IO;
    var d4 := d.(io := State(none, Idle, [u]));
    var d5 := d4.(lat := State(none, Idle, [none, t]));
    var d6 := d5.(io := State(none, Idle, [u, none]));
    assert [u] + [none] == [u, none] && [none] + [t] == [none, t] && [] + [u] == [u];
    PathStep(d5, dc, d6, [], d6);
    PathStep(d4, dl, d5, [dc] + [], d6);
    PathStep(d, dc, d4, [dl] + ([dc] + []), d6);
  }

  lemma PassesPath(i: Event, c: Event)
    requires Completes(i, c)
    ensures var t: Table := map[i.cg := c.now - i.now];
            Path(View(BOOT), SplitPasses(i, c),
                 Disk(State(map[], Idle, [map[], t]), State(map[], Idle, [map[i.cg := 1], map[]]),
                      Flight(map[], map[], map[])))
  {
    var none: Table, t: Table, u: Table := map[], map[i.cg := c.now - i.now], map[i.cg := 1];
    var f, dl, dc := Flight(none, none, none), DRAIN_LAT, DRAIN_IO;
    var d1 := Disk(State(none, Idle, [none]), State(none, Idle, []), f);
    var last := Disk(State(none, Idle, [none, t]), State(none, Idle, [u, none]), f);
    var drains := [dc] + ([dl] + ([dc] + []));
    DrainsPath(Disk(State(t, Idle, [none]), State(u, Idle, []), f), t, u);
    RequestPath(d1, i, c, drains, last);
    assert [] + [none] == [none];
    PathStep(View(BOOT), dl, d1, [i] + ([c] + drains), last);
    assert SplitPasses(i, c) == [dl] + ([i] + ([c] + drains));
  }

  /** Its count is in one pass and its latency in the next, which exports it as zero. */
  lemma LatencyLostToSplitDrain(i: Event, c: Event)
    requires Completes(i, c)
    ensures var es, ns := SplitPasses(i, c), c.now - i.now;
            && Valid(es, Go)
            && On(Run(es, Go), CDiskLat).windows == [map[], map[i.cg := ns]]
            && On(Run(es, Go), CDiskIo).windows == [map[i.cg := 1], map[]]
            && LatencyMs(ns, At(On(Run(es, Go), CDiskIo).windows[1], i.cg)) == 0.0
  {
    var t: Table, u: Table, none: Table := map[i.cg := c.now - i.now], map[i.cg := 1], map[];
    PassesPath(i, c);
    var last := Disk(State(none, Idle, [none, t]), State(none, Idle, [u, none]), Flight(none, none, none));
    PathIsRun([], SplitPasses(i, c), View(BOOT), last, SplitPasses(i, c));
  }

  /** That run is one the theorems above are about. */
  lemma LossIsInTurn(i: Event, c: Event)
    requires Completes(i, c)
    ensures Valid(SplitPasses(i, c), Go) && SplitDrained(SplitPasses(i, c)) && HadRoom(SplitPasses(i, c), Go, i.cg)
  {
    LatencyLostToSplitDrain(i, c);
    LossTurns(i, c);
    RoomWhenFew(SplitPasses(i, c), Go, {i.cg}, i.cg);
  }

  lemma LossTurns(i: Event, c: Event)
    requires Completes(i, c)
    ensures SplitDrained(SplitPasses(i, c)) && IssuedBy(SplitPasses(i, c), {i.cg})
  {
    var es := SplitPasses(i, c);
    assert After(es, DRAIN_LAT, 1) == 1 && After(es, DRAIN_IO, 1) == 0;
    assert After(es, DRAIN_LAT, 2) == 1 && After(es, DRAIN_IO, 2) == 0;
    assert After(es, DRAIN_LAT, 3) == 1 && After(es, DRAIN_IO, 3) == 0;
    assert After(es, DRAIN_LAT, 4) == 1 && After(es, DRAIN_IO, 4) == 4;
    assert After(es, DRAIN_LAT, 5) == 5 && After(es, DRAIN_IO, 5) == 4;
    forall n: nat | n < |es| ensures InTurn(es, n) {
      assert n == 0 || n == 1 || n == 2 || n == 3 || n == 4 || n == 5;
    }
  }
}
