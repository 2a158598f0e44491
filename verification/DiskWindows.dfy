/**
 The latency feature of one window: what the two disk maps, drained in turn,
 hold of a cgroup in each pass, and what becomes of their quotient.
 */
module DiskWindows {
  import opened CounterMap
  import opened DiskLedger
  import opened Kernel
  import opened Totals
  import opened Windows

  // ------------------------------------------------------ the latency mean

  /** `disk_io_latency_ms` of one cgroup in one window. */
  function LatencyMs(total: nat, n: nat): real {
    if n > 0 then total as real / n as real / 1000000.0 else 0.0
  }

  /** The mean times the count is the total, nanoseconds for nanoseconds. */
  predicate GivesBack(total: nat, n: nat) {
    LatencyMs(total, n) * n as real * 1000000.0 == total as real
  }

  /** The mean gives the total back exactly when a count was there to divide by, or nothing to divide. */
  lemma MeanExact(total: nat, n: nat)
    ensures GivesBack(total, n) <==> n > 0 || total == 0
  {
    if n > 0 {
      var q := total as real / n as real;
      assert q * n as real == total as real;
      assert q / 1000000.0 * 1000000.0 == q;
      assert LatencyMs(total, n) * n as real * 1000000.0 == (LatencyMs(total, n) * 1000000.0) * n as real;
    }
  }

  // -------------------------------------------- completions and the two maps

  lemma {:induction false} ValidPrefix(es: seq<Event>, mode: Mode, n: nat)
    requires Valid(es, mode) && n <= |es|
    ensures Valid(es[..n], mode)
    ensures forall s: Sig :: Ops(es[..n], mode, s) == Ops(es, mode, s)[..n]
  {
    if n < |es| {
      ValidPrefix(es[..|es| - 1], mode, n);
      TakeFront(es, n);
      forall s: Sig ensures Ops(es[..n], mode, s) == Ops(es, mode, s)[..n] {
        TakeOps(es, mode, s, n);
      }
    } else {
      assert es[..n] == es;
    }
  }

  lemma TakeOps(es: seq<Event>, mode: Mode, s: Sig, n: nat)
    requires Valid(es, mode) && n < |es|
    ensures Ops(es[..|es| - 1], mode, s)[..n] == Ops(es, mode, s)[..n]
  {
  }

  /** What each map sees of event `n`. */
  lemma OpAt(es: seq<Event>, mode: Mode, s: Sig, n: nat)
    requires Valid(es, mode) && n < |es|
    ensures Valid(es[..n], mode) && Ops(es, mode, s)[n] == OpOn(Run(es[..n], mode).flight, es[n], s)
    ensures es[n].Bump? ==> PlainSig(es[n].sig)
  {
    ValidPrefix(es, mode, n);
    ValidPrefix(es, mode, n + 1);
    TakeFront(es, n);
    assert Ops(es, mode, s)[..n + 1][n] == Ops(es, mode, s)[n];
  }

  /** What the map holds before event `n`. */
  function Window(es: seq<Event>, mode: Mode, s: Sig, n: nat): Table
    requires Valid(es, mode) && n <= |es|
  {
    ValidPrefix(es, mode, n);
    On(Run(es[..n], mode), s).table
  }

  /** A completion of `cg` in [a, b). */
  predicate CompletedIn(es: seq<Event>, mode: Mode, a: nat, b: nat, cg: nat)
    requires Valid(es, mode) && b <= |es|
  {
    HitIn(Ops(es, mode, CDiskIo), a, b, cg)
  }

  /** That is, a completion event that matches a request which `cg` issued. */
  lemma CompletedMeans(es: seq<Event>, mode: Mode, n: nat, cg: nat)
    requires Valid(es, mode) && n < |es|
    ensures Valid(es[..n], mode)
    ensures var f, e := Run(es[..n], mode).flight, es[n];
            CompletedIn(es, mode, n, n + 1, cg) <==> e.Complete? && Matched(f, e.sector) && f.cg[e.sector] == cg
  {
    OpAt(es, mode, CDiskIo, n);
    EnabledAt(es, mode, n);
    OnlyCompletions(Run(es[..n], mode).flight, es[n], cg);
    HitAt(Ops(es, mode, CDiskIo), n, cg);
  }

  lemma HitAt(ops: seq<Op>, n: nat, k: nat)
    requires n < |ops|
    ensures HitIn(ops, n, n + 1, k) <==> Hits(ops[n], k)
  {
  }

  lemma OnlyCompletions(f: Flight, e: Event, cg: nat)
    requires (e.Bump? ==> PlainSig(e.sig)) && (e.Drain? ==> !e.op.Inc?)
    ensures Hits(OpOn(f, e, CDiskIo), cg) <==> e.Complete? && Matched(f, e.sector) && f.cg[e.sector] == cg
    ensures Hits(OpOn(f, e, CDiskIo), cg) <==> Hits(OpOn(f, e, CDiskLat), cg)
    ensures Hits(OpOn(f, e, CDiskIo), cg) ==> OpOn(f, e, CDiskIo).d == 1
  {
  }

  /** Latency and count are credited together. */
  lemma CreditedTogether(es: seq<Event>, mode: Mode, a: nat, b: nat, cg: nat)
    requires Valid(es, mode) && b <= |es|
    ensures HitIn(Ops(es, mode, CDiskLat), a, b, cg) <==> CompletedIn(es, mode, a, b, cg)
  {
    forall n: nat | a <= n < b
      ensures Hits(Ops(es, mode, CDiskIo)[n], cg) <==> Hits(Ops(es, mode, CDiskLat)[n], cg)
    {
      TogetherAt(es, mode, n, cg);
    }
  }

  lemma TogetherAt(es: seq<Event>, mode: Mode, n: nat, cg: nat)
    requires Valid(es, mode) && n < |es|
    ensures Hits(Ops(es, mode, CDiskIo)[n], cg) <==> Hits(Ops(es, mode, CDiskLat)[n], cg)
    ensures Hits(Ops(es, mode, CDiskIo)[n], cg) ==> Ops(es, mode, CDiskIo)[n].d == 1
  {
    OpAt(es, mode, CDiskIo, n);
    OpAt(es, mode, CDiskLat, n);
    EnabledAt(es, mode, n);
    OnlyCompletions(Run(es[..n], mode).flight, es[n], cg);
  }

  lemma EnabledAt(es: seq<Event>, mode: Mode, n: nat)
    requires Valid(es, mode) && n < |es|
    ensures Valid(es[..n], mode) && (es[n].Bump? ==> PlainSig(es[n].sig)) && (es[n].Drain? ==> !es[n].op.Inc?)
  {
    ValidPrefix(es, mode, n);
    ValidPrefix(es, mode, n + 1);
    TakeFront(es, n);
    assert Enabled(Run(es[..n], mode), es[n]);
  }

  /** Neither map refused a credit to the cgroup for want of room. */
  predicate HadRoom(es: seq<Event>, mode: Mode, cg: nat)
    requires Valid(es, mode)
  {
    RoomIn(es, mode, CDiskLat, cg) && RoomIn(es, mode, CDiskIo, cg)
  }

  predicate RoomIn(es: seq<Event>, mode: Mode, s: Sig, cg: nat)
    requires Valid(es, mode)
  {
    Legal(Ops(es, mode, s), mode) && NeverRefused(Ops(es, mode, s), mode, cg)
  }

  lemma KeepsMap(f: Flight, e: Event, s: Sig, cg: nat)
    requires !(e.Drain? && e.sig == s)
    ensures !Removes(OpOn(f, e, s), cg)
  {
  }

  lemma WindowSince(es: seq<Event>, mode: Mode, s: Sig, a: nat, n: nat, cg: nat)
    requires Valid(es, mode) && Since(Ops(es, mode, s), a, n, cg)
    requires Legal(Ops(es, mode, s), mode) && NeverRefused(Ops(es, mode, s), mode, cg)
    ensures Tells(Window(es, mode, s, n), cg, HitIn(Ops(es, mode, s), a, n, cg), SumIn(Ops(es, mode, s), a, n, cg))
  {
    ValidPrefix(es, mode, n);
    Projection(es[..n], mode, s);
    TableSince(Ops(es, mode, s), mode, a, n, cg);
  }

  /** The disk counters are only ever credited to cgroups that issued a request. */
  lemma CreditsToIssuers(es: seq<Event>, mode: Mode, ids: set<nat>, s: Sig)
    requires Valid(es, mode) && IssuedBy(es, ids) && (s == CDiskLat || s == CDiskIo)
    ensures CreditsOnly(Ops(es, mode, s), ids)
  {
    forall n: nat | n < |es| && Ops(es, mode, s)[n].Inc? ensures Ops(es, mode, s)[n].k in ids {
      OpAt(es, mode, s, n);
      EnabledAt(es, mode, n);
      HoldsIssuers(es[..n], mode, ids);
      CreditsHeld(Run(es[..n], mode).flight, es[n], s, ids);
    }
  }

  predicate IssuedBy(es: seq<Event>, ids: set<nat>) {
    forall n | 0 <= n < |es| :: es[n].Issue? ==> es[n].cg in ids
  }

  predicate HeldBy(f: Flight, ids: set<nat>) {
    forall k | k in f.cg :: f.cg[k] in ids
  }

  lemma {:induction false} HoldsIssuers(es: seq<Event>, mode: Mode, ids: set<nat>)
    requires Valid(es, mode) && IssuedBy(es, ids)
    ensures HeldBy(Run(es, mode).flight, ids)
  {
    if es != [] {
      HoldsIssuers(es[..|es| - 1], mode, ids);
      HoldsStep(Run(es[..|es| - 1], mode).flight, es[|es| - 1], mode, ids);
    }
  }

  lemma HoldsStep(f: Flight, e: Event, mode: Mode, ids: set<nat>)
    requires HeldBy(f, ids) && (e.Issue? ==> e.cg in ids)
    ensures HeldBy(FlightAfter(f, e, mode), ids)
  {
  }

  lemma CreditsHeld(f: Flight, e: Event, s: Sig, ids: set<nat>)
    requires HeldBy(f, ids) && (s == CDiskLat || s == CDiskIo)
    requires (e.Bump? ==> PlainSig(e.sig)) && (e.Drain? ==> !e.op.Inc?)
    ensures OpOn(f, e, s).Inc? ==> OpOn(f, e, s).k in ids
  {
  }

  /** While no more cgroups issue requests than the map holds, there is room for each. */
  lemma RoomWhenFew(es: seq<Event>, mode: Mode, ids: set<nat>, cg: nat)
    requires Valid(es, mode) && IssuedBy(es, ids) && |ids| <= Capacity(mode)
    ensures HadRoom(es, mode, cg)
  {
    forall s | s == CDiskLat || s == CDiskIo ensures RoomIn(es, mode, s, cg) {
      Projection(es, mode, s);
      CreditsToIssuers(es, mode, ids, s);
      FewAreNeverRefused(Ops(es, mode, s), mode, ids, cg);
    }
  }

  // ----------------------------------------------------- what a drain hands over

  /** The window that a drain of map `s` hands over. */
  function Handed(es: seq<Event>, mode: Mode, s: Sig, d: Span): Table
    requires Valid(es, mode) && IsDrain(Ops(es, mode, s), d)
  {
    HandedIndex(es, mode, s, d);
    On(Run(es, mode), s).windows[|On(Run(es[..d.last], mode), s).windows|]
  }

  lemma HandedIndex(es: seq<Event>, mode: Mode, s: Sig, d: Span)
    requires Valid(es, mode) && IsDrain(Ops(es, mode, s), d)
    ensures Valid(es[..d.last], mode)
    ensures |On(Run(es[..d.last], mode), s).windows| < |On(Run(es, mode), s).windows|
  {
    Projections(es, mode, s, d.last);
    HandOverAt(Ops(es, mode, s), mode, d);
  }

  lemma Projections(es: seq<Event>, mode: Mode, s: Sig, n: nat)
    requires Valid(es, mode) && n <= |es|
    ensures Valid(es[..n], mode) && Legal(Ops(es, mode, s), mode) && Legal(Ops(es, mode, s)[..n], mode)
    ensures On(Run(es, mode), s) == Exec(Ops(es, mode, s), mode)
    ensures On(Run(es[..n], mode), s) == Exec(Ops(es, mode, s)[..n], mode)
  {
    ValidPrefix(es, mode, n);
    Projection(es, mode, s);
    Projection(es[..n], mode, s);
  }

  /** The last step of a drain adds its window. */
  lemma HandsOver(s: State, op: Op, mode: Mode)
    requires Can(s, op) && (op == Return || op == Atomic)
    ensures Step(s, op, mode).windows == s.windows + [if op == Return then s.phase.snap else s.table]
  {
  }

  lemma HandOverAt(ops: seq<Op>, mode: Mode, d: Span)
    requires Legal(ops, mode) && IsDrain(ops, d)
    ensures Legal(ops[..d.last], mode) && Can(Exec(ops[..d.last], mode), ops[d.last])
    ensures var s, all := Exec(ops[..d.last], mode), Exec(ops, mode).windows;
            && |s.windows| < |all|
            && all[|s.windows|] == if ops[d.last] == Return then s.phase.snap else s.table
  {
    PrefixStep(ops, mode, d.last, 0);
    PrefixLegal(ops, mode, d.last + 1, 0);
    HandsOver(Exec(ops[..d.last], mode), ops[d.last], mode);
  }

  /** A drain hands over what the map held of a cgroup when it was read, and nothing of one it did not read; an
      uninterrupted drain hands over the map. */
  lemma HandedOver(es: seq<Event>, mode: Mode, s: Sig, d: Span, cg: nat)
    requires Valid(es, mode) && IsDrain(Ops(es, mode, s), d)
    ensures var w, at := Handed(es, mode, s, d), Window(es, mode, s, ReadPos(Ops(es, mode, s), d, cg));
            && w in On(Run(es, mode), s).windows
            && SameFor(w, at, cg, Takes(Ops(es, mode, s), d, cg))
  {
    var ops := Ops(es, mode, s);
    Projections(es, mode, s, d.last);
    Projections(es, mode, s, ReadPos(ops, d, cg));
    HandedWindow(ops, mode, d, cg);
  }

  /** The window holds the cgroup exactly if it was taken from the map, and then as the map did. */
  predicate SameFor(w: Table, at: Table, k: nat, taken: bool) {
    (k in w <==> k in at && taken) && (k in w ==> w[k] == at[k])
  }

  lemma HandedWindow(ops: seq<Op>, mode: Mode, d: Span, k: nat)
    requires Legal(ops, mode) && IsDrain(ops, d)
    ensures Legal(ops[..d.last], mode) && Legal(ops[..ReadPos(ops, d, k)], mode)
    ensures |Exec(ops[..d.last], mode).windows| < |Exec(ops, mode).windows|
    ensures SameFor(Exec(ops, mode).windows[|Exec(ops[..d.last], mode).windows|],
                    Exec(ops[..ReadPos(ops, d, k)], mode).table, k, Takes(ops, d, k))
  {
    HandOverAt(ops, mode, d);
    PrefixLegal(ops, mode, ReadPos(ops, d, k), k);
    if ops[d.last] == Return {
      HandedSnap(ops, mode, d, k);
    }
  }

  lemma HandedSnap(ops: seq<Op>, mode: Mode, d: Span, k: nat)
    requires Legal(ops, mode) && Spans(ops, d.first, d.last)
    ensures Legal(ops[..d.last], mode) && !Exec(ops[..d.last], mode).phase.Idle?
    ensures Legal(ops[..ReadPos(ops, d, k)], mode)
    ensures SameFor(Exec(ops[..d.last], mode).phase.snap, Exec(ops[..ReadPos(ops, d, k)], mode).table, k,
                    Takes(ops, d, k))
  {
    var p := ReadPos(ops, d, k);
    SnapWhile(ops, mode, d.first, d.last, d.last, k);
    PrefixLegal(ops, mode, p, k);
    if Takes(ops, d, k) {
      PrefixStep(ops, mode, p, k);
      ReadHas(Exec(ops[..p], mode), mode, k);
      SnapKept(ops, mode, p + 1, d.last, k, Exec(ops[..p], mode).table[k]);
    }
  }

  /** The drain reads the cgroup if the map holds it when the drain begins, as every map iteration does. */
  predicate TakesHeld(es: seq<Event>, mode: Mode, s: Sig, d: Span, cg: nat)
    requires Valid(es, mode) && IsDrain(Ops(es, mode, s), d)
  {
    cg in Window(es, mode, s, d.first) ==> Takes(Ops(es, mode, s), d, cg)
  }

  /** What it hands over of a cgroup: the credits from the last removal to the read. */
  lemma HandedTells(es: seq<Event>, mode: Mode, s: Sig, d: Span, cg: nat)
    requires Valid(es, mode) && IsDrain(Ops(es, mode, s), d) && TakesHeld(es, mode, s, d, cg)
    requires RoomIn(es, mode, s, cg)
    ensures var p := ReadPos(Ops(es, mode, s), d, cg);
            var a := LastOut(Ops(es, mode, s), p, cg);
            Tells(Handed(es, mode, s, d), cg, HitIn(Ops(es, mode, s), a, p, cg), SumIn(Ops(es, mode, s), a, p, cg))
  {
    var ops, p := Ops(es, mode, s), ReadPos(Ops(es, mode, s), d, cg);
    var a := LastOut(ops, p, cg);
    HandedOver(es, mode, s, d, cg);
    HeldWhenRead(es, mode, s, d, cg);
    WindowSince(es, mode, s, a, p, cg);
    SameTells(Window(es, mode, s, p), Handed(es, mode, s, d), cg, HitIn(ops, a, p, cg), SumIn(ops, a, p, cg),
              Takes(ops, d, cg));
  }

  lemma HeldWhenRead(es: seq<Event>, mode: Mode, s: Sig, d: Span, cg: nat)
    requires Valid(es, mode) && IsDrain(Ops(es, mode, s), d) && TakesHeld(es, mode, s, d, cg)
    ensures cg in Window(es, mode, s, ReadPos(Ops(es, mode, s), d, cg)) ==> Takes(Ops(es, mode, s), d, cg)
  {
    NotTaken(Ops(es, mode, s), d, cg);
  }

  lemma NotTaken(ops: seq<Op>, d: Span, k: nat)
    requires IsDrain(ops, d)
    ensures !Takes(ops, d, k) ==> ReadPos(ops, d, k) == d.first
  {
    var p := ReadPos(ops, d, k);
    if p != d.first {
      assert ops[d.first..d.last][p - d.first] == ops[p];
    }
  }

  lemma SameTells(at: Table, w: Table, k: nat, hit: bool, sum: nat, taken: bool)
    requires Tells(at, k, hit, sum) && SameFor(w, at, k, taken) && (k in at ==> taken)
    ensures Tells(w, k, hit, sum)
  {
  }

  // ------------------------------------------------------------- credits in a span

  lemma HitSplit(ops: seq<Op>, a: nat, b: nat, c: nat, k: nat)
    requires a <= b <= c <= |ops|
    ensures HitIn(ops, a, c, k) <==> HitIn(ops, a, b, k) || HitIn(ops, b, c, k)
  {
  }

  lemma {:induction false} SumSplit(ops: seq<Op>, a: nat, b: nat, c: nat, k: nat)
    requires a <= b <= c <= |ops|
    ensures SumIn(ops, a, c, k) == SumIn(ops, a, b, k) + SumIn(ops, b, c, k)
  {
    if b < c {
      SumSplit(ops, a, b, c - 1, k);
    }
  }

  lemma {:induction false} NoHitNoSum(ops: seq<Op>, a: nat, b: nat, k: nat)
    requires a <= b <= |ops| && !HitIn(ops, a, b, k)
    ensures SumIn(ops, a, b, k) == 0
  {
    if a < b {
      assert !Hits(ops[b - 1], k);
      NoHitNoSum(ops, a, b - 1, k);
    }
  }

  lemma {:induction false} SumWithinTotal(ops: seq<Op>, a: nat, b: nat, k: nat)
    requires a <= b <= |ops|
    ensures SumIn(ops, a, b, k) <= TotalInc(ops[..b])
  {
    if a < b {
      SumWithinTotal(ops, a, b - 1, k);
      assert ops[..b][..b - 1] == ops[..b - 1];
    }
  }

  lemma {:induction false} TotalGrows(ops: seq<Op>, n: nat)
    requires n <= |ops|
    ensures TotalInc(ops[..n]) <= TotalInc(ops)
  {
    if n == |ops| {
      assert ops[..n] == ops;
    } else {
      TotalGrows(ops[..|ops| - 1], n);
      TakeFront(ops, n);
    }
  }

  /** Completions are counted one by one, and never more than there were. */
  lemma CountInPass(es: seq<Event>, mode: Mode, a: nat, b: nat, cg: nat)
    requires Valid(es, mode) && a <= b <= |es|
    ensures SumIn(Ops(es, mode, CDiskIo), a, b, cg) <= TallyOf(es, mode).matched
    ensures CompletedIn(es, mode, a, b, cg) ==> SumIn(Ops(es, mode, CDiskIo), a, b, cg) > 0
  {
    var io := Ops(es, mode, CDiskIo);
    SumWithinTotal(io, a, b, cg);
    TotalGrows(io, b);
    CountIsMatched(es, mode);
    if CompletedIn(es, mode, a, b, cg) {
      var n: nat :| a <= n < b && Hits(io[n], cg);
      TogetherAt(es, mode, n, cg);
      SumHas(io, a, n, b, cg);
    }
  }

  lemma SumHas(ops: seq<Op>, a: nat, n: nat, b: nat, k: nat)
    requires a <= n < b <= |ops| && Hits(ops[n], k)
    ensures SumIn(ops, a, b, k) >= ops[n].d
  {
    SumSplit(ops, a, n, b, k);
    SumSplit(ops, n, n + 1, b, k);
  }

  /** The exported value, from what the count window tells. */
  lemma ExportTold(total: nat, io: Table, cg: nat, hit: bool, sum: nat)
    requires Tells(io, cg, hit, sum) && sum < U64 && (hit ==> sum > 0)
    ensures At(io, cg) == if hit then sum else 0
    ensures GivesBack(total, At(io, cg)) <==> cg in io || total == 0
    ensures cg !in io ==> LatencyMs(total, At(io, cg)) == 0.0
  {
    MeanExact(total, At(io, cg));
  }

  lemma MeanTold(lat: Table, io: Table, cg: nat, hit: bool, total: nat, n: nat)
    requires Tells(lat, cg, hit, total) && Tells(io, cg, hit, n) && n < U64 && (hit ==> n > 0)
    ensures (cg in lat <==> hit) && (cg in io <==> cg in lat)
    ensures At(lat, cg) == total % U64 && At(io, cg) == n && GivesBack(At(lat, cg), At(io, cg))
  {
    ExportTold(At(lat, cg), io, cg, hit, n);
  }

  lemma SkipFront(ops: seq<Op>, a: nat, b: nat, c: nat, k: nat)
    requires a <= b <= c <= |ops| && !HitIn(ops, a, b, k)
    ensures HitIn(ops, a, c, k) == HitIn(ops, b, c, k) && SumIn(ops, a, c, k) == SumIn(ops, b, c, k)
  {
    HitSplit(ops, a, b, c, k);
    SumSplit(ops, a, b, c, k);
    NoHitNoSum(ops, a, b, k);
  }

  lemma SkipBack(ops: seq<Op>, a: nat, b: nat, c: nat, k: nat)
    requires a <= b <= c <= |ops| && !HitIn(ops, b, c, k)
    ensures HitIn(ops, a, c, k) == HitIn(ops, a, b, k) && SumIn(ops, a, c, k) == SumIn(ops, a, b, k)
  {
    HitSplit(ops, a, b, c, k);
    SumSplit(ops, a, b, c, k);
    NoHitNoSum(ops, b, c, k);
  }

  // -------------------------------------------------------------------- passes

  /** One pass: a drain of the latency map and the drain of the count map after it. */
  datatype Pass = Pass(lat: Span, io: Span)

  /** From the start of the one to the start of the other the count map is not drained, and by then latency has been
      read. That is so of the Go collector, which ends the one drain before it begins the other, and of the Python
      one, which reads both maps and then clears both. */
  predicate IsPass(es: seq<Event>, mode: Mode, d: Pass)
    requires Valid(es, mode)
  {
    && IsDrain(Ops(es, mode, CDiskLat), d.lat) && IsDrain(Ops(es, mode, CDiskIo), d.io)
    && d.lat.first < d.io.first
    && (forall n | d.lat.first <= n < d.io.first :: es[n].Drain? ==> es[n].sig != CDiskIo)
    && (forall n | d.io.first <= n < d.lat.last :: es[n].Drain? && es[n].sig == CDiskLat ==> !es[n].op.Read?)
  }

  /** Neither map refused the cgroup, and neither drain passed over it. */
  predicate Counted(es: seq<Event>, mode: Mode, d: Pass, cg: nat)
    requires Valid(es, mode) && IsPass(es, mode, d)
  {
    && HadRoom(es, mode, cg)
    && TakesHeld(es, mode, CDiskLat, d.lat, cg) && TakesHeld(es, mode, CDiskIo, d.io, cg)
  }

  /** Where a pass cuts the run for a cgroup: after its last removal from the latency map and from the count map, and
      where it is read from the one and from the other. */
  datatype Cut = Cut(a: nat, b: nat, p: nat, q: nat)

  function CutAt(es: seq<Event>, mode: Mode, d: Pass, cg: nat): Cut
    requires Valid(es, mode) && IsPass(es, mode, d)
  {
    var lat, io := Ops(es, mode, CDiskLat), Ops(es, mode, CDiskIo);
    var p, q := ReadPos(lat, d.lat, cg), ReadPos(io, d.io, cg);
    Cut(LastOut(lat, p, cg), LastOut(io, q, cg), p, q)
  }

  /** The count map has lost the cgroup, if at all, before it is read from the latency map. */
  lemma CutInOrder(es: seq<Event>, mode: Mode, d: Pass, cg: nat)
    requires Valid(es, mode) && IsPass(es, mode, d)
    ensures var c := CutAt(es, mode, d, cg); c.a <= c.p <= c.q <= |es| && c.b <= c.p
    ensures var c := CutAt(es, mode, d, cg);
            Since(Ops(es, mode, CDiskLat), c.a, c.p, cg) && Since(Ops(es, mode, CDiskIo), c.b, c.q, cg)
  {
    var lat, io, c := Ops(es, mode, CDiskLat), Ops(es, mode, CDiskIo), CutAt(es, mode, d, cg);
    LatReadFirst(es, mode, d, cg);
    forall n | c.p <= n < c.q ensures !Removes(io[n], cg) {
      NotRemoved(es, mode, d, cg, n);
    }
    SinceBefore(io, c.b, c.q, c.p, cg);
  }

  lemma SinceBefore(ops: seq<Op>, a: nat, n: nat, p: nat, k: nat)
    requires Since(ops, a, n, k) && p <= n && forall i | p <= i < n :: !Removes(ops[i], k)
    ensures a <= p
  {
  }

  lemma LatReadFirst(es: seq<Event>, mode: Mode, d: Pass, cg: nat)
    requires Valid(es, mode) && IsPass(es, mode, d)
    ensures d.lat.first <= CutAt(es, mode, d, cg).p < d.io.first <= CutAt(es, mode, d, cg).q < |es|
  {
    var p := CutAt(es, mode, d, cg).p;
    if d.lat.first < p {
      OpAt(es, mode, CDiskLat, p);
      OnlyDrainsRead(Run(es[..p], mode).flight, es[p], CDiskLat, cg);
    }
  }

  lemma OnlyDrainsRead(f: Flight, e: Event, s: Sig, cg: nat)
    requires OpOn(f, e, s) == Read(cg)
    ensures e.Drain? && e.sig == s && e.op.Read?
  {
  }

  lemma NotRemoved(es: seq<Event>, mode: Mode, d: Pass, cg: nat, n: nat)
    requires Valid(es, mode) && IsPass(es, mode, d) && d.lat.first <= n < CutAt(es, mode, d, cg).q
    ensures !Removes(Ops(es, mode, CDiskIo)[n], cg)
  {
    if n < d.io.first {
      OpAt(es, mode, CDiskIo, n);
      KeepsMap(Run(es[..n], mode).flight, es[n], CDiskIo, cg);
    } else {
      Projection(es, mode, CDiskIo);
      KeptUntilRead(Ops(es, mode, CDiskIo), mode, d.io, n, cg);
    }
  }

  /** Both windows of a pass, from the completions alone: the latency window holds those from `a` to `p`, the count
      window those from `b` to `q`. */
  lemma PassHolds(es: seq<Event>, mode: Mode, d: Pass, cg: nat)
    requires Valid(es, mode) && IsPass(es, mode, d) && Counted(es, mode, d, cg)
    ensures var c := CutAt(es, mode, d, cg);
            && c.a <= c.p <= c.q <= |es| && c.b <= c.p
            && Tells(Handed(es, mode, CDiskLat, d.lat), cg, CompletedIn(es, mode, c.a, c.p, cg),
                     SumIn(Ops(es, mode, CDiskLat), c.a, c.p, cg))
            && Tells(Handed(es, mode, CDiskIo, d.io), cg, CompletedIn(es, mode, c.b, c.q, cg),
                     SumIn(Ops(es, mode, CDiskIo), c.b, c.q, cg))
  {
    var c := CutAt(es, mode, d, cg);
    CutInOrder(es, mode, d, cg);
    HandedTells(es, mode, CDiskLat, d.lat, cg);
    HandedTells(es, mode, CDiskIo, d.io, cg);
    CreditedTogether(es, mode, c.a, c.p, cg);
  }

  /** Completions split at any of the four places. */
  lemma CutSplits(es: seq<Event>, mode: Mode, c: Cut, cg: nat)
    requires Valid(es, mode) && c.a <= c.p <= c.q <= |es| && c.b <= c.p
    ensures CompletedIn(es, mode, c.a, c.p, cg) && !CompletedIn(es, mode, c.b, c.q, cg) <==>
            CompletedIn(es, mode, c.a, c.b, cg) && !CompletedIn(es, mode, c.b, c.q, cg)
    ensures CompletedIn(es, mode, c.b, c.q, cg) && !CompletedIn(es, mode, c.a, c.p, cg) <==>
            (CompletedIn(es, mode, c.b, c.a, cg) || CompletedIn(es, mode, c.p, c.q, cg))
            && !CompletedIn(es, mode, c.a, c.p, cg)
  {
    var io := Ops(es, mode, CDiskIo);
    HitSplit(io, c.b, c.p, c.q, cg);
    if c.a <= c.b {
      HitSplit(io, c.a, c.b, c.p, cg);
    } else {
      HitSplit(io, c.b, c.a, c.p, cg);
    }
  }

  /** In every pass of every run, whatever the kernel does between any two steps of the drains: a cgroup is in the
      latency window and missing from the count window, and so exported as zero, exactly if it completed a request
      after its last removal from the latency map and before its last removal from the count map, and none from then
      until it is looked for in the count map. It is in the count window only, exactly if it completed one while it
      was out of the latency map but not of the count map, or between the two reads, and none in the latency window. */
  lemma MissingIff(es: seq<Event>, mode: Mode, d: Pass, cg: nat)
    requires Valid(es, mode) && IsPass(es, mode, d) && Counted(es, mode, d, cg)
    ensures var c := CutAt(es, mode, d, cg);
            var lat, io := Handed(es, mode, CDiskLat, d.lat), Handed(es, mode, CDiskIo, d.io);
            && c.a <= c.p <= c.q <= |es| && c.b <= c.p
            && (cg in lat && cg !in io <==>
                  CompletedIn(es, mode, c.a, c.b, cg) && !CompletedIn(es, mode, c.b, c.q, cg))
            && (cg in io && cg !in lat <==>
                  (CompletedIn(es, mode, c.b, c.a, cg) || CompletedIn(es, mode, c.p, c.q, cg))
                  && !CompletedIn(es, mode, c.a, c.p, cg))
  {
    PassHolds(es, mode, d, cg);
    CutSplits(es, mode, CutAt(es, mode, d, cg), cg);
  }

  /** What a pass exports of a cgroup in its latency window: the mean gives the total back exactly if the cgroup is in
      the count window too, or there was nothing to divide; otherwise it is zero. */
  lemma ExportedExact(es: seq<Event>, mode: Mode, d: Pass, cg: nat)
    requires Valid(es, mode) && IsPass(es, mode, d) && Counted(es, mode, d, cg)
    requires TallyOf(es, mode).matched < U64
    requires cg in Handed(es, mode, CDiskLat, d.lat)
    ensures var lat, io := Handed(es, mode, CDiskLat, d.lat), Handed(es, mode, CDiskIo, d.io);
            && (GivesBack(lat[cg], At(io, cg)) <==> cg in io || lat[cg] == 0)
            && (cg !in io ==> LatencyMs(lat[cg], At(io, cg)) == 0.0)
  {
    var c, io := CutAt(es, mode, d, cg), Handed(es, mode, CDiskIo, d.io);
    PassHolds(es, mode, d, cg);
    CountInPass(es, mode, c.b, c.q, cg);
    ExportTold(Handed(es, mode, CDiskLat, d.lat)[cg], io, cg, CompletedIn(es, mode, c.b, c.q, cg),
               SumIn(Ops(es, mode, CDiskIo), c.b, c.q, cg));
  }

  /** The pass misses the cgroup on neither side. */
  predicate Evened(es: seq<Event>, mode: Mode, d: Pass, cg: nat)
    requires Valid(es, mode) && IsPass(es, mode, d)
  {
    CutInOrder(es, mode, d, cg);
    var c := CutAt(es, mode, d, cg);
    && (CompletedIn(es, mode, c.a, c.b, cg) ==> CompletedIn(es, mode, c.b, c.q, cg))
    && (CompletedIn(es, mode, c.b, c.a, cg) || CompletedIn(es, mode, c.p, c.q, cg) ==>
          CompletedIn(es, mode, c.a, c.p, cg))
  }

  /** The two windows of a pass name the same cgroups exactly if no cgroup is missing on either side. */
  lemma SplitDrainAgreesIff(es: seq<Event>, mode: Mode, d: Pass)
    requires Valid(es, mode) && IsPass(es, mode, d) && forall cg :: Counted(es, mode, d, cg)
    ensures Handed(es, mode, CDiskLat, d.lat).Keys == Handed(es, mode, CDiskIo, d.io).Keys <==>
            forall cg: nat :: Evened(es, mode, d, cg)
  {
    var lat, io := Handed(es, mode, CDiskLat, d.lat), Handed(es, mode, CDiskIo, d.io);
    forall cg: nat ensures (cg in lat <==> cg in io) <==> Evened(es, mode, d, cg) {
      MissingIff(es, mode, d, cg);
    }
  }

  /** The cgroup completed nothing between its last removals from the two maps, nor between the two reads. */
  predicate Undivided(es: seq<Event>, mode: Mode, d: Pass, cg: nat)
    requires Valid(es, mode) && IsPass(es, mode, d)
  {
    CutInOrder(es, mode, d, cg);
    var c := CutAt(es, mode, d, cg);
    && !CompletedIn(es, mode, c.a, c.b, cg) && !CompletedIn(es, mode, c.b, c.a, cg)
    && !CompletedIn(es, mode, c.p, c.q, cg)
  }

  /** Where the cgroup has been out of both maps. */
  function Outset(c: Cut): nat {
    if c.a < c.b then c.b else c.a
  }

  /** Then both windows are over the same completions, the exported value is their average, and the average times their
      number is their total. */
  lemma MeanTimesCount(es: seq<Event>, mode: Mode, d: Pass, cg: nat)
    requires Valid(es, mode) && IsPass(es, mode, d) && Counted(es, mode, d, cg)
    requires Undivided(es, mode, d, cg) && TallyOf(es, mode).matched < U64
    ensures var c := CutAt(es, mode, d, cg);
            var lat, io, m := Handed(es, mode, CDiskLat, d.lat), Handed(es, mode, CDiskIo, d.io), Outset(c);
            && m <= c.p <= |es|
            && (cg in lat <==> CompletedIn(es, mode, m, c.p, cg)) && (cg in io <==> cg in lat)
            && At(lat, cg) == SumIn(Ops(es, mode, CDiskLat), m, c.p, cg) % U64
            && At(io, cg) == SumIn(Ops(es, mode, CDiskIo), m, c.p, cg)
            && (cg in io ==> io[cg] > 0)
            && GivesBack(At(lat, cg), At(io, cg))
  {
    var c := CutAt(es, mode, d, cg);
    var m := Outset(c);
    UndividedHolds(es, mode, d, cg);
    CountInPass(es, mode, m, c.p, cg);
    MeanTold(Handed(es, mode, CDiskLat, d.lat), Handed(es, mode, CDiskIo, d.io), cg,
             CompletedIn(es, mode, m, c.p, cg), SumIn(Ops(es, mode, CDiskLat), m, c.p, cg),
             SumIn(Ops(es, mode, CDiskIo), m, c.p, cg));
  }

  lemma UndividedHolds(es: seq<Event>, mode: Mode, d: Pass, cg: nat)
    requires Valid(es, mode) && IsPass(es, mode, d) && Counted(es, mode, d, cg) && Undivided(es, mode, d, cg)
    ensures var c := CutAt(es, mode, d, cg);
            && Outset(c) <= c.p <= |es|
            && Tells(Handed(es, mode, CDiskLat, d.lat), cg, CompletedIn(es, mode, Outset(c), c.p, cg),
                     SumIn(Ops(es, mode, CDiskLat), Outset(c), c.p, cg))
            && Tells(Handed(es, mode, CDiskIo, d.io), cg, CompletedIn(es, mode, Outset(c), c.p, cg),
                     SumIn(Ops(es, mode, CDiskIo), Outset(c), c.p, cg))
  {
    var c := CutAt(es, mode, d, cg);
    PassHolds(es, mode, d, cg);
    SameCompletions(es, mode, c, cg);
  }

  lemma SameCompletions(es: seq<Event>, mode: Mode, c: Cut, cg: nat)
    requires Valid(es, mode) && c.a <= c.p <= c.q <= |es| && c.b <= c.p
    requires !CompletedIn(es, mode, c.a, c.b, cg) && !CompletedIn(es, mode, c.b, c.a, cg)
    requires !CompletedIn(es, mode, c.p, c.q, cg)
    ensures CompletedIn(es, mode, c.a, c.p, cg) == CompletedIn(es, mode, Outset(c), c.p, cg)
    ensures CompletedIn(es, mode, c.b, c.q, cg) == CompletedIn(es, mode, Outset(c), c.p, cg)
    ensures SumIn(Ops(es, mode, CDiskLat), c.a, c.p, cg) == SumIn(Ops(es, mode, CDiskLat), Outset(c), c.p, cg)
    ensures SumIn(Ops(es, mode, CDiskIo), c.b, c.q, cg) == SumIn(Ops(es, mode, CDiskIo), Outset(c), c.p, cg)
  {
    var lat, io, m := Ops(es, mode, CDiskLat), Ops(es, mode, CDiskIo), Outset(c);
    CreditedTogether(es, mode, c.a, m, cg);
    SkipFront(lat, c.a, m, c.p, cg);
    SkipFront(io, c.a, m, c.p, cg);
    SkipBack(io, c.b, c.p, c.q, cg);
    SkipFront(io, c.b, m, c.p, cg);
  }

  /** If that is so of every cgroup, the two windows name the same cgroups and every count is positive. */
  lemma PairStaysTwins(es: seq<Event>, mode: Mode, d: Pass)
    requires Valid(es, mode) && IsPass(es, mode, d)
    requires forall cg :: Counted(es, mode, d, cg) && Undivided(es, mode, d, cg)
    requires TallyOf(es, mode).matched < U64
    ensures var lat, io := Handed(es, mode, CDiskLat, d.lat), Handed(es, mode, CDiskIo, d.io);
            lat.Keys == io.Keys && forall cg | cg in io :: io[cg] > 0
  {
    var lat, io := Handed(es, mode, CDiskLat, d.lat), Handed(es, mode, CDiskIo, d.io);
    forall cg: nat ensures (cg in lat <==> cg in io) && (cg in io ==> io[cg] > 0) {
      MeanTimesCount(es, mode, d, cg);
    }
  }
}
