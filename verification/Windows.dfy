/**
 What one window of one counter map holds. Every statement is about a single
 cgroup and reads the step sequence alone, so that it holds whatever the other
 cgroups do and however the drain is interleaved.
 */
module Windows {
  import opened CounterMap

  /** The step takes the cgroup out of the map. */
  predicate Removes(op: Op, k: nat) {
    op == Atomic || op == Delete(k)
  }

  predicate Hits(op: Op, k: nat) {
    op.Inc? && op.k == k
  }

  /** The cgroup is credited somewhere in [a, b). */
  predicate HitIn(ops: seq<Op>, a: nat, b: nat, k: nat)
    requires b <= |ops|
  {
    exists i | a <= i < b :: Hits(ops[i], k)
  }

  /** What it is credited in [a, b). */
  function SumIn(ops: seq<Op>, a: nat, b: nat, k: nat): nat
    requires b <= |ops|
  {
    if b <= a then 0 else SumIn(ops, a, b - 1, k) + if Hits(ops[b - 1], k) then ops[b - 1].d else 0
  }

  /** No credit to the cgroup ever met a full map. */
  predicate NeverRefused(ops: seq<Op>, mode: Mode, k: nat)
    requires Legal(ops, mode)
  {
    ops == [] ||
    var front, op := ops[..|ops| - 1], ops[|ops| - 1];
    NeverRefused(front, mode, k) && (Hits(op, k) ==> Room(Exec(front, mode).table, k, Capacity(mode)))
  }

  /** The last removal of the cgroup before `b` is the step before `a`; 0 stands for none. */
  predicate Since(ops: seq<Op>, a: nat, b: nat, k: nat) {
    && a <= b <= |ops|
    && (a == 0 || Removes(ops[a - 1], k))
    && forall i | a <= i < b :: !Removes(ops[i], k)
  }

  lemma TakeFront<T>(s: seq<T>, n: nat)
    requires n < |s|
    ensures s[..n + 1][..n] == s[..n] && s[..|s| - 1][..n] == s[..n]
  {
  }

  lemma {:induction false} PrefixLegal(ops: seq<Op>, mode: Mode, n: nat, k: nat)
    requires Legal(ops, mode) && n <= |ops|
    ensures Legal(ops[..n], mode)
    ensures NeverRefused(ops, mode, k) ==> NeverRefused(ops[..n], mode, k)
    ensures Exec(ops[..n], mode).windows <= Exec(ops, mode).windows
  {
    if n == |ops| {
      assert ops[..n] == ops;
    } else {
      PrefixLegal(ops[..|ops| - 1], mode, n, k);
      TakeFront(ops, n);
    }
  }

  lemma PrefixStep(ops: seq<Op>, mode: Mode, n: nat, k: nat)
    requires Legal(ops, mode) && n < |ops|
    ensures Legal(ops[..n], mode) && Legal(ops[..n + 1], mode) && Can(Exec(ops[..n], mode), ops[n])
    ensures Exec(ops[..n + 1], mode) == Step(Exec(ops[..n], mode), ops[n], mode)
    ensures NeverRefused(ops, mode, k) && Hits(ops[n], k) ==> Room(Exec(ops[..n], mode).table, k, Capacity(mode))
  {
    PrefixLegal(ops, mode, n + 1, k);
    TakeFront(ops, n);
  }

  /** The map holds `k` exactly if `hit`, with `sum` credited. */
  predicate Tells(t: Table, k: nat, hit: bool, sum: nat) {
    (k in t <==> hit) && At(t, k) == sum % U64
  }

  lemma CreditTells(t: Table, op: Op, mode: Mode, k: nat, hit: bool, sum: nat)
    requires op.Inc? && Tells(t, k, hit, sum) && (op.k == k ==> Room(t, k, Capacity(mode)))
    ensures Tells(Incr(t, op.k, op.d, Capacity(mode)), k, hit || op.k == k, sum + if op.k == k then op.d else 0)
  {
  }

  lemma StepTells(s: State, op: Op, mode: Mode, k: nat, hit: bool, sum: nat)
    requires Can(s, op) && Tells(s.table, k, hit, sum) && !Removes(op, k)
    requires Hits(op, k) ==> Room(s.table, k, Capacity(mode))
    ensures Tells(Step(s, op, mode).table, k, hit || Hits(op, k), sum + if Hits(op, k) then op.d else 0)
  {
    if op.Inc? {
      CreditTells(s.table, op, mode, k, hit, sum);
    }
  }

  lemma HitExtend(ops: seq<Op>, a: nat, b: nat, k: nat)
    requires a <= b < |ops|
    ensures HitIn(ops, a, b + 1, k) <==> HitIn(ops, a, b, k) || Hits(ops[b], k)
  {
  }

  /** The map holds a cgroup exactly if it was credited since it was last removed, and then exactly those credits. */
  lemma {:induction false} TableSince(ops: seq<Op>, mode: Mode, a: nat, b: nat, k: nat)
    requires Legal(ops, mode) && NeverRefused(ops, mode, k) && Since(ops, a, b, k)
    ensures Legal(ops[..b], mode)
    ensures Tells(Exec(ops[..b], mode).table, k, HitIn(ops, a, b, k), SumIn(ops, a, b, k))
  {
    if a < b {
      TableSince(ops, mode, a, b - 1, k);
      TableNext(ops, mode, a, b - 1, k);
    } else {
      TableAfterRemoval(ops, mode, a, k);
    }
  }

  lemma TableNext(ops: seq<Op>, mode: Mode, a: nat, b: nat, k: nat)
    requires Legal(ops, mode) && NeverRefused(ops, mode, k) && a <= b < |ops| && !Removes(ops[b], k)
    requires Legal(ops[..b], mode) && Tells(Exec(ops[..b], mode).table, k, HitIn(ops, a, b, k), SumIn(ops, a, b, k))
    ensures Legal(ops[..b + 1], mode)
    ensures Tells(Exec(ops[..b + 1], mode).table, k, HitIn(ops, a, b + 1, k), SumIn(ops, a, b + 1, k))
  {
    PrefixStep(ops, mode, b, k);
    HitExtend(ops, a, b, k);
    SumExtend(ops, a, b, k);
    NextTells(Exec(ops[..b], mode), ops[b], mode, k, HitIn(ops, a, b, k), SumIn(ops, a, b, k), HitIn(ops, a, b + 1, k),
              SumIn(ops, a, b + 1, k));
  }

  lemma NextTells(s: State, op: Op, mode: Mode, k: nat, hit: bool, sum: nat, hit': bool, sum': nat)
    requires Can(s, op) && Tells(s.table, k, hit, sum) && !Removes(op, k)
    requires Hits(op, k) ==> Room(s.table, k, Capacity(mode))
    requires hit' == (hit || Hits(op, k)) && sum' == sum + if Hits(op, k) then op.d else 0
    ensures Tells(Step(s, op, mode).table, k, hit', sum')
  {
    StepTells(s, op, mode, k, hit, sum);
  }

  lemma SumExtend(ops: seq<Op>, a: nat, b: nat, k: nat)
    requires a <= b < |ops|
    ensures SumIn(ops, a, b + 1, k) == SumIn(ops, a, b, k) + if Hits(ops[b], k) then ops[b].d else 0
  {
  }

  lemma TableAfterRemoval(ops: seq<Op>, mode: Mode, a: nat, k: nat)
    requires Legal(ops, mode) && a <= |ops| && (a == 0 || Removes(ops[a - 1], k))
    ensures Legal(ops[..a], mode)
    ensures Tells(Exec(ops[..a], mode).table, k, HitIn(ops, a, a, k), SumIn(ops, a, a, k))
  {
    PrefixLegal(ops, mode, a, k);
    if a > 0 {
      PrefixStep(ops, mode, a - 1, k);
      RemovedTells(Exec(ops[..a - 1], mode), ops[a - 1], mode, k);
    }
  }

  lemma RemovedTells(s: State, op: Op, mode: Mode, k: nat)
    requires Can(s, op) && Removes(op, k)
    ensures k !in Step(s, op, mode).table
  {
  }

  /** The window an uninterrupted drain at `p` hands over: what was credited since the drain before. */
  lemma WindowIsCredited(ops: seq<Op>, mode: Mode, a: nat, p: nat, k: nat)
    requires Legal(ops, mode) && NeverRefused(ops, mode, k) && Since(ops, a, p, k)
    requires p < |ops| && ops[p] == Atomic
    ensures Legal(ops[..p], mode)
    ensures var j := |Exec(ops[..p], mode).windows|;
            && j < |Exec(ops, mode).windows|
            && Tells(Exec(ops, mode).windows[j], k, HitIn(ops, a, p, k), SumIn(ops, a, p, k))
  {
    TableSince(ops, mode, a, p, k);
    PrefixStep(ops, mode, p, k);
    PrefixLegal(ops, mode, p + 1, k);
  }

  /** A drain in progress, from its first step to its last. */
  predicate Spans(ops: seq<Op>, b: nat, r: nat) {
    b < r < |ops| && ops[b] == Begin && ops[r] == Return && forall i | b < i < r :: ops[i] != Return
  }

  /** One step of a drain under way. */
  lemma SnapStep(s: State, op: Op, mode: Mode, k: nat)
    requires Can(s, op) && !s.phase.Idle? && op != Return
    ensures var t := Step(s, op, mode);
            && !t.phase.Idle? && t.windows == s.windows
            && (k in t.phase.snap <==> k in s.phase.snap || op == Read(k))
            && (k in s.phase.snap ==> t.phase.snap[k] == s.phase.snap[k])
  {
  }

  /** Between the two the drain is not idle, and its snapshot holds a cgroup exactly if it has read it. */
  lemma {:induction false} SnapWhile(ops: seq<Op>, mode: Mode, b: nat, n: nat, r: nat, k: nat)
    requires Legal(ops, mode) && Spans(ops, b, r) && b < n <= r
    ensures Legal(ops[..b], mode) && Legal(ops[..n], mode) && !Exec(ops[..n], mode).phase.Idle?
    ensures k in Exec(ops[..n], mode).phase.snap <==> Read(k) in ops[b..n]
    ensures Exec(ops[..n], mode).windows == Exec(ops[..b], mode).windows
  {
    PrefixStep(ops, mode, n - 1, k);
    InSlice(ops, b, n, Read(k));
    if n == b + 1 {
      BeginSnap(Exec(ops[..b], mode), mode, k);
    } else {
      SnapWhile(ops, mode, b, n - 1, r, k);
      SnapStep(Exec(ops[..n - 1], mode), ops[n - 1], mode, k);
    }
  }

  lemma InSlice<T>(s: seq<T>, b: nat, n: nat, x: T)
    requires b < n <= |s|
    ensures x in s[b..n] <==> x in s[b..n - 1] || x == s[n - 1]
  {
    assert s[b..n] == s[b..n - 1] + [s[n - 1]];
  }

  lemma BeginSnap(s: State, mode: Mode, k: nat)
    requires Can(s, Begin)
    ensures var t := Step(s, Begin, mode); !t.phase.Idle? && k !in t.phase.snap && t.windows == s.windows
  {
  }

  /** The drain under way has read `v` for the cgroup. */
  predicate Has(s: State, k: nat, v: nat) {
    !s.phase.Idle? && k in s.phase.snap && s.phase.snap[k] == v
  }

  lemma ReadHas(s: State, mode: Mode, k: nat)
    requires Can(s, Read(k))
    ensures k in s.table && Has(Step(s, Read(k), mode), k, s.table[k])
  {
  }

  lemma HasStep(s: State, op: Op, mode: Mode, k: nat, v: nat)
    requires Has(s, k, v) && Can(s, op) && op != Return
    ensures Has(Step(s, op, mode), k, v)
  {
    SnapStep(s, op, mode, k);
  }

  /** What the drain has read of a cgroup it keeps until it returns. */
  lemma {:induction false} SnapKept(ops: seq<Op>, mode: Mode, p: nat, n: nat, k: nat, v: nat)
    requires Legal(ops, mode) && p <= n <= |ops| && forall i | p <= i < n :: ops[i] != Return
    requires Legal(ops[..p], mode) && Has(Exec(ops[..p], mode), k, v)
    ensures Legal(ops[..n], mode) && Has(Exec(ops[..n], mode), k, v)
  {
    if p < n {
      SnapKept(ops, mode, p, n - 1, k, v);
      PrefixStep(ops, mode, n - 1, k);
      HasStep(Exec(ops[..n - 1], mode), ops[n - 1], mode, k, v);
    }
  }

  /** The window a key-by-key drain hands over: the cgroups it read, each with what it was credited from its last
      removal to that read, whatever the kernel did in between. */
  lemma WindowOfDrain(ops: seq<Op>, mode: Mode, b: nat, r: nat, a: nat, p: nat, k: nat)
    requires Legal(ops, mode) && NeverRefused(ops, mode, k) && Spans(ops, b, r)
    requires Read(k) in ops[b..r] ==> b < p < r && ops[p] == Read(k) && Since(ops, a, p, k)
    ensures Legal(ops[..r], mode)
    ensures var j := |Exec(ops[..r], mode).windows|;
            && j < |Exec(ops, mode).windows|
            && (k in Exec(ops, mode).windows[j] <==> Read(k) in ops[b..r])
            && (k in Exec(ops, mode).windows[j] ==>
                  HitIn(ops, a, p, k) && Exec(ops, mode).windows[j][k] == SumIn(ops, a, p, k) % U64)
  {
    SnapWhile(ops, mode, b, r, r, k);
    PrefixStep(ops, mode, r, k);
    PrefixLegal(ops, mode, r + 1, k);
    if Read(k) in ops[b..r] {
      PrefixStep(ops, mode, p, k);
      ReadHas(Exec(ops[..p], mode), mode, k);
      SnapKept(ops, mode, p + 1, r, k, Exec(ops[..p], mode).table[k]);
      TableSince(ops, mode, a, p, k);
    }
  }

  // ------------------------------------------- where a drain meets a cgroup

  /** A drain: from its first step to its last, or one step when nothing interrupts it. */
  datatype Span = Span(first: nat, last: nat)

  predicate IsDrain(ops: seq<Op>, d: Span) {
    Spans(ops, d.first, d.last) || (d.first == d.last < |ops| && ops[d.first] == Atomic)
  }

  /** The drain takes the cgroup, if it is there. */
  predicate Takes(ops: seq<Op>, d: Span, k: nat)
    requires IsDrain(ops, d)
  {
    ops[d.first] == Atomic || Read(k) in ops[d.first..d.last]
  }

  /** When the drain reads the cgroup; for one it does not read, when it starts. */
  function ReadPos(ops: seq<Op>, d: Span, k: nat): (p: nat)
    requires IsDrain(ops, d)
    ensures d.first <= p <= d.last && (p == d.last ==> ops[p] == Atomic)
    ensures p == d.first || ops[p] == Read(k)
    ensures Read(k) in ops[d.first..d.last] ==> d.first < p && ops[p] == Read(k)
  {
    LastIn(ops, d.first, d.last, Read(k))
  }

  function LastIn(ops: seq<Op>, a: nat, b: nat, op: Op): (p: nat)
    requires a <= b <= |ops|
    ensures a <= p <= b && (a < b ==> p < b) && (p == a || ops[p] == op)
    ensures op in ops[a..b] ==> p < b && ops[p] == op
  {
    if a == b then a
    else if ops[b - 1] == op then b - 1
    else
      InSlice(ops, a, b, op);
      LastIn(ops, a, b - 1, op)
  }

  /** The position after the cgroup's last removal before `n`; 0 when there is none. */
  function LastOut(ops: seq<Op>, n: nat, k: nat): (a: nat)
    requires n <= |ops|
    ensures Since(ops, a, n, k)
  {
    if n == 0 then 0 else if Removes(ops[n - 1], k) then n else LastOut(ops, n - 1, k)
  }

  lemma LastOutIs(ops: seq<Op>, a: nat, n: nat, k: nat)
    requires Since(ops, a, n, k)
    ensures LastOut(ops, n, k) == a
  {
  }

  lemma StillReading(s: State, op: Op, mode: Mode)
    requires Can(s, op) && !s.phase.Idle? && Step(s, op, mode).phase.Reading?
    ensures s.phase.Reading?
  {
  }

  /** A drain that is still reading has been reading since it began. */
  lemma {:induction false} ReadingSince(ops: seq<Op>, mode: Mode, b: nat, r: nat, n: nat, m: nat)
    requires Legal(ops, mode) && Spans(ops, b, r) && b < n <= m <= r
    requires Legal(ops[..m], mode) && Exec(ops[..m], mode).phase.Reading?
    ensures Legal(ops[..n], mode) && Exec(ops[..n], mode).phase.Reading?
    decreases m - n
  {
    if n < m {
      SnapWhile(ops, mode, b, m - 1, r, 0);
      PrefixStep(ops, mode, m - 1, 0);
      StillReading(Exec(ops[..m - 1], mode), ops[m - 1], mode);
      ReadingSince(ops, mode, b, r, n, m - 1);
    }
  }

  /** So nothing is removed until the drain has read the cgroup. */
  lemma KeptUntilRead(ops: seq<Op>, mode: Mode, d: Span, n: nat, k: nat)
    requires Legal(ops, mode) && IsDrain(ops, d) && d.first <= n < ReadPos(ops, d, k)
    ensures !Removes(ops[n], k)
  {
    var p := ReadPos(ops, d, k);
    if d.first < n {
      PrefixStep(ops, mode, p, k);
      ReadingSince(ops, mode, d.first, d.last, n, p);
      PrefixStep(ops, mode, n, k);
    }
  }

  // ------------------------------------------------------- when none refused

  /** Only cgroups of `ids` are ever credited. */
  predicate CreditsOnly(ops: seq<Op>, ids: set<nat>) {
    forall i | 0 <= i < |ops| :: ops[i].Inc? ==> ops[i].k in ids
  }

  lemma IncrWithin(t: Table, k: nat, d: nat, max: nat, ids: set<nat>)
    requires t.Keys <= ids && k in ids && |ids| <= max
    ensures Incr(t, k, d, max).Keys <= ids && Room(t, k, max)
  {
    if k !in t {
      assert t.Keys + {k} <= ids;
      Fewer(t.Keys + {k}, ids);
      assert |t.Keys + {k}| == |t| + 1;
    }
  }

  lemma Fewer(a: set<nat>, b: set<nat>)
    requires a <= b
    ensures |a| <= |b|
  {
    assert b == a + (b - a);
  }

  /** While no more cgroups are active than the map holds, nothing is refused. */
  lemma {:induction false} FewAreNeverRefused(ops: seq<Op>, mode: Mode, ids: set<nat>, k: nat)
    requires Legal(ops, mode) && CreditsOnly(ops, ids) && |ids| <= Capacity(mode)
    ensures NeverRefused(ops, mode, k) && Exec(ops, mode).table.Keys <= ids
  {
    if ops != [] {
      var front, op := ops[..|ops| - 1], ops[|ops| - 1];
      FewAreNeverRefused(front, mode, ids, k);
      if op.Inc? {
        IncrWithin(Exec(front, mode).table, op.k, op.d, Capacity(mode), ids);
      }
    }
  }
}
