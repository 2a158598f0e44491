/**
 The userspace side of one drain, `drainMap` of collector-go/main.go and the
 read-then-clear of collector/ebpf_collector.py, as code that the kernel
 interrupts between any two of its steps. A log of steps ties it to the
 transition system of one counter map.
 */
module Drains {
  import opened CounterMap
  import opened Kernel
  import opened Windows

  // ------------------------------------------------------------------ log

  /** Every step each counter map has seen. */
  type Log = map<Sig, seq<Op>>

  function LogOf(log: Log, s: Sig): seq<Op> {
    if s in log then log[s] else []
  }

  function Noted(log: Log, s: Sig, op: Op): Log {
    log[s := LogOf(log, s) + [op]]
  }

  /** The maps are what the steps logged make of them. */
  ghost predicate Logged(log: Log, counters: map<Sig, Table>, mode: Mode) {
    forall s: Sig :: Legal(LogOf(log, s), mode) && Exec(LogOf(log, s), mode).table == Of(counters, s)
  }

  function StateOf(log: Log, s: Sig, mode: Mode): State
    requires Legal(LogOf(log, s), mode)
  {
    Exec(LogOf(log, s), mode)
  }

  lemma NotedOne(log: Log, s: Sig, op: Op, mode: Mode)
    requires Legal(LogOf(log, s), mode) && Can(StateOf(log, s, mode), op)
    ensures LogOf(Noted(log, s, op), s) == LogOf(log, s) + [op]
    ensures Legal(LogOf(Noted(log, s, op), s), mode)
    ensures StateOf(Noted(log, s, op), s, mode) == Step(StateOf(log, s, mode), op, mode)
  {
    CounterMap.Append(LogOf(log, s), op, mode, 0);
  }

  lemma NotedLogged(log: Log, counters: map<Sig, Table>, s: Sig, op: Op, mode: Mode, t: Table)
    requires Logged(log, counters, mode) && Can(StateOf(log, s, mode), op)
    requires t == Step(StateOf(log, s, mode), op, mode).table
    ensures Logged(Noted(log, s, op), counters[s := t], mode)
  {
    NotedOne(log, s, op, mode);
    forall s': Sig
      ensures Legal(LogOf(Noted(log, s, op), s'), mode)
      ensures Exec(LogOf(Noted(log, s, op), s'), mode).table == Of(counters[s := t], s')
    {
      if s' != s {
        assert LogOf(Noted(log, s, op), s') == LogOf(log, s');
      }
    }
  }

  /** One credit that lands while the drain is under way. */
  datatype Hit = Hit(sig: Sig, k: nat, d: nat)

  function NotedHits(log: Log, hits: seq<Hit>): Log {
    if hits == [] then log
    else
      var h := hits[|hits| - 1];
      Noted(NotedHits(log, hits[..|hits| - 1]), h.sig, Inc(h.k, h.d))
  }

  function Credited(counters: map<Sig, Table>, hits: seq<Hit>, mode: Mode): map<Sig, Table> {
    if hits == [] then counters
    else
      var h := hits[|hits| - 1];
      Credit(Credited(counters, hits[..|hits| - 1], mode), h.sig, h.k, h.d, mode)
  }

  /** What credits leave alone: no drain moves, and no cgroup disappears. */
  ghost predicate Undisturbed(a: seq<Op>, b: seq<Op>, mode: Mode) {
    && Legal(a, mode) && Legal(b, mode)
    && a <= b && (forall i | |a| <= i < |b| :: b[i].Inc?)
    && Exec(b, mode).phase == Exec(a, mode).phase && Exec(b, mode).windows == Exec(a, mode).windows
    && Exec(a, mode).table.Keys <= Exec(b, mode).table.Keys
  }

  lemma IncrGrows(t: Table, k: nat, d: nat, max: nat)
    ensures t.Keys <= Incr(t, k, d, max).Keys
  {
  }

  lemma IncUndisturbed(a: seq<Op>, b: seq<Op>, mode: Mode, k: nat, d: nat)
    requires Undisturbed(a, b, mode)
    ensures Undisturbed(a, b + [Inc(k, d)], mode)
  {
    CounterMap.Append(b, Inc(k, d), mode, 0);
    IncrGrows(Exec(b, mode).table, k, d, Capacity(mode));
  }

  lemma {:induction false} HitsUndisturbed(log: Log, mode: Mode, hits: seq<Hit>, s: Sig)
    requires Legal(LogOf(log, s), mode)
    ensures Undisturbed(LogOf(log, s), LogOf(NotedHits(log, hits), s), mode)
  {
    if hits != [] {
      var front, h := hits[..|hits| - 1], hits[|hits| - 1];
      HitsUndisturbed(log, mode, front, s);
      if h.sig == s {
        IncUndisturbed(LogOf(log, s), LogOf(NotedHits(log, front), s), mode, h.k, h.d);
      }
    }
  }

  lemma {:induction false} TableFits(ops: seq<Op>, mode: Mode)
    requires Legal(ops, mode)
    ensures |Exec(ops, mode).table| <= Capacity(mode)
  {
    if ops != [] {
      var s, op := Exec(ops[..|ops| - 1], mode), ops[|ops| - 1];
      TableFits(ops[..|ops| - 1], mode);
      StepFits(s, op, mode);
    }
  }

  lemma StepFits(s: State, op: Op, mode: Mode)
    requires Can(s, op) && |s.table| <= Capacity(mode)
    ensures |Step(s, op, mode).table| <= Capacity(mode)
  {
    match op
    case Inc(k, d) => IncrFits(s.table, k, d, Capacity(mode));
    case Delete(k) => DeleteFits(s.table, k);
    case _ =>
  }

  lemma IncrFits(t: Table, k: nat, d: nat, max: nat)
    requires |t| <= max
    ensures |Incr(t, k, d, max)| <= max
  {
    var u := Incr(t, k, d, max);
    assert u.Keys == if Room(t, k, max) then t.Keys + {k} else t.Keys;
    assert |u| == |u.Keys| && |t| == |t.Keys|;
    if k in t {
      assert t.Keys + {k} == t.Keys;
    }
  }

  lemma DeleteFits(t: Table, k: nat)
    ensures |t - {k}| <= |t|
  {
    Fewer((t - {k}).Keys, t.Keys);
    assert |t - {k}| == |(t - {k}).Keys| && |t| == |t.Keys|;
  }

  /** Each element once, and exactly those of `ks`. */
  ghost predicate Enumerates(keys: seq<nat>, ks: set<nat>) {
    (forall k :: k in keys <==> k in ks) && forall i, j | 0 <= i < j < |keys| :: keys[i] != keys[j]
  }

  ghost predicate Quiet(hits: nat -> seq<Hit>) {
    forall n :: hits(n) == []
  }

  /** `b` goes on from `a` by a `Begin` and steps that do not end the drain. */
  ghost predicate Underway(a: seq<Op>, b: seq<Op>) {
    a + [Begin] <= b && forall i | |a| < i < |b| :: b[i] != Return
  }

  lemma UnderwayHits(a: seq<Op>, b: seq<Op>, c: seq<Op>, mode: Mode)
    requires Underway(a, b) && Undisturbed(b, c, mode)
    ensures Underway(a, c)
  {
    forall i | |a| < i < |c| ensures c[i] != Return {
      assert i < |b| ==> c[i] == b[i];
    }
  }

  lemma UnderwayStep(a: seq<Op>, b: seq<Op>, op: Op)
    requires Underway(a, b) && op != Return
    ensures Underway(a, b + [op])
  {
  }

  lemma UndisturbedThen(a: seq<Op>, b: seq<Op>, c: seq<Op>, mode: Mode)
    requires Undisturbed(a, b, mode) && Undisturbed(b, c, mode)
    ensures Undisturbed(a, c, mode)
  {
    forall i | |a| <= i < |c| ensures c[i].Inc? {
      assert i < |b| ==> c[i] == b[i];
    }
  }

  /** The other counter maps have only been credited. */
  ghost predicate OthersCredited(log: Log, later: Log, s: Sig, mode: Mode) {
    forall s': Sig | s' != s :: Undisturbed(LogOf(log, s'), LogOf(later, s'), mode)
  }

  lemma OthersHits(log: Log, later: Log, s: Sig, mode: Mode, hits: seq<Hit>)
    requires OthersCredited(log, later, s, mode)
    ensures OthersCredited(log, NotedHits(later, hits), s, mode)
  {
    forall s': Sig | s' != s ensures Undisturbed(LogOf(log, s'), LogOf(NotedHits(later, hits), s'), mode) {
      HitsUndisturbed(later, mode, hits, s');
      UndisturbedThen(LogOf(log, s'), LogOf(later, s'), LogOf(NotedHits(later, hits), s'), mode);
    }
  }

  lemma OthersNoted(log: Log, later: Log, s: Sig, mode: Mode, op: Op)
    requires OthersCredited(log, later, s, mode)
    ensures OthersCredited(log, Noted(later, s, op), s, mode)
  {
    forall s': Sig | s' != s ensures LogOf(Noted(later, s, op), s') == LogOf(later, s') {
    }
  }

  // ---------------------------------------------------------- the two loops

  /** The delete loop, with `todo` still to delete. */
  ghost predicate IsDeleting(a: seq<Op>, b: seq<Op>, mode: Mode, res: Table, todo: set<nat>) {
    && Legal(a, mode) && Legal(b, mode) && Underway(a, b)
    && Exec(b, mode).phase == Deleting(res, todo) && Exec(b, mode).windows == Exec(a, mode).windows
  }

  /** The drain is over and has handed over `res`. */
  ghost predicate Drained(a: seq<Op>, b: seq<Op>, mode: Mode, res: Table) {
    && Legal(a, mode) && Legal(b, mode) && |a| < |b| && a <= b && Spans(b, |a|, |b| - 1)
    && Exec(b, mode).phase.Idle? && Exec(b, mode).windows == Exec(a, mode).windows + [res]
  }

  function ToDelete(t: Table, res: Table, mode: Mode): set<nat> {
    if mode == Go then res.Keys else t.Keys
  }

  lemma EndReading(a: seq<Op>, b: seq<Op>, mode: Mode, res: Table, keys: seq<nat>, start: set<nat>)
    requires IsReading(a, b, mode, res, keys, start)
    ensures IsDeleting(a, b + [EndRead], mode, res, ToDelete(Exec(b, mode).table, res, mode))
    ensures Exec(b + [EndRead], mode).table == Exec(b, mode).table
  {
    CounterMap.Append(b, EndRead, mode, 0);
    UnderwayStep(a, b, EndRead);
  }

  lemma HitsDelete(a: seq<Op>, b: seq<Op>, c: seq<Op>, mode: Mode, res: Table, todo: set<nat>)
    requires IsDeleting(a, b, mode, res, todo) && Undisturbed(b, c, mode)
    ensures IsDeleting(a, c, mode, res, todo)
  {
    UnderwayHits(a, b, c, mode);
  }

  lemma NextDelete(a: seq<Op>, b: seq<Op>, mode: Mode, res: Table, todo: set<nat>, k: nat)
    requires IsDeleting(a, b, mode, res, todo) && k in todo
    ensures Can(Exec(b, mode), Delete(k))
    ensures IsDeleting(a, b + [Delete(k)], mode, res, todo - {k})
    ensures Step(Exec(b, mode), Delete(k), mode).table == Exec(b, mode).table - {k}
  {
    CounterMap.Append(b, Delete(k), mode, 0);
    UnderwayStep(a, b, Delete(k));
  }

  lemma EndDeleting(a: seq<Op>, b: seq<Op>, mode: Mode, res: Table)
    requires IsDeleting(a, b, mode, res, {})
    ensures Can(Exec(b, mode), Return) && Drained(a, b + [Return], mode, res)
  {
    CounterMap.Append(b, Return, mode, 0);
  }

  /** The read loop, with `res` read so far. */
  ghost predicate IsReading(a: seq<Op>, b: seq<Op>, mode: Mode, res: Table, keys: seq<nat>, start: set<nat>) {
    && Legal(a, mode) && Legal(b, mode) && Underway(a, b)
    && Exec(b, mode).phase == Reading(res) && Exec(b, mode).windows == Exec(a, mode).windows
    && Enumerates(keys, res.Keys) && start <= Exec(b, mode).table.Keys
  }

  lemma BeginReads(a: seq<Op>, mode: Mode)
    requires Legal(a, mode) && Exec(a, mode).phase.Idle?
    ensures Legal(a + [Begin], mode)
    ensures Exec(a + [Begin], mode).table == Exec(a, mode).table
    ensures IsReading(a, a + [Begin], mode, map[], [], Exec(a, mode).table.Keys)
  {
    CounterMap.Append(a, Begin, mode, 0);
    var none: Table := map[];
    assert Exec(a + [Begin], mode).phase == Reading(none);
  }

  lemma HitsRead(a: seq<Op>, b: seq<Op>, c: seq<Op>, mode: Mode, res: Table, keys: seq<nat>, start: set<nat>)
    requires IsReading(a, b, mode, res, keys, start) && Undisturbed(b, c, mode)
    ensures IsReading(a, c, mode, res, keys, start)
  {
    UnderwayHits(a, b, c, mode);
  }

  lemma NextRead(a: seq<Op>, b: seq<Op>, mode: Mode, res: Table, keys: seq<nat>, start: set<nat>, k: nat)
    requires IsReading(a, b, mode, res, keys, start) && k in Exec(b, mode).table && k !in res
    ensures IsReading(a, b + [Read(k)], mode, res[k := Exec(b, mode).table[k]], keys + [k], start)
  {
    CounterMap.Append(b, Read(k), mode, 0);
    UnderwayStep(a, b, Read(k));
    assert res[k := Exec(b, mode).table[k]].Keys == res.Keys + {k};
    assert Enumerates(keys + [k], res.Keys + {k});
  }

  /** The collector, with what happened to every counter map since it was loaded. */
  class Collector {
    const maps: Maps
    ghost var log: Log

    constructor (maps: Maps)
      requires forall s: Sig :: Of(maps.counters, s) == map[]
      ensures this.maps == maps && Valid()
      ensures forall s: Sig :: LogOf(log, s) == []
    {
      this.maps := maps;
      log := map[];
    }

    ghost predicate Valid()
      reads this, maps
    {
      Logged(log, maps.counters, maps.mode)
    }

    /** What the kernel does between two steps of a drain. */
    method Interrupt(hits: seq<Hit>)
      requires Valid()
      modifies maps`counters, this`log
      ensures Valid()
      ensures log == NotedHits(old(log), hits)
      ensures maps.counters == Credited(old(maps.counters), hits, maps.mode)
    {
      for i := 0 to |hits|
        invariant Valid()
        invariant log == NotedHits(old(log), hits[..i])
        invariant maps.counters == Credited(old(maps.counters), hits[..i], maps.mode)
      {
        assert hits[..i + 1][..i] == hits[..i];
        var h := hits[i];
        var t := Incr(Of(maps.counters, h.sig), h.k, h.d, Capacity(maps.mode));
        NotedLogged(log, maps.counters, h.sig, Inc(h.k, h.d), maps.mode, t);
        maps.Increment(h.sig, h.k, h.d);
        log := Noted(log, h.sig, Inc(h.k, h.d));
      }
      assert hits[..|hits|] == hits;
    }

    /** A step of the drain that leaves the map alone. */
    ghost method Note(s: Sig, op: Op)
      requires Valid() && Can(StateOf(log, s, maps.mode), op)
      requires op == Begin || op.Read? || op == EndRead || op == Return
      modifies this`log
      ensures Valid() && log == Noted(old(log), s, op)
    {
      NotedLogged(log, maps.counters, s, op, maps.mode, Of(maps.counters, s));
      log := Noted(log, s, op);
      SameMaps(maps.counters, s);
    }

    method Open(s: Sig) returns (start: set<nat>)
      requires Valid() && StateOf(log, s, maps.mode).phase.Idle?
      modifies this`log
      ensures Valid() && start == Of(maps.counters, s).Keys
      ensures IsReading(LogOf(old(log), s), LogOf(log, s), maps.mode, map[], [], start)
      ensures OthersCredited(old(log), log, s, maps.mode)
    {
      start := Of(maps.counters, s).Keys;
      BeginReads(LogOf(log, s), maps.mode);
      OthersSame(log, s, maps.mode);
      OthersNoted(log, log, s, maps.mode, Begin);
      Note(s, Begin);
    }

    /** One turn of the snapshot loop, and what the kernel does before the next. */
    method ReadOne(s: Sig, k: nat, hits: seq<Hit>, res: Table, keys: seq<nat>, ghost from: Log, ghost start: set<nat>)
      returns (res': Table, keys': seq<nat>)
      requires Valid() && IsReading(LogOf(from, s), LogOf(log, s), maps.mode, res, keys, start)
      requires OthersCredited(from, log, s, maps.mode)
      requires k in Of(maps.counters, s) && k !in res
      modifies maps`counters, this`log
      ensures Valid() && IsReading(LogOf(from, s), LogOf(log, s), maps.mode, res', keys', start)
      ensures OthersCredited(from, log, s, maps.mode)
      ensures res' == res[k := Of(old(maps.counters), s)[k]]
      ensures hits == [] ==> maps.counters == old(maps.counters)
    {
      ghost var mode := maps.mode;
      NextRead(LogOf(from, s), LogOf(log, s), mode, res, keys, start, k);
      OthersNoted(from, log, s, mode, Read(k));
      res', keys' := res[k := Of(maps.counters, s)[k]], keys + [k];
      Note(s, Read(k));
      HitsUndisturbed(log, mode, hits, s);
      HitsRead(LogOf(from, s), LogOf(log, s), LogOf(NotedHits(log, hits), s), mode, res', keys', start);
      OthersHits(from, log, s, mode, hits);
      Interrupt(hits);
    }

    /** The snapshot loop: every entry that was there at the start, and perhaps some that came later, once each, with
        the keys in the order they came. */
    method ReadAll(s: Sig, hits: nat -> seq<Hit>) returns (res: Table, keys: seq<nat>)
      requires Valid() && StateOf(log, s, maps.mode).phase.Idle?
      modifies maps`counters, this`log
      ensures Valid()
      ensures IsReading(LogOf(old(log), s), LogOf(log, s), maps.mode, res, keys, Of(old(maps.counters), s).Keys)
      ensures OthersCredited(old(log), log, s, maps.mode)
      ensures Of(old(maps.counters), s).Keys <= res.Keys
      ensures Quiet(hits) ==> maps.counters == old(maps.counters) && res == Of(maps.counters, s)
    {
      var start := Open(s);
      var n, left := 0, start;
      res, keys := map[], [];
      while left != {}
        invariant Valid() && IsReading(LogOf(old(log), s), LogOf(log, s), maps.mode, res, keys, start)
        invariant OthersCredited(old(log), log, s, maps.mode)
        invariant ToRead(left, start, res.Keys, Of(maps.counters, s).Keys)
        invariant Quiet(hits) ==> maps.counters == old(maps.counters) && Within(res, Of(old(maps.counters), s))
        decreases Capacity(maps.mode) - |res|
      {
        Unread(left, start, res.Keys, Of(maps.counters, s).Keys);
        var k :| k in Of(maps.counters, s).Keys && k !in res;
        ghost var before, now := res, Of(maps.counters, s);
        res, keys := ReadOne(s, k, hits(n), res, keys, old(log), start);
        ReadFits(LogOf(log, s), maps.mode, res);
        ReadMore(left, start, before, now, k, Of(maps.counters, s).Keys);
        WithinMore(before, now, k);
        left, n := left - {k}, n + 1;
      }
      if Quiet(hits) {
        AllRead(start, res, Of(old(maps.counters), s));
      }
    }

    /** One turn of the delete loop, after what the kernel did in the meantime. */
    method DeleteOne(s: Sig, k: nat, hits: seq<Hit>, ghost res: Table, ghost todo: set<nat>, ghost a: seq<Op>)
      requires Valid() && IsDeleting(a, LogOf(log, s), maps.mode, res, todo) && k in todo
      modifies maps`counters, this`log
      ensures Valid() && IsDeleting(a, LogOf(log, s), maps.mode, res, todo - {k})
      ensures OthersCredited(old(log), log, s, maps.mode)
      ensures hits == [] ==> maps.counters == Without(old(maps.counters), s, {k})
    {
      ghost var mode := maps.mode;
      HitsUndisturbed(log, mode, hits, s);
      HitsDelete(a, LogOf(log, s), LogOf(NotedHits(log, hits), s), mode, res, todo);
      OthersSame(log, s, mode);
      OthersHits(log, log, s, mode, hits);
      Interrupt(hits);
      NextDelete(a, LogOf(log, s), mode, res, todo, k);
      OthersNoted(old(log), log, s, mode, Delete(k));
      NotedLogged(log, maps.counters, s, Delete(k), mode, Of(maps.counters, s) - {k});
      log := Noted(log, s, Delete(k));
      maps.Remove(s, k);
    }

    /** The deletes: in Go the keys that were read, in Python those in the map when it is cleared. */
    method DeleteAll(s: Sig, res: Table, keys: seq<nat>, hits: nat -> seq<Hit>, ghost a: seq<Op>, ghost start: set<nat>)
      requires Valid() && IsReading(a, LogOf(log, s), maps.mode, res, keys, start)
      modifies maps`counters, this`log
      ensures Valid() && Drained(a, LogOf(log, s), maps.mode, res)
      ensures OthersCredited(old(log), log, s, maps.mode)
      ensures Quiet(hits) ==>
                SameTables(maps.counters,
                           Without(old(maps.counters), s, ToDelete(Of(old(maps.counters), s), res, maps.mode)))
    {
      var gone := StartDeleting(s, res, keys, a, start);
      ghost var all := Elements(gone);
      assert gone[0..] == gone && Elements(gone[..0]) == {};
      WithoutNone(maps.counters, s);
      for i := 0 to |gone|
        invariant Valid() && IsDeleting(a, LogOf(log, s), maps.mode, res, Elements(gone[i..]))
        invariant OthersCredited(old(log), log, s, maps.mode)
        invariant Quiet(hits) ==> SameTables(maps.counters, Without(old(maps.counters), s, Elements(gone[..i])))
      {
        OneLess(gone, all, i);
        if Quiet(hits) {
          WithoutAgain(old(maps.counters), maps.counters, s, Elements(gone[..i]), gone[i]);
        }
        ghost var before := log;
        DeleteOne(s, gone[i], hits(i), res, Elements(gone[i..]), a);
        OthersThen(old(log), before, log, s, maps.mode);
      }
      assert gone[|gone|..] == [] && gone[..|gone|] == gone;
      ghost var before := log;
      Finish(s, res, a);
      OthersThen(old(log), before, log, s, maps.mode);
    }

    /** Fixes what is to be deleted. */
    method StartDeleting(s: Sig, res: Table, keys: seq<nat>, ghost a: seq<Op>, ghost start: set<nat>)
      returns (gone: seq<nat>)
      requires Valid() && IsReading(a, LogOf(log, s), maps.mode, res, keys, start)
      modifies this`log
      ensures Valid() && OthersCredited(old(log), log, s, maps.mode)
      ensures Enumerates(gone, ToDelete(Of(maps.counters, s), res, maps.mode))
      ensures IsDeleting(a, LogOf(log, s), maps.mode, res, ToDelete(Of(maps.counters, s), res, maps.mode))
      ensures Elements(gone) == ToDelete(Of(maps.counters, s), res, maps.mode)
    {
      gone := keys;
      if maps.mode.Bcc? {
        gone := Listed(Of(maps.counters, s).Keys);
      }
      ElementsOf(gone, ToDelete(Of(maps.counters, s), res, maps.mode));
      StopReading(s, res, keys, a, start);
    }

    ghost method StopReading(s: Sig, res: Table, keys: seq<nat>, a: seq<Op>, start: set<nat>)
      requires Valid() && IsReading(a, LogOf(log, s), maps.mode, res, keys, start)
      modifies this`log
      ensures Valid() && OthersCredited(old(log), log, s, maps.mode)
      ensures IsDeleting(a, LogOf(log, s), maps.mode, res, ToDelete(Of(maps.counters, s), res, maps.mode))
    {
      EndReading(a, LogOf(log, s), maps.mode, res, keys, start);
      OthersSame(log, s, maps.mode);
      OthersNoted(log, log, s, maps.mode, EndRead);
      Note(s, EndRead);
    }

    /** `drainMap`, and the read-then-clear of the Python twin, with whatever the kernel credits in between. */
    method DrainMap(s: Sig, reading: nat -> seq<Hit>, deleting: nat -> seq<Hit>) returns (res: Table)
      requires Valid() && StateOf(log, s, maps.mode).phase.Idle?
      modifies maps`counters, this`log
      ensures Valid() && Drained(LogOf(old(log), s), LogOf(log, s), maps.mode, res)
      ensures OthersCredited(old(log), log, s, maps.mode)
      ensures Of(old(maps.counters), s).Keys <= res.Keys
      ensures Quiet(reading) && Quiet(deleting) ==>
                res == Of(old(maps.counters), s) && SameTables(maps.counters, old(maps.counters)[s := map[]])
    {
      var keys: seq<nat>;
      res, keys := ReadAll(s, reading);
      ghost var before := log;
      DeleteAll(s, res, keys, deleting, LogOf(old(log), s), Of(old(maps.counters), s).Keys);
      OthersThen(old(log), before, log, s, maps.mode);
      WithoutAll(old(maps.counters), s);
    }

    ghost method Finish(s: Sig, res: Table, a: seq<Op>)
      requires Valid() && IsDeleting(a, LogOf(log, s), maps.mode, res, {})
      modifies this`log
      ensures Valid() && Drained(a, LogOf(log, s), maps.mode, res)
      ensures OthersCredited(old(log), log, s, maps.mode)
    {
      EndDeleting(a, LogOf(log, s), maps.mode, res);
      OthersSame(log, s, maps.mode);
      OthersNoted(log, log, s, maps.mode, Return);
      Note(s, Return);
    }
  }

  /** What a drain hands over, in terms of the steps alone: the cgroups it read, each with what it was credited from
      its last removal to that read, whatever the kernel did in between. */
  lemma SnapshotIsCredited(a: seq<Op>, b: seq<Op>, mode: Mode, res: Table, from: nat, p: nat, k: nat)
    requires Drained(a, b, mode, res) && NeverRefused(b, mode, k)
    requires Read(k) in b[|a|..|b| - 1] ==> |a| < p < |b| - 1 && b[p] == Read(k) && Since(b, from, p, k)
    ensures k in res <==> Read(k) in b[|a|..|b| - 1]
    ensures k in res ==> HitIn(b, from, p, k) && res[k] == SumIn(b, from, p, k) % U64
  {
    var r := |b| - 1;
    WindowOfDrain(b, mode, |a|, r, from, p, k);
    assert b[..|b|] == b;
    PrefixStep(b, mode, r, k);
  }

  lemma OneLess(gone: seq<nat>, all: set<nat>, i: nat)
    requires Enumerates(gone, all) && i < |gone|
    ensures gone[i] in Elements(gone[i..])
    ensures Elements(gone[i + 1..]) == Elements(gone[i..]) - {gone[i]}
    ensures Elements(gone[..i + 1]) == Elements(gone[..i]) + {gone[i]}
  {
    assert gone[i..] == [gone[i]] + gone[i + 1..] && gone[..i + 1] == gone[..i] + [gone[i]];
  }

  ghost predicate SameTables(a: map<Sig, Table>, b: map<Sig, Table>) {
    forall s: Sig :: Of(a, s) == Of(b, s)
  }

  function Without(counters: map<Sig, Table>, s: Sig, gone: set<nat>): map<Sig, Table> {
    counters[s := Of(counters, s) - gone]
  }

  function Elements(keys: seq<nat>): set<nat> {
    set k | k in keys
  }

  lemma ElementsOf(keys: seq<nat>, ks: set<nat>)
    requires Enumerates(keys, ks)
    ensures Elements(keys) == ks
  {
  }

  method Listed(ks: set<nat>) returns (keys: seq<nat>)
    ensures Enumerates(keys, ks)
  {
    keys := [];
    var left := ks;
    while left != {}
      invariant left <= ks && Enumerates(keys, ks - left)
    {
      var k :| k in left;
      keys, left := keys + [k], left - {k};
    }
  }

  lemma WithoutNone(counters: map<Sig, Table>, s: Sig)
    ensures SameTables(counters, Without(counters, s, {}))
  {
    assert Of(counters, s) - {} == Of(counters, s);
  }

  lemma WithoutAll(counters: map<Sig, Table>, s: Sig)
    ensures SameTables(Without(counters, s, Of(counters, s).Keys), counters[s := map[]])
  {
    assert Of(counters, s) - Of(counters, s).Keys == map[];
  }

  lemma WithoutAgain(counters: map<Sig, Table>, now: map<Sig, Table>, s: Sig, gone: set<nat>, k: nat)
    requires SameTables(now, Without(counters, s, gone))
    ensures SameTables(Without(now, s, {k}), Without(counters, s, gone + {k}))
  {
    assert Of(now, s) == Of(counters, s) - gone;
    assert Of(counters, s) - gone - {k} == Of(counters, s) - (gone + {k});
    forall s': Sig | s' != s ensures Of(Without(now, s, {k}), s') == Of(Without(counters, s, gone + {k}), s') {
      assert Of(now, s') == Of(Without(counters, s, gone), s');
    }
  }

  ghost predicate ToRead(left: set<nat>, start: set<nat>, res: set<nat>, now: set<nat>) {
    left !! res && start <= res + left && left <= start <= now
  }

  lemma ReadMore(left: set<nat>, start: set<nat>, res: Table, t: Table, k: nat, now: set<nat>)
    requires ToRead(left, start, res.Keys, t.Keys) && k in t && k !in res && start <= now
    ensures ToRead(left - {k}, start, res[k := t[k]].Keys, now)
  {
    ToReadLess(left, start, res.Keys, t.Keys, k, now);
    assert res[k := t[k]].Keys == res.Keys + {k};
  }

  lemma WithinMore(res: Table, t: Table, k: nat)
    requires k in t && k !in res
    ensures |res[k := t[k]]| == |res| + 1
    ensures Within(res, t) ==> Within(res[k := t[k]], t)
  {
    var more := res[k := t[k]];
    assert more.Keys == res.Keys + {k};
    assert |more| == |more.Keys| && |res| == |res.Keys|;
  }

  lemma ToReadLess(left: set<nat>, start: set<nat>, res: set<nat>, before: set<nat>, k: nat, now: set<nat>)
    requires ToRead(left, start, res, before) && start <= now
    ensures ToRead(left - {k}, start, res + {k}, now)
  {
  }

  lemma AllRead(start: set<nat>, res: Table, t: Table)
    requires Within(res, t) && t.Keys == start <= res.Keys
    ensures res == t
  {
  }

  lemma Unread(left: set<nat>, start: set<nat>, res: set<nat>, now: set<nat>)
    requires ToRead(left, start, res, now) && left != {}
    ensures exists k :: k in now && k !in res
  {
    var k :| k in left;
    assert k in now && k !in res;
  }

  /** Part of the map. */
  predicate Within(res: Table, t: Table) {
    res.Keys <= t.Keys && forall k | k in res :: res[k] == t[k]
  }

  lemma ReadFits(ops: seq<Op>, mode: Mode, res: Table)
    requires Legal(ops, mode) && Exec(ops, mode).phase == Reading(res)
    ensures |res| <= Capacity(mode)
  {
    ShapeAlways(ops, mode);
    TableFits(ops, mode);
    Fewer(res.Keys, Exec(ops, mode).table.Keys);
  }

  lemma OthersSame(log: Log, s: Sig, mode: Mode)
    requires forall s': Sig :: Legal(LogOf(log, s'), mode)
    ensures OthersCredited(log, log, s, mode)
  {
  }

  lemma OthersThen(log: Log, mid: Log, later: Log, s: Sig, mode: Mode)
    requires OthersCredited(log, mid, s, mode) && OthersCredited(mid, later, s, mode)
    ensures OthersCredited(log, later, s, mode)
  {
    forall s': Sig | s' != s ensures Undisturbed(LogOf(log, s'), LogOf(later, s'), mode) {
      UndisturbedThen(LogOf(log, s'), LogOf(mid, s'), LogOf(later, s'), mode);
    }
  }

  lemma SameMaps(counters: map<Sig, Table>, s: Sig)
    ensures forall s': Sig :: Of(counters[s := Of(counters, s)], s') == Of(counters, s')
  {
  }
}
