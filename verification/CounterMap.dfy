/**
 One per-cgroup counter map, shared by the kernel's INCR and the userspace
 drain. The drain reads key by key and then deletes key by key, and the kernel
 may increment between any two of its steps. A ledger follows every unit that
 was ever credited to a key.
 */
module CounterMap {

  const U64 := 0x1_0000_0000_0000_0000
  type Table = map<nat, nat>

  /** Go deletes the keys it read; the BCC twin clears whatever is in the map by then. The BCC program declares its
      maps without a size, so the library's default is a parameter. */
  datatype Mode = Go | Bcc(size: nat)

  /** How many cgroups a counter map holds. */
  function Capacity(mode: Mode): nat {
    match mode
    case Go => 16384
    case Bcc(size) => size
  }

  datatype Phase =
    | Idle
    | Reading(snap: Table)
    | Deleting(snap: Table, todo: set<nat>)

  /** The map, where the drain stands, and the snapshots the drain has returned. */
  datatype State = State(table: Table, phase: Phase, windows: seq<Table>)

  /** One INCR or one step of the drain. `Atomic` is a whole drain that nothing interrupts. */
  datatype Op =
    | Inc(k: nat, d: nat)
    | Begin
    | Read(k: nat)
    | EndRead
    | Delete(k: nat)
    | Return
    | Atomic
    | Skip

  /** `bpf_map_update_elem` fails only on a new key in a full map. */
  predicate Room(t: Table, k: nat, max: nat) {
    k in t || |t| < max
  }

  /** `INCR`: add in place with 64-bit wrap-around, or try to insert. */
  function Incr(t: Table, k: nat, d: nat, max: nat): Table {
    if k in t then t[k := (t[k] + d) % U64]
    else if Room(t, k, max) then t[k := d % U64]
    else t
  }

  function At(t: Table, k: nat): nat {
    if k in t then t[k] else 0
  }

  predicate Can(s: State, op: Op) {
    match op
    case Inc(_, _) => true
    case Begin => s.phase.Idle?
    case Read(k) => s.phase.Reading? && k in s.table && k !in s.phase.snap
    case EndRead => s.phase.Reading?
    case Delete(k) => s.phase.Deleting? && k in s.phase.todo
    case Return => s.phase.Deleting? && s.phase.todo == {}
    case Atomic => s.phase.Idle?
    case Skip => true
  }

  function Step(s: State, op: Op, mode: Mode): State
    requires Can(s, op)
  {
    match op
    case Inc(k, d) => s.(table := Incr(s.table, k, d, Capacity(mode)))
    case Begin => s.(phase := Reading(map[]))
    case Read(k) => s.(phase := Reading(s.phase.snap[k := s.table[k]]))
    case EndRead => s.(phase := Deleting(s.phase.snap, if mode == Go then s.phase.snap.Keys else s.table.Keys))
    case Delete(k) => s.(table := s.table - {k}, phase := Deleting(s.phase.snap, s.phase.todo - {k}))
    case Return => s.(phase := Idle, windows := s.windows + [s.phase.snap])
    case Atomic => s.(table := map[], windows := s.windows + [s.table])
    case Skip => s
  }

  const EMPTY := State(map[], Idle, [])

  predicate Legal(ops: seq<Op>, mode: Mode)
    decreases |ops|, 0
  {
    ops == [] || (Legal(ops[..|ops| - 1], mode) && Can(Exec(ops[..|ops| - 1], mode), ops[|ops| - 1]))
  }

  function Exec(ops: seq<Op>, mode: Mode): State
    requires Legal(ops, mode)
    decreases |ops|, 1
  {
    if ops == [] then EMPTY else Step(Exec(ops[..|ops| - 1], mode), ops[|ops| - 1], mode)
  }

  // --------------------------------------------------------------- ledger

  /** For one key: units credited, refused by a full map, deleted without being in the snapshot, credited in the gap
      between the key's read and its delete, and deleted with a key that was never read. */
  datatype Account = Account(credited: nat, dropped: nat, lost: int, late: nat, unread: nat)

  /** The key has been read by the current drain and not yet deleted. */
  predicate InGap(p: Phase, k: nat) {
    (p.Reading? && k in p.snap) || (p.Deleting? && k in p.snap && k in p.todo)
  }

  /** Read, deleted, and not yet handed to the caller. */
  function InHand(p: Phase, k: nat): nat {
    if p.Deleting? && k in p.snap && k !in p.todo then p.snap[k] else 0
  }

  function Post(a: Account, s: State, op: Op, mode: Mode, k: nat): Account
    requires Can(s, op)
  {
    match op
    case Inc(k', d) =>
      if k' != k then a
      else if !Room(s.table, k, Capacity(mode)) then a.(credited := a.credited + d, dropped := a.dropped + d)
      else a.(credited := a.credited + d, late := a.late + if InGap(s.phase, k) then d else 0)
    case Delete(k') =>
      if k' != k then a
      else a.(lost := a.lost + At(s.table, k) - At(s.phase.snap, k),
              unread := a.unread + if k in s.phase.snap then 0 else At(s.table, k))
    case _ => a
  }

  function Ledger(ops: seq<Op>, mode: Mode, k: nat): Account
    requires Legal(ops, mode)
  {
    if ops == [] then Account(0, 0, 0, 0, 0)
    else
      var front := ops[..|ops| - 1];
      Post(Ledger(front, mode, k), Exec(front, mode), ops[|ops| - 1], mode, k)
  }

  /** What the returned windows hold for a key. */
  function Emitted(windows: seq<Table>, k: nat): nat {
    if windows == [] then 0 else Emitted(windows[..|windows| - 1], k) + At(windows[|windows| - 1], k)
  }

  /** Where the drain stands is consistent with the map. */
  ghost predicate Shape(s: State, mode: Mode) {
    match s.phase
    case Idle => true
    case Reading(snap) => snap.Keys <= s.table.Keys
    case Deleting(snap, todo) => todo <= s.table.Keys && (mode == Go ==> todo <= snap.Keys)
  }

  /** The books of one key balance. */
  ghost predicate Balanced(s: State, a: Account, k: nat, mode: Mode) {
    && Emitted(s.windows, k) + InHand(s.phase, k) + At(s.table, k) + a.lost + a.dropped == a.credited
    && (InGap(s.phase, k) ==> k in s.table && s.phase.snap[k] <= s.table[k])
    && a.lost + (if InGap(s.phase, k) then At(s.table, k) - s.phase.snap[k] else 0) == a.late + a.unread
    && 0 <= a.lost
    && (mode == Go ==> a.unread == 0)
  }

  lemma ShapeKept(s: State, op: Op, mode: Mode)
    requires Shape(s, mode) && Can(s, op)
    ensures Shape(Step(s, op, mode), mode)
  {
  }

  lemma IncBalance(s: State, a: Account, k': nat, d: nat, k: nat, mode: Mode)
    requires Shape(s, mode) && Balanced(s, a, k, mode)
    requires Post(a, s, Inc(k', d), mode, k).credited < U64
    ensures Balanced(Step(s, Inc(k', d), mode), Post(a, s, Inc(k', d), mode, k), k, mode)
  {
    if k' == k && Room(s.table, k, Capacity(mode)) {
      assert At(Incr(s.table, k, d, Capacity(mode)), k) == At(s.table, k) + d;
    } else {
      assert At(Incr(s.table, k', d, Capacity(mode)), k) == At(s.table, k);
    }
  }

  lemma DrainBalance(s: State, a: Account, op: Op, k: nat, mode: Mode)
    requires Shape(s, mode) && Can(s, op) && !op.Inc?
    requires Balanced(s, a, k, mode)
    ensures Balanced(Step(s, op, mode), Post(a, s, op, mode, k), k, mode)
  {
    match op
    case Delete(k') =>
      assert At(s.table - {k'}, k) == if k' == k then 0 else At(s.table, k);
    case Return =>
      assert (s.windows + [s.phase.snap])[..|s.windows|] == s.windows;
    case Atomic =>
      assert (s.windows + [s.table])[..|s.windows|] == s.windows;
    case _ =>
  }

  lemma {:induction false} ShapeAlways(ops: seq<Op>, mode: Mode)
    requires Legal(ops, mode)
    ensures Shape(Exec(ops, mode), mode)
  {
    if ops != [] {
      ShapeAlways(ops[..|ops| - 1], mode);
      ShapeKept(Exec(ops[..|ops| - 1], mode), ops[|ops| - 1], mode);
    }
  }

  /** Main theorem: over every interleaving, for every key whose credits stay below 2^64, each credited unit is
      emitted once, still resident, held by the drain, lost or refused, and nothing else. */
  lemma {:induction false} BooksBalance(ops: seq<Op>, mode: Mode, k: nat)
    requires Legal(ops, mode)
    requires Ledger(ops, mode, k).credited < U64
    ensures Balanced(Exec(ops, mode), Ledger(ops, mode, k), k, mode)
  {
    if ops != [] {
      var front := ops[..|ops| - 1];
      BooksBalance(front, mode, k);
      ShapeAlways(front, mode);
      var s, a, op := Exec(front, mode), Ledger(front, mode, k), ops[|ops| - 1];
      if op.Inc? {
        IncBalance(s, a, op.k, op.d, k, mode);
      } else {
        DrainBalance(s, a, op, k, mode);
      }
    }
  }

  /** Windows never double-count. */
  lemma EmittedAtMostCredited(ops: seq<Op>, mode: Mode, k: nat)
    requires Legal(ops, mode) && Ledger(ops, mode, k).credited < U64
    ensures Emitted(Exec(ops, mode).windows, k) + At(Exec(ops, mode).table, k) <= Ledger(ops, mode, k).credited
  {
    BooksBalance(ops, mode, k);
  }

  /** Between drains, what was lost is exactly what was credited in the read-to-delete gaps plus, in the BCC twin,
      what was deleted unread; windows and map together hold everything exactly when there was none of either and no
      full map. */
  lemma LossExact(ops: seq<Op>, mode: Mode, k: nat)
    requires Legal(ops, mode) && Ledger(ops, mode, k).credited < U64
    requires Exec(ops, mode).phase.Idle?
    ensures var a := Ledger(ops, mode, k);
            && a.lost == a.late + a.unread
            && (mode == Go ==> a.unread == 0)
            && (Emitted(Exec(ops, mode).windows, k) + At(Exec(ops, mode).table, k) == a.credited
                <==> a.late == 0 && a.unread == 0 && a.dropped == 0)
  {
    BooksBalance(ops, mode, k);
  }

  /** The Go drain never deletes a key it has not read; a key first inserted after the read loop survives. */
  lemma GoDeletesOnlyRead(ops: seq<Op>, k: nat)
    requires Legal(ops, Go) && Can(Exec(ops, Go), Delete(k))
    ensures k in Exec(ops, Go).phase.snap && k in Exec(ops, Go).table
  {
    ShapeAlways(ops, Go);
  }

  /** A key that first appears between the read loop and the deletes. */
  function Race(k: nat, d: nat): seq<Op> {
    [Begin] + [Inc(k, d)] + [EndRead]
  }

  lemma RaceState(k: nat, d: nat, mode: Mode)
    requires d < U64 && Capacity(mode) > 0
    ensures Legal(Race(k, d), mode) && Ledger(Race(k, d), mode, k) == Account(d, 0, 0, 0, 0)
    ensures Exec(Race(k, d), mode) == State(map[k := d], Deleting(map[], if mode == Go then {} else {k}), [])
  {
    assert [] + [Begin] == [Begin];
    Append([], Begin, mode, k);
    Append([Begin], Inc(k, d), mode, k);
    Append([Begin] + [Inc(k, d)], EndRead, mode, k);
    RaceSteps(k, d, mode);
  }

  lemma RaceSteps(k: nat, d: nat, mode: Mode)
    requires d < U64 && Capacity(mode) > 0
    ensures var s: State := Step(EMPTY, Begin, mode);
            var t: State := Step(s, Inc(k, d), mode);
            && t == State(map[k := d], Reading(map[]), [])
            && Step(t, EndRead, mode) == State(map[k := d], Deleting(map[], if mode == Go then {} else {k}), [])
  {
    var t: Table, none: Table := map[k := d], map[];
    assert Incr(none, k, d, Capacity(mode)) == t;
    assert t.Keys == {k} && none.Keys == {};
  }

  /** The BCC twin does delete unread keys: the racing key is lost whole, with nothing late about it. */
  lemma BccLosesUnread(k: nat, d: nat, size: nat)
    requires 0 < d < U64 && size > 0
    ensures Legal(Race(k, d) + [Delete(k)] + [Return], Bcc(size))
    ensures Ledger(Race(k, d) + [Delete(k)] + [Return], Bcc(size), k) == Account(d, 0, d, 0, d)
  {
    RaceState(k, d, Bcc(size));
    Append(Race(k, d), Delete(k), Bcc(size), k);
    Append(Race(k, d) + [Delete(k)], Return, Bcc(size), k);
  }

  /** The Go drain leaves the same key for the next window. */
  lemma GoKeepsUnread(k: nat, d: nat)
    requires 0 < d < U64
    ensures Legal(Race(k, d) + [Return], Go)
    ensures At(Exec(Race(k, d) + [Return], Go).table, k) == d
    ensures Ledger(Race(k, d) + [Return], Go, k) == Account(d, 0, 0, 0, 0)
  {
    RaceState(k, d, Go);
    Append(Race(k, d), Return, Go, k);
  }

  /** A key that is credited, read by a drain, and credited again before the drain deletes it. */
  function LateRead(k: nat, c: nat): seq<Op> {
    [Inc(k, c)] + [Begin] + [Read(k)] + [EndRead]
  }

  function LateCredit(k: nat, c: nat, d: nat): seq<Op> {
    LateRead(k, c) + [Inc(k, d)] + [Delete(k)] + [Return]
  }

  lemma LateReadState(k: nat, c: nat, mode: Mode)
    requires c < U64 && Capacity(mode) > 0
    ensures Legal(LateRead(k, c), mode) && Ledger(LateRead(k, c), mode, k) == Account(c, 0, 0, 0, 0)
    ensures Exec(LateRead(k, c), mode) == State(map[k := c], Deleting(map[k := c], {k}), [])
  {
    var none: Table, t: Table, acc := map[], map[k := c], Account(c, 0, 0, 0, 0);
    assert none[k := c] == t && t.Keys == {k} && [] + [Inc(k, c)] == [Inc(k, c)];
    To([], Inc(k, c), mode, k, State(t, Idle, []), acc);
    To([Inc(k, c)], Begin, mode, k, State(t, Reading(none), []), acc);
    To([Inc(k, c)] + [Begin], Read(k), mode, k, State(t, Reading(t), []), acc);
    To([Inc(k, c)] + [Begin] + [Read(k)], EndRead, mode, k, State(t, Deleting(t, {k}), []), acc);
  }

  /** The second credit is lost in either collector: the window holds the first, the map nothing. */
  lemma LateCreditLost(k: nat, c: nat, d: nat, mode: Mode)
    requires 0 < c && 0 < d && c + d < U64 && Capacity(mode) > 0
    ensures Legal(LateCredit(k, c, d), mode)
    ensures Exec(LateCredit(k, c, d), mode) == State(map[], Idle, [map[k := c]])
    ensures Ledger(LateCredit(k, c, d), mode, k) == Account(c + d, 0, d, d, 0)
  {
    var none: Table, t: Table, u: Table := map[], map[k := c], map[k := c + d];
    LateReadState(k, c, mode);
    LateSteps(LateRead(k, c), k, c, d, mode, none, t, u);
  }

  lemma LateSteps(ops: seq<Op>, k: nat, c: nat, d: nat, mode: Mode, none: Table, t: Table, u: Table)
    requires 0 < c && 0 < d && c + d < U64
    requires none == map[] && t == map[k := c] && u == map[k := c + d]
    requires Legal(ops, mode) && Ledger(ops, mode, k) == Account(c, 0, 0, 0, 0)
    requires Exec(ops, mode) == State(t, Deleting(t, {k}), [])
    ensures var done := ops + [Inc(k, d)] + [Delete(k)] + [Return];
            && Legal(done, mode) && Exec(done, mode) == State(none, Idle, [t])
            && Ledger(done, mode, k) == Account(c + d, 0, d, d, 0)
  {
    var a1, a2, last := Account(c + d, 0, 0, d, 0), Account(c + d, 0, d, d, 0), State(none, Idle, [t]);
    var s1, s2 := LateValues(k, c, d, mode, none, t, u, a1, a2);
    To(ops, Inc(k, d), mode, k, s1, a1);
    To(ops + [Inc(k, d)], Delete(k), mode, k, s2, a2);
    To(ops + [Inc(k, d)] + [Delete(k)], Return, mode, k, last, a2);
  }

  lemma LateValues(k: nat, c: nat, d: nat, mode: Mode, none: Table, t: Table, u: Table, a1: Account, a2: Account)
    returns (s1: State, s2: State)
    requires 0 < c && 0 < d && c + d < U64
    requires none == map[] && t == map[k := c] && u == map[k := c + d]
    requires a1 == Account(c + d, 0, 0, d, 0) && a2 == Account(c + d, 0, d, d, 0)
    ensures var s := State(t, Deleting(t, {k}), []);
            && Step(s, Inc(k, d), mode) == s1 && Post(Account(c, 0, 0, 0, 0), s, Inc(k, d), mode, k) == a1
    ensures Can(s1, Delete(k)) && Step(s1, Delete(k), mode) == s2 && Post(a1, s1, Delete(k), mode, k) == a2
    ensures Can(s2, Return) && Step(s2, Return, mode) == State(none, Idle, [t]) && Post(a2, s2, Return, mode, k) == a2
  {
    s1, s2 := State(u, Deleting(t, {k}), []), State(none, Deleting(t, {}), []);
    assert t[k := c + d] == u && u - {k} == none && {k} - {k} == {} && [] + [t] == [t];
  }

  lemma To(ops: seq<Op>, op: Op, mode: Mode, k: nat, t: State, a: Account)
    requires Legal(ops, mode) && Can(Exec(ops, mode), op)
    requires Step(Exec(ops, mode), op, mode) == t && Post(Ledger(ops, mode, k), Exec(ops, mode), op, mode, k) == a
    ensures Legal(ops + [op], mode) && Exec(ops + [op], mode) == t && Ledger(ops + [op], mode, k) == a
  {
    Append(ops, op, mode, k);
  }

  lemma Append(ops: seq<Op>, op: Op, mode: Mode, k: nat)
    requires Legal(ops, mode) && Can(Exec(ops, mode), op)
    ensures Legal(ops + [op], mode)
    ensures Exec(ops + [op], mode) == Step(Exec(ops, mode), op, mode)
    ensures Ledger(ops + [op], mode, k) == Post(Ledger(ops, mode, k), Exec(ops, mode), op, mode, k)
  {
    assert (ops + [op])[..|ops|] == ops;
  }
}
