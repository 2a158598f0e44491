/**
 The kernel side of collector-go/bpf/collector.bpf.c: the handlers over the
 fifteen counter maps, the disk in-flight maps and the per-CPU timestamps, and
 every interleaving of them with the userspace drain.
 */
module Kernel {
  import opened CounterMap

  datatype Sig =
    | CRead | CWrite | COpen | CTcpConn | CTcpRetx | CNetRx | CNetTx | CDiskR | CDiskW
    | CDiskLat | CDiskIo | CExec | CFork | CCtxSw | CCpu

  /** How many sectors and how many CPUs the other maps hold; the BCC program gives every map the same default size. */
  function MaxInflight(mode: Mode): nat {
    match mode
    case Go => 65536
    case Bcc(size) => size
  }

  function MaxCpus(mode: Mode): nat {
    match mode
    case Go => 1024
    case Bcc(size) => size
  }

  /** The maps that are not counters: sector to issue time, sector to issuing cgroup, CPU to last switch time. */
  datatype Flight = Flight(start: map<nat, nat>, cg: map<nat, nat>, cpuLast: map<nat, nat>)

  datatype Event =
    | Bump(sig: Sig, cg: nat, delta: nat)
    | Switch(cg: nat, cpu: nat, now: nat)
    | Issue(cg: nat, sector: nat, now: nat, bytes: nat, write: bool)
    | Complete(sector: nat, now: nat)
    | Drain(sig: Sig, op: Op)

  /** Difference of two 64-bit unsigned values. */
  function SubU64(a: nat, b: nat): nat {
    (a - b) % U64
  }

  /** `bpf_map_update_elem(..., BPF_ANY)`. */
  function Put(t: Table, k: nat, v: nat, max: nat): Table {
    if Room(t, k, max) then t[k := v] else t
  }

  /** The signals a plain one-counter handler feeds. */
  predicate PlainSig(s: Sig) {
    !(s.CDiskR? || s.CDiskW? || s.CDiskLat? || s.CDiskIo? || s.CCtxSw? || s.CCpu?)
  }

  predicate Matched(f: Flight, sector: nat) {
    sector in f.start && sector in f.cg
  }

  /** What an event does to the counter map of `sig`. */
  function OpOn(f: Flight, e: Event, sig: Sig): Op {
    match e
    case Bump(s, cg, d) => if sig == s then Inc(cg, d) else Skip
    case Switch(cg, cpu, now) =>
      if sig == CCtxSw then Inc(cg, 1)
      else if sig == CCpu && cpu in f.cpuLast then Inc(cg, SubU64(now, f.cpuLast[cpu]))
      else Skip
    case Issue(cg, _, _, bytes, write) =>
      if sig == (if write then CDiskW else CDiskR) then Inc(cg, bytes) else Skip
    case Complete(sector, now) =>
      if !Matched(f, sector) then Skip
      else if sig == CDiskLat then Inc(f.cg[sector], SubU64(now, f.start[sector]))
      else if sig == CDiskIo then Inc(f.cg[sector], 1)
      else Skip
    case Drain(s, op) => if sig == s then op else Skip
  }

  /** What it does to the other maps. */
  function FlightAfter(f: Flight, e: Event, mode: Mode): Flight {
    match e
    case Switch(_, cpu, now) => f.(cpuLast := Put(f.cpuLast, cpu, now, MaxCpus(mode)))
    case Issue(cg, sector, now, _, _) =>
      f.(start := Put(f.start, sector, now, MaxInflight(mode)), cg := Put(f.cg, sector, cg, MaxInflight(mode)))
    case Complete(sector, _) =>
      if Matched(f, sector) then f.(start := f.start - {sector}, cg := f.cg - {sector}) else f
    case _ => f
  }

  // ------------------------------------------------------------- handlers

  function TableAfter(t: Table, op: Op, mode: Mode): Table {
    if op.Inc? then Incr(t, op.k, op.d, Capacity(mode)) else t
  }

  function Of(counters: map<Sig, Table>, s: Sig): Table {
    if s in counters then counters[s] else map[]
  }

  /** Every map after event `e`, in terms of the maps before. */
  ghost predicate Follows(before: map<Sig, Table>, f: Flight, e: Event, after: map<Sig, Table>, g: Flight, mode: Mode) {
    && g == FlightAfter(f, e, mode)
    && forall s: Sig :: Of(after, s) == TableAfter(Of(before, s), OpOn(f, e, s), mode)
  }

  function Credit(counters: map<Sig, Table>, s: Sig, k: nat, d: nat, mode: Mode): map<Sig, Table> {
    counters[s := Incr(Of(counters, s), k, d, Capacity(mode))]
  }

  lemma CreditOf(counters: map<Sig, Table>, s: Sig, k: nat, d: nat, mode: Mode, s': Sig)
    ensures Of(Credit(counters, s, k, d, mode), s') ==
            if s' == s then Incr(Of(counters, s), k, d, Capacity(mode)) else Of(counters, s')
  {
  }

  lemma CreditFollows(c: map<Sig, Table>, f: Flight, e: Event, s: Sig, k: nat, d: nat, mode: Mode)
    requires OpOn(f, e, s) == Inc(k, d)
    requires forall s': Sig | s' != s :: !OpOn(f, e, s').Inc?
    ensures Follows(c, f, e, Credit(c, s, k, d, mode), FlightAfter(f, e, mode), mode)
  {
    forall s': Sig ensures Of(Credit(c, s, k, d, mode), s') == TableAfter(Of(c, s'), OpOn(f, e, s'), mode) {
      CreditOf(c, s, k, d, mode, s');
    }
  }

  lemma CreditsFollow(c: map<Sig, Table>, f: Flight, e: Event, s: Sig, t: Sig, k: nat, d: nat, d': nat, mode: Mode)
    requires s != t && OpOn(f, e, s) == Inc(k, d) && OpOn(f, e, t) == Inc(k, d')
    requires forall s': Sig | s' != s && s' != t :: !OpOn(f, e, s').Inc?
    ensures Follows(c, f, e, Credit(Credit(c, s, k, d, mode), t, k, d', mode), FlightAfter(f, e, mode), mode)
  {
    var one := Credit(c, s, k, d, mode);
    forall s': Sig ensures Of(Credit(one, t, k, d', mode), s') == TableAfter(Of(c, s'), OpOn(f, e, s'), mode) {
      CreditOf(one, t, k, d', mode, s');
      CreditOf(c, s, k, d, mode, s');
      CreditOf(c, s, k, d, mode, t);
    }
  }

  /** The maps as the handlers update them. */
  class Maps {
    const mode: Mode
    var counters: map<Sig, Table>
    var diskStart: Table
    var diskCg: Table
    var cpuLast: Table

    constructor (mode: Mode)
      ensures this.mode == mode
      ensures Others() == Flight(map[], map[], map[])
      ensures forall s: Sig :: Of(counters, s) == map[]
    {
      this.mode := mode;
      counters, diskStart, diskCg, cpuLast := map[], map[], map[], map[];
    }

    ghost function Others(): Flight
      reads this`diskStart, this`diskCg, this`cpuLast
    {
      Flight(diskStart, diskCg, cpuLast)
    }

    method Increment(s: Sig, k: nat, delta: nat)
      modifies this`counters
      ensures counters == Credit(old(counters), s, k, delta, mode)
    {
      var t := Of(counters, s);
      if k in t {
        t := t[k := (t[k] + delta) % U64];
      } else if |t| < Capacity(mode) {
        t := t[k := delta % U64];
      }
      counters := counters[s := t];
    }

    /** `bpf_map_delete_elem` on a counter map, from userspace. */
    method Remove(s: Sig, k: nat)
      modifies this`counters
      ensures counters == old(counters)[s := Of(old(counters), s) - {k}]
    {
      counters := counters[s := Of(counters, s) - {k}];
    }

    /** The one-counter handlers: syscalls, exec, fork, TCP connect and retransmit, bytes sent. */
    method Count(s: Sig, cg: nat, delta: nat)
      requires PlainSig(s)
      modifies this`counters
      ensures Follows(old(counters), old(Others()), Bump(s, cg, delta), counters, Others(), mode)
    {
      CreditFollows(counters, Others(), Bump(s, cg, delta), s, cg, delta, mode);
      Increment(s, cg, delta);
    }

    /** Bytes received count only when some were copied. */
    method TcpCleanupRbuf(cg: nat, copied: int)
      modifies this`counters
      ensures copied > 0 ==>
                Follows(old(counters), old(Others()), Bump(CNetRx, cg, copied), counters, Others(), mode)
      ensures copied <= 0 ==> counters == old(counters)
    {
      if copied <= 0 {
        return;
      }
      CreditFollows(counters, Others(), Bump(CNetRx, cg, copied), CNetRx, cg, copied, mode);
      Increment(CNetRx, cg, copied);
    }

    method TpSwitch(cg: nat, cpu: nat, now: nat)
      modifies this
      ensures Follows(old(counters), old(Others()), Switch(cg, cpu, now), counters, Others(), mode)
      ensures var switched := Credit(old(counters), CCtxSw, cg, 1, mode);
              counters == if cpu in old(cpuLast)
                          then Credit(switched, CCpu, cg, SubU64(now, old(cpuLast)[cpu]), mode) else switched
    {
      ghost var c, f, e := counters, Others(), Switch(cg, cpu, now);
      Increment(CCtxSw, cg, 1);
      if cpu in cpuLast {
        var delta := SubU64(now, cpuLast[cpu]);
        Increment(CCpu, cg, delta);
        CreditsFollow(c, f, e, CCtxSw, CCpu, cg, 1, delta, mode);
      } else {
        CreditFollows(c, f, e, CCtxSw, cg, 1, mode);
      }
      if cpu in cpuLast || |cpuLast| < MaxCpus(mode) {
        cpuLast := cpuLast[cpu := now];
      }
    }

    method TpBlockIssue(cg: nat, sector: nat, now: nat, bytes: nat, write: bool)
      modifies this
      ensures Follows(old(counters), old(Others()), Issue(cg, sector, now, bytes, write), counters, Others(), mode)
      ensures write ==> counters == Credit(old(counters), CDiskW, cg, bytes, mode)
      ensures !write ==> counters == Credit(old(counters), CDiskR, cg, bytes, mode)
    {
      ghost var e := Issue(cg, sector, now, bytes, write);
      CreditFollows(counters, Others(), e, if write then CDiskW else CDiskR, cg, bytes, mode);
      if sector in diskStart || |diskStart| < MaxInflight(mode) {
        diskStart := diskStart[sector := now];
      }
      if sector in diskCg || |diskCg| < MaxInflight(mode) {
        diskCg := diskCg[sector := cg];
      }
      if write {
        Increment(CDiskW, cg, bytes);
      } else {
        Increment(CDiskR, cg, bytes);
      }
    }

    method TpBlockComplete(sector: nat, now: nat)
      modifies this
      ensures Follows(old(counters), old(Others()), Complete(sector, now), counters, Others(), mode)
      ensures sector !in old(diskStart) || sector !in old(diskCg) ==> counters == old(counters)
      ensures sector in old(diskStart) && sector in old(diskCg) ==>
                var cg, ns := old(diskCg)[sector], SubU64(now, old(diskStart)[sector]);
                && counters == Credit(Credit(old(counters), CDiskLat, cg, ns, mode), CDiskIo, cg, 1, mode)
                && diskStart == old(diskStart) - {sector} && diskCg == old(diskCg) - {sector}
    {
      if sector in diskStart && sector in diskCg {
        var delta, cg := SubU64(now, diskStart[sector]), diskCg[sector];
        CreditsFollow(counters, Others(), Complete(sector, now), CDiskLat, CDiskIo, cg, delta, 1, mode);
        Increment(CDiskLat, cg, delta);
        Increment(CDiskIo, cg, 1);
        diskStart := diskStart - {sector};
        diskCg := diskCg - {sector};
      }
    }
  }

  // ----------------------------------------------------------------- runs

  datatype Machine = Machine(sigs: map<Sig, State>, flight: Flight)

  function On(m: Machine, s: Sig): State {
    if s in m.sigs then m.sigs[s] else EMPTY
  }

  predicate Enabled(m: Machine, e: Event) {
    && (e.Bump? ==> PlainSig(e.sig))
    && (e.Drain? ==> !e.op.Inc?)
    && forall s: Sig :: Can(On(m, s), OpOn(m.flight, e, s))
  }

  function Next(m: Machine, e: Event, mode: Mode): Machine
    requires Enabled(m, e)
  {
    Machine(map s: Sig | true :: Step(On(m, s), OpOn(m.flight, e, s), mode), FlightAfter(m.flight, e, mode))
  }

  const BOOT := Machine(map[], Flight(map[], map[], map[]))

  predicate Valid(es: seq<Event>, mode: Mode)
    decreases |es|, 0
  {
    es == [] || (Valid(es[..|es| - 1], mode) && Enabled(Run(es[..|es| - 1], mode), es[|es| - 1]))
  }

  function Run(es: seq<Event>, mode: Mode): Machine
    requires Valid(es, mode)
    decreases |es|, 1
  {
    if es == [] then BOOT else Next(Run(es[..|es| - 1], mode), es[|es| - 1], mode)
  }

  /** What a run looks like to one counter map. */
  function Ops(es: seq<Event>, mode: Mode, s: Sig): (ops: seq<Op>)
    requires Valid(es, mode)
    ensures |ops| == |es|
  {
    if es == [] then []
    else
      var front := es[..|es| - 1];
      Ops(front, mode, s) + [OpOn(Run(front, mode).flight, es[|es| - 1], s)]
  }

  lemma {:induction false} Projection(es: seq<Event>, mode: Mode, s: Sig)
    requires Valid(es, mode)
    ensures CounterMap.Legal(Ops(es, mode, s), mode)
    ensures CounterMap.Exec(Ops(es, mode, s), mode) == On(Run(es, mode), s)
  {
    if es != [] {
      var front := es[..|es| - 1];
      Projection(front, mode, s);
      CounterMap.Append(Ops(front, mode, s), OpOn(Run(front, mode).flight, es[|es| - 1], s), mode, 0);
    }
  }

  /** Whatever the handlers and the drain do, the books of every counter and every cgroup balance. */
  lemma EveryCounterBalances(es: seq<Event>, mode: Mode, s: Sig, k: nat)
    requires Valid(es, mode)
    ensures CounterMap.Legal(Ops(es, mode, s), mode)
    ensures Ledger(Ops(es, mode, s), mode, k).credited < U64 ==>
              Balanced(On(Run(es, mode), s), Ledger(Ops(es, mode, s), mode, k), k, mode)
  {
    Projection(es, mode, s);
    if Ledger(Ops(es, mode, s), mode, k).credited < U64 {
      BooksBalance(Ops(es, mode, s), mode, k);
    }
  }

  lemma Extend(es: seq<Event>, e: Event, mode: Mode)
    requires Valid(es, mode) && Enabled(Run(es, mode), e)
    ensures Valid(es + [e], mode)
    ensures Run(es + [e], mode) == Next(Run(es, mode), e, mode)
  {
    assert (es + [e])[..|es|] == es;
  }
}
