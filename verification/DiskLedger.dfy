/**
 Block I/O in flight and the cgroups it is credited to, over whole runs.
 */
module DiskLedger {
  import opened CounterMap
  import opened Kernel
  import opened Totals

  // -------------------------------------------------------- in-flight map

  /** The two in-flight maps agree. */
  ghost predicate Paired(f: Flight) {
    f.start.Keys == f.cg.Keys
  }

  lemma PairedStep(f: Flight, e: Event, mode: Mode)
    requires Paired(f)
    ensures Paired(FlightAfter(f, e, mode))
  {
    assert |f.start| == |f.start.Keys| && |f.cg| == |f.cg.Keys|;
  }

  /** At every handler boundary a sector is in both in-flight maps or in neither. */
  lemma {:induction false} InFlightPaired(es: seq<Event>, mode: Mode)
    requires Valid(es, mode)
    ensures Paired(Run(es, mode).flight)
  {
    if es != [] {
      InFlightPaired(es[..|es| - 1], mode);
      PairedStep(Run(es[..|es| - 1], mode).flight, es[|es| - 1], mode);
    }
  }

  /** Where every issued request went. */
  datatype Tally = Tally(issued: nat, matched: nat, overwritten: nat, refused: nat)

  function TallyAfter(t: Tally, f: Flight, e: Event, mode: Mode): Tally {
    match e
    case Issue(_, sector, _, _, _) =>
      if sector in f.start then t.(issued := t.issued + 1, overwritten := t.overwritten + 1)
      else if |f.start| < MaxInflight(mode) then t.(issued := t.issued + 1)
      else t.(issued := t.issued + 1, refused := t.refused + 1)
    case Complete(sector, _) => if Matched(f, sector) then t.(matched := t.matched + 1) else t
    case _ => t
  }

  function TallyOf(es: seq<Event>, mode: Mode): Tally
    requires Valid(es, mode)
  {
    if es == [] then Tally(0, 0, 0, 0)
    else TallyAfter(TallyOf(es[..|es| - 1], mode), Run(es[..|es| - 1], mode).flight, es[|es| - 1], mode)
  }

  lemma TallyStep(t: Tally, f: Flight, e: Event, mode: Mode)
    requires Paired(f) && t.issued == t.matched + |f.start| + t.overwritten + t.refused
    ensures var u, g := TallyAfter(t, f, e, mode), FlightAfter(f, e, mode);
            u.issued == u.matched + |g.start| + u.overwritten + u.refused
  {
    match e
    case Complete(sector, _) =>
      OneOut(f.start, sector);
      assert Matched(f, sector) <==> sector in f.start;
    case Issue(_, sector, now, _, _) =>
      OneIn(f.start, sector, now, MaxInflight(mode));
      assert FlightAfter(f, e, mode).start == Put(f.start, sector, now, MaxInflight(mode));
    case _ =>
      assert FlightAfter(f, e, mode).start == f.start;
  }

  lemma OneOut(t: Table, k: nat)
    ensures |t - {k}| == |t| - if k in t then 1 else 0
  {
    var u := t - {k};
    assert u.Keys == t.Keys - {k};
    assert |u| == |u.Keys| && |t| == |t.Keys|;
  }

  lemma OneIn(t: Table, k: nat, v: nat, max: nat)
    ensures |Put(t, k, v, max)| == |t| + if k !in t && |t| < max then 1 else 0
  {
    var u := t[k := v];
    assert u.Keys == t.Keys + {k};
    assert |u| == |u.Keys| && |t| == |t.Keys|;
    if k in t {
      assert t.Keys + {k} == t.Keys;
    }
  }

  /** Every request ever issued completed, is in flight, was overwritten by a re-issue on its sector, or was refused
      by a full map. */
  lemma {:induction false} IssuesAccounted(es: seq<Event>, mode: Mode)
    requires Valid(es, mode)
    ensures var t := TallyOf(es, mode);
            t.issued == t.matched + |Run(es, mode).flight.start| + t.overwritten + t.refused
  {
    if es != [] {
      var front := es[..|es| - 1];
      IssuesAccounted(front, mode);
      InFlightPaired(front, mode);
      TallyStep(TallyOf(front, mode), Run(front, mode).flight, es[|es| - 1], mode);
    }
  }

  // ----------------------------------------------------------- attribution

  datatype Request = Request(cg: nat, at: nat) | NoRequest

  /** The request outstanding on a sector, from the events alone: the latest issue with no completion after it. */
  function Outstanding(es: seq<Event>, sector: nat): Request {
    if es == [] then NoRequest
    else
      match es[|es| - 1]
      case Issue(cg, s, now, _, _) => if s == sector then Request(cg, now) else Outstanding(es[..|es| - 1], sector)
      case Complete(s, _) => if s == sector then NoRequest else Outstanding(es[..|es| - 1], sector)
      case _ => Outstanding(es[..|es| - 1], sector)
  }

  /** What the in-flight maps say of a sector. */
  function Held(f: Flight, sector: nat): Request {
    if Matched(f, sector) then Request(f.cg[sector], f.start[sector]) else NoRequest
  }

  /** The maps hold the outstanding request of every sector, unless the map was full when it came. */
  lemma {:induction false} HeldIsOutstanding(es: seq<Event>, mode: Mode, sector: nat)
    requires Valid(es, mode)
    ensures Held(Run(es, mode).flight, sector) in {Outstanding(es, sector), NoRequest}
    ensures TallyOf(es, mode).refused == 0 ==> Held(Run(es, mode).flight, sector) == Outstanding(es, sector)
  {
    if es != [] {
      var front := es[..|es| - 1];
      HeldIsOutstanding(front, mode, sector);
      InFlightPaired(front, mode);
      HeldStep(Run(front, mode).flight, es[|es| - 1], mode, TallyOf(front, mode), Outstanding(front, sector), sector);
      assert Outstanding(es, sector) == OutstandingAfter(Outstanding(front, sector), es[|es| - 1], sector);
    }
  }

  function OutstandingAfter(r: Request, e: Event, sector: nat): Request {
    match e
    case Issue(cg, s, now, _, _) => if s == sector then Request(cg, now) else r
    case Complete(s, _) => if s == sector then NoRequest else r
    case _ => r
  }

  lemma HeldStep(f: Flight, e: Event, mode: Mode, t: Tally, r: Request, sector: nat)
    requires Paired(f)
    requires Held(f, sector) in {r, NoRequest} && (t.refused == 0 ==> Held(f, sector) == r)
    ensures Held(FlightAfter(f, e, mode), sector) in {OutstandingAfter(r, e, sector), NoRequest}
    ensures TallyAfter(t, f, e, mode).refused == 0 ==>
              Held(FlightAfter(f, e, mode), sector) == OutstandingAfter(r, e, sector)
  {
    assert |f.start| == |f.start.Keys| && |f.cg| == |f.cg.Keys|;
  }

  /** A matched completion credits latency and count once each, to the cgroup of the outstanding issue; an unmatched
      one credits nothing, and matching fails only for requests that are not outstanding or were refused. */
  lemma CompletionCredits(es: seq<Event>, mode: Mode, sector: nat, now: nat)
    requires Valid(es, mode)
    ensures var f, r, e := Run(es, mode).flight, Outstanding(es, sector), Complete(sector, now);
            && (Matched(f, sector) ==>
                  && r.Request?
                  && OpOn(f, e, CDiskLat) == Inc(r.cg, SubU64(now, r.at))
                  && OpOn(f, e, CDiskIo) == Inc(r.cg, 1))
            && (!Matched(f, sector) ==> OpOn(f, e, CDiskLat) == Skip && OpOn(f, e, CDiskIo) == Skip)
            && (TallyOf(es, mode).refused == 0 ==> (Matched(f, sector) <==> r.Request?))
  {
    HeldIsOutstanding(es, mode, sector);
  }

  lemma CountStep(t: Tally, f: Flight, e: Event, mode: Mode)
    requires e.Bump? ==> PlainSig(e.sig)
    requires e.Drain? ==> !e.op.Inc?
    ensures TallyAfter(t, f, e, mode).matched == t.matched + Credits(OpOn(f, e, CDiskIo))
  {
  }

  /** The I/O counter is credited once per matched completion and never otherwise. */
  lemma {:induction false} CountIsMatched(es: seq<Event>, mode: Mode)
    requires Valid(es, mode)
    ensures TotalInc(Ops(es, mode, CDiskIo)) == TallyOf(es, mode).matched
  {
    if es != [] {
      var front, e := es[..|es| - 1], es[|es| - 1];
      CountIsMatched(front, mode);
      CountStep(TallyOf(front, mode), Run(front, mode).flight, e, mode);
      TotalStep(Ops(front, mode, CDiskIo), OpOn(Run(front, mode).flight, e, CDiskIo));
    }
  }
}
