/**
 Exactly when the baseline deque of the case builder is the five-minute window
 it is meant to be, on rows in any order.
 */
module BaselineWindow {
  import opened CaseBundle

  /** Among samples pushed in this order, none that is fresh at `cutoff` stands before a stale one. */
  predicate NoFreshBeforeStale(s: seq<Sample>, cutoff: real) {
    forall i, j | 0 <= i < j < |s| && s[i].ts >= cutoff :: s[j].ts >= cutoff
  }

  lemma {:induction false} SinceFewer(s: seq<Sample>, cutoff: real)
    ensures |Since(s, cutoff)| <= |s|
    ensures |Since(s, cutoff)| == |s| <==> forall i | 0 <= i < |s| :: s[i].ts >= cutoff
  {
    if s != [] {
      SinceFewer(s[..|s| - 1], cutoff);
    }
  }

  lemma SinceHead(s: seq<Sample>, cutoff: real)
    requires s != []
    ensures Since(s, cutoff) == (if s[0].ts >= cutoff then [s[0]] else []) + Since(s[1..], cutoff)
  {
    SinceConcat(s[..1], s[1..], cutoff);
    assert s == s[..1] + s[1..];
    assert s[..1][..0] == [];
  }

  /** Popping the stale front keeps exactly the fresh samples if and only if no fresh one stands before a stale one. */
  lemma {:induction false} PopsExactlyIff(s: seq<Sample>, cutoff: real)
    ensures DropStale(s, cutoff) == Since(s, cutoff) <==> NoFreshBeforeStale(s, cutoff)
  {
    if s != [] {
      SinceHead(s, cutoff);
      if s[0].ts < cutoff {
        PopsExactlyIff(s[1..], cutoff);
        assert forall i | 0 <= i < |s| - 1 :: s[1..][i] == s[i + 1];
      } else {
        SinceFewer(s, cutoff);
        if NoFreshBeforeStale(s, cutoff) {
          SinceAll(s, cutoff);
        } else {
          var i, j :| 0 <= i < j < |s| && s[i].ts >= cutoff && s[j].ts < cutoff;
        }
      }
    }
  }

  // ---------------------------------------------------------- the whole deque

  /** The deque after the timed normal samples `s`. */
  function Deque(s: seq<Sample>): seq<Sample> {
    if s == [] then []
    else
      var x := s[|s| - 1];
      DropStale(Deque(s[..|s| - 1]) + [x], x.ts - BASELINE_WINDOW_S)
  }

  /** It is the deque of the machine, whatever the order of the rows. */
  lemma {:induction false} DequeIsMachine(rows: seq<Row>, cfg: Config)
    ensures Fold(rows, cfg).samples == Deque(Normals(rows, cfg))
  {
    if rows != [] {
      var front, row := rows[..|rows| - 1], rows[|rows| - 1];
      DequeIsMachine(front, cfg);
      if !Emits(row, cfg) && row.ts.Some? {
        var x := Sample(row.ts.value, row.feats);
        assert (Normals(front, cfg) + [x])[..|Normals(front, cfg)|] == Normals(front, cfg);
      }
    }
  }

  /** Older than the window of the latest sample. */
  predicate Dropped(s: seq<Sample>, x: Sample) {
    s != [] && x.ts < s[|s| - 1].ts - BASELINE_WINDOW_S
  }

  /** Pushing `x` after `s` does what it should: among the samples still held no fresh one stands before a stale one,
      and the new cutoff readmits none that was dropped. */
  predicate PushKeeps(s: seq<Sample>, x: Sample) {
    var cutoff := x.ts - BASELINE_WINDOW_S;
    && NoFreshBeforeStale(Recent(s), cutoff)
    && forall i | 0 <= i < |s| && s[i].ts >= cutoff :: !Dropped(s, s[i])
  }

  lemma {:induction false} SinceTwiceFewer(s: seq<Sample>, early: real, late: real)
    ensures |Since(Since(s, early), late)| <= |Since(s, late)|
    ensures |Since(Since(s, early), late)| == |Since(s, late)| <==>
            forall i | 0 <= i < |s| && s[i].ts >= late :: s[i].ts >= early
    ensures |Since(Since(s, early), late)| == |Since(s, late)| ==> Since(Since(s, early), late) == Since(s, late)
  {
    if s != [] {
      var front, x := s[..|s| - 1], s[|s| - 1];
      var kept := Since(front, early);
      SinceTwiceFewer(front, early, late);
      if x.ts >= early {
        assert (kept + [x])[..|kept|] == kept;
      }
    }
  }

  lemma {:induction false} DropStaleSuffix(s: seq<Sample>, cutoff: real) returns (n: nat)
    ensures n <= |s| && DropStale(s, cutoff) == s[n..]
  {
    if s != [] && s[0].ts < cutoff {
      n := DropStaleSuffix(s[1..], cutoff);
      n := n + 1;
    } else {
      n := 0;
    }
  }

  /** What is kept and fresh is no more than what is fresh. */
  lemma FreshKept(s: seq<Sample>, cutoff: real)
    requires forall x | x in DropStale(s, cutoff) :: x.ts >= cutoff
    ensures |DropStale(s, cutoff)| <= |Since(s, cutoff)|
  {
    var n := DropStaleSuffix(s, cutoff);
    SinceConcat(s[..n], s[n..], cutoff);
    assert s == s[..n] + s[n..];
    SinceAll(s[n..], cutoff);
  }

  lemma {:induction false} SinceFresh(s: seq<Sample>, cutoff: real)
    ensures forall x | x in Since(s, cutoff) :: x.ts >= cutoff
  {
    if s != [] {
      SinceFresh(s[..|s| - 1], cutoff);
    }
  }

  lemma LastIsFresh(s: seq<Sample>, x: Sample, cutoff: real)
    requires x.ts >= cutoff
    ensures NoFreshBeforeStale(s + [x], cutoff) <==> NoFreshBeforeStale(s, cutoff)
  {
    if NoFreshBeforeStale(s + [x], cutoff) {
      assert forall i | 0 <= i < |s| :: (s + [x])[i] == s[i];
    }
  }

  lemma SinceOneMore(s: seq<Sample>, x: Sample, cutoff: real)
    requires x.ts >= cutoff
    ensures Since(s + [x], cutoff) == Since(s, cutoff) + [x]
  {
    assert (s + [x])[..|s|] == s;
  }

  /** If what is left after the pops is right, nothing fresh had been lost before. */
  lemma NothingLost(s: seq<Sample>, kept: seq<Sample>, x: Sample, cutoff: real)
    requires x.ts >= cutoff && DropStale(kept + [x], cutoff) == Since(s + [x], cutoff)
    ensures |Since(s, cutoff)| <= |Since(kept, cutoff)|
  {
    SinceFresh(s + [x], cutoff);
    FreshKept(kept + [x], cutoff);
    SinceOneMore(kept, x, cutoff);
    SinceOneMore(s, x, cutoff);
  }

  /** From an exact window, a push gives the exact window again if and only if it does what it should. */
  lemma PushExactIff(s: seq<Sample>, x: Sample)
    ensures DropStale(Recent(s) + [x], x.ts - BASELINE_WINDOW_S) == Recent(s + [x]) <==> PushKeeps(s, x)
  {
    var cutoff, kept := x.ts - BASELINE_WINDOW_S, Recent(s);
    assert Recent(s + [x]) == Since(s + [x], cutoff);
    if s == [] {
      PopsRightIff(s, kept, x, cutoff);
    } else {
      SinceTwiceFewer(s, s[|s| - 1].ts - BASELINE_WINDOW_S, cutoff);
      PopsRightIff(s, kept, x, cutoff);
    }
  }

  /** The same for any `kept` that never has more fresh samples than `s`. */
  lemma PopsRightIff(s: seq<Sample>, kept: seq<Sample>, x: Sample, cutoff: real)
    requires x.ts >= cutoff && |Since(kept, cutoff)| <= |Since(s, cutoff)|
    requires |Since(kept, cutoff)| == |Since(s, cutoff)| ==> Since(kept, cutoff) == Since(s, cutoff)
    ensures DropStale(kept + [x], cutoff) == Since(s + [x], cutoff) <==>
            NoFreshBeforeStale(kept, cutoff) && |Since(kept, cutoff)| == |Since(s, cutoff)|
  {
    PopsExactlyIff(kept + [x], cutoff);
    LastIsFresh(kept, x, cutoff);
    SinceOneMore(kept, x, cutoff);
    SinceOneMore(s, x, cutoff);
    if DropStale(kept + [x], cutoff) == Since(s + [x], cutoff) {
      NothingLost(s, kept, x, cutoff);
    }
  }

  /** After the first `n` samples the deque is the window. */
  predicate ExactAt(s: seq<Sample>, n: nat)
    requires n <= |s|
  {
    Deque(s[..n]) == Recent(s[..n])
  }

  /** The push of sample `n` does what it should. */
  predicate KeepsAt(s: seq<Sample>, n: nat)
    requires n < |s|
  {
    PushKeeps(s[..n], s[n])
  }

  lemma StepExactIff(s: seq<Sample>, n: nat)
    requires n < |s| && ExactAt(s, n)
    ensures ExactAt(s, n + 1) <==> KeepsAt(s, n)
  {
    assert s[..n + 1][..n] == s[..n] && s[..n + 1] == s[..n] + [s[n]];
    PushExactIff(s[..n], s[n]);
  }

  lemma {:induction false} ExactUpTo(s: seq<Sample>, n: nat)
    requires n <= |s|
    ensures (forall m | 0 <= m <= n :: ExactAt(s, m)) <==> (forall m | 0 <= m < n :: KeepsAt(s, m))
  {
    if n == 0 {
      assert s[..0] == [];
      assert ExactAt(s, 0);
    } else {
      ExactUpTo(s, n - 1);
      if forall m | 0 <= m <= n - 1 :: ExactAt(s, m) {
        assert ExactAt(s, n - 1);
        StepExactIff(s, n - 1);
      }
    }
  }

  /** On samples in any order: the deque is the five-minute window after each of them if and only if every push does
      what it should. */
  lemma DequeExactIff(s: seq<Sample>)
    ensures (forall n | 0 <= n <= |s| :: ExactAt(s, n)) <==> (forall n | 0 <= n < |s| :: KeepsAt(s, n))
  {
    ExactUpTo(s, |s|);
  }

  // ------------------------------------------------------------------- runs

  lemma {:induction false} NormalsTake(rows: seq<Row>, cfg: Config, n: nat)
    requires n <= |rows|
    ensures |Normals(rows[..n], cfg)| <= |Normals(rows, cfg)|
    ensures Normals(rows[..n], cfg) == Normals(rows, cfg)[..|Normals(rows[..n], cfg)|]
  {
    if n == |rows| {
      assert rows[..n] == rows;
    } else {
      var front := rows[..|rows| - 1];
      NormalsTake(front, cfg, n);
      assert front[..n] == rows[..n];
    }
  }

  /** Every number of samples is reached after some row. */
  lemma {:induction false} NormalsReach(rows: seq<Row>, cfg: Config, m: nat) returns (n: nat)
    requires m <= |Normals(rows, cfg)|
    ensures n <= |rows| && |Normals(rows[..n], cfg)| == m
  {
    if m == |Normals(rows, cfg)| {
      n := |rows|;
      assert rows[..n] == rows;
    } else {
      var front := rows[..|rows| - 1];
      n := NormalsReach(front, cfg, m);
      assert front[..n] == rows[..n];
    }
  }

  /** After `n` rows of an identity the machine holds the window of their timed normal rows. */
  predicate WindowAt(rows: seq<Row>, cfg: Config, n: nat)
    requires n <= |rows|
  {
    Fold(rows[..n], cfg).samples == Recent(Normals(rows[..n], cfg))
  }

  lemma WindowAtIsExactAt(rows: seq<Row>, cfg: Config, n: nat)
    requires n <= |rows|
    ensures |Normals(rows[..n], cfg)| <= |Normals(rows, cfg)|
    ensures WindowAt(rows, cfg, n) <==> ExactAt(Normals(rows, cfg), |Normals(rows[..n], cfg)|)
  {
    NormalsTake(rows, cfg, n);
    DequeIsMachine(rows[..n], cfg);
  }

  ghost predicate AllExact(s: seq<Sample>) {
    forall n | 0 <= n <= |s| :: ExactAt(s, n)
  }

  ghost predicate AllKept(s: seq<Sample>) {
    forall n | 0 <= n < |s| :: KeepsAt(s, n)
  }

  ghost predicate AllWindows(rows: seq<Row>, cfg: Config) {
    forall n | 0 <= n <= |rows| :: WindowAt(rows, cfg, n)
  }

  lemma WindowsFromExact(rows: seq<Row>, cfg: Config)
    requires AllExact(Normals(rows, cfg))
    ensures AllWindows(rows, cfg)
  {
    forall n: nat | n <= |rows| ensures WindowAt(rows, cfg, n) {
      WindowAtIsExactAt(rows, cfg, n);
    }
  }

  lemma ExactFromWindows(rows: seq<Row>, cfg: Config)
    requires AllWindows(rows, cfg)
    ensures AllExact(Normals(rows, cfg))
  {
    forall m: nat | m <= |Normals(rows, cfg)| ensures ExactAt(Normals(rows, cfg), m) {
      var n := NormalsReach(rows, cfg, m);
      assert WindowAt(rows, cfg, n);
      WindowAtIsExactAt(rows, cfg, n);
    }
  }

  /** For one identity's rows in any order: its deque is the five-minute window at every moment if and only if, at each
      timed normal row, no sample still fresh stands before a stale one and none dropped before is fresh again. */
  lemma WindowExactIff(rows: seq<Row>, cfg: Config)
    ensures AllWindows(rows, cfg) <==> AllKept(Normals(rows, cfg))
  {
    DequeExactIff(Normals(rows, cfg));
    if AllWindows(rows, cfg) {
      ExactFromWindows(rows, cfg);
    }
    if AllExact(Normals(rows, cfg)) {
      WindowsFromExact(rows, cfg);
    }
  }

  // ----------------------------------------------------- the whole builder

  /** Every identity's pushes do what they should. */
  ghost predicate EachKept(rows: seq<Row>, cfg: Config) {
    forall k :: AllKept(Normals(Own(rows, k), cfg))
  }

  /** Time order is one way to have that. */
  lemma OrderedKeeps(s: seq<Sample>)
    requires Ordered(s)
    ensures AllKept(s)
  {
    forall m: nat | m < |s| ensures KeepsAt(s, m) {
      OrderedKeepsAt(s, m);
    }
  }

  lemma OrderedKeepsAt(s: seq<Sample>, m: nat)
    requires Ordered(s) && m < |s|
    ensures KeepsAt(s, m)
  {
    var front := s[..m];
    if front != [] {
      SinceOrdered(front, front[m - 1].ts - BASELINE_WINDOW_S);
    }
  }

  lemma KeptPrefix(s: seq<Sample>, n: nat)
    requires n <= |s| && AllKept(s)
    ensures AllKept(s[..n])
  {
    forall m: nat | m < n ensures KeepsAt(s[..n], m) {
      assert KeepsAt(s, m);
      assert s[..n][..m] == s[..m];
    }
  }

  lemma OwnTake(rows: seq<Row>, k: Key)
    requires rows != []
    ensures |Own(rows[..|rows| - 1], k)| <= |Own(rows, k)|
    ensures Own(rows[..|rows| - 1], k) == Own(rows, k)[..|Own(rows[..|rows| - 1], k)|]
  {
  }

  lemma KeptFront(rows: seq<Row>, cfg: Config, k: Key)
    requires rows != [] && AllKept(Normals(Own(rows, k), cfg))
    ensures AllKept(Normals(Own(rows[..|rows| - 1], k), cfg))
  {
    var n := |Own(rows[..|rows| - 1], k)|;
    OwnTake(rows, k);
    NormalsTake(Own(rows, k), cfg, n);
    KeptPrefix(Normals(Own(rows, k), cfg), |Normals(Own(rows, k)[..n], cfg)|);
  }

  lemma WindowOf(rows: seq<Row>, cfg: Config)
    requires AllKept(Normals(rows, cfg))
    ensures Fold(rows, cfg).samples == Recent(Normals(rows, cfg))
  {
    WindowExactIff(rows, cfg);
    assert WindowAt(rows, cfg, |rows|);
    assert rows[..|rows|] == rows;
  }

  /** The builder meets its reference on every stream whose pushes all do what they should, in time order or not. */
  lemma {:induction false} StreamMeetsReferenceUnordered(rows: seq<Row>, cfg: Config)
    requires EachKept(rows, cfg)
    ensures Stream(rows, cfg) == Reference(rows, cfg)
  {
    if rows != [] {
      var front, row := rows[..|rows| - 1], rows[|rows| - 1];
      forall k ensures AllKept(Normals(Own(front, k), cfg)) { KeptFront(rows, cfg, k); }
      StreamMeetsReferenceUnordered(front, cfg);
      RunIsBlock(Own(front, row.id), cfg);
      WindowOf(Own(front, row.id), cfg);
    }
  }

  // -------------------------------------------------------------- witnesses

  /** A recent sample is lost: the middle push drops it, the last one makes it recent again. */
  lemma RecentSampleLost(f: Features)
    ensures var first, late, last := Sample(400.0, f), Sample(1000.0, f), Sample(500.0, f);
            && Deque([first, late, last]) == [late, last]
            && Recent([first, late, last]) == [first, late, last]
            && !AllKept([first, late, last])
  {
    var first, late, last := Sample(400.0, f), Sample(1000.0, f), Sample(500.0, f);
    var all := [first, late, last];
    assert all[..1] == [first] && all[..2] == [first, late];
    assert Deque([first]) == [first] by { assert [] + [first] == [first]; }
    assert [first, late][..1] == [first];
    assert Deque([first, late]) == DropStale([first] + [late], 700.0);
    assert ([first] + [late])[0] == first && ([first] + [late])[1..] == [late];
    assert DropStale([late], 700.0) == [late];
    assert all[..|all| - 1] == [first, late];
    assert Deque(all) == DropStale([late] + [last], 200.0);
    assert ([late] + [last])[0] == late;
    assert [late] + [last] == [late, last];
    SinceAll(all, 200.0);
    assert !KeepsAt(all, 2) by { assert Dropped([first, late], [first, late][0]); }
  }
}
