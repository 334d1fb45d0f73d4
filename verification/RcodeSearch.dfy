/** The table search behind rcode messages (src/rcode/rcd_fn.tmp.c): jump by
    halves of the table size, then at most two single steps. */
module RcodeSearch {

  datatype Outcome = Hit(at: nat) | Miss

  function Popcount(n: nat): nat {
    if n == 0 then 0 else n % 2 + Popcount(n / 2)
  }

  /** How far the jumps below `jmp` can still carry the index: the sum of its halves. */
  function Slack(jmp: nat): int {
    jmp - Popcount(jmp)
  }

  /** The key cells of a table of n entries, strictly increasing.  cells[n] is
      whatever lies behind the table: the bound check of the search lets it read that cell. */
  predicate Table(cells: seq<int>, n: nat) {
    |cells| == n + 1 && forall i, j :: 0 <= i < j < n ==> cells[i] < cells[j]
  }

  /** The index range reachable with jump size jmp (halving phase) or after single steps. */
  predicate Reach(n: nat, idx: int, jmp: nat, steps: nat) {
    var m := n / 2;
    if steps == 0 then
      jmp <= m && (m > 0 ==> jmp > 0)
      && Popcount(m) + Slack(jmp) <= idx <= 2 * m - Popcount(m) - Slack(jmp)
    else
      steps <= 2 && jmp <= 1 && 0 <= idx <= n
  }

  /** One look at the table: the index read, the jump size and the single steps made so far. */
  datatype Look = Look(idx: int, jmp: nat, steps: nat)

  lemma {:induction false} HalvingSlack(jmp: nat)
    ensures Slack(jmp) == if jmp == 0 then 0 else jmp / 2 + Slack(jmp / 2)
    ensures 0 <= Slack(jmp) <= jmp
    ensures jmp > 0 ==> Popcount(jmp) >= 1
  {
    if jmp > 0 {
      HalvingSlack(jmp / 2);
    }
  }

  /** How a search ends, and its looks in order. */
  datatype Trail = Trail(end: Outcome, looks: seq<Look>)

  /** The search from index idx: what the goto loop decides next. */
  function Probe(cells: seq<int>, n: nat, val: int, idx: int, jmp: nat, steps: nat): Trail
    requires |cells| == n + 1 && Reach(n, idx, jmp, steps)
    decreases jmp, 2 - steps
  {
    HalvingSlack(n / 2);
    HalvingSlack(jmp);
    var now := Look(idx, jmp, steps);
    if val == cells[idx] then Trail(Hit(idx), [now])
    else if jmp >= 2 && steps == 0 then
      HalvingSlack(jmp / 2);
      Behind(now, Probe(cells, n, val, if val > cells[idx] then idx + jmp / 2 else idx - jmp / 2, jmp / 2, 0))
    else if steps >= 2 then Trail(Miss, [now])
    else
      var next := if val > cells[idx] then idx + 1 else idx - 1;
      if next < 0 || next > n then Trail(Miss, [now]) else Behind(now, Probe(cells, n, val, next, jmp, steps + 1))
  }

  function Behind(l: Look, t: Trail): Trail { Trail(t.end, [l] + t.looks) }

  /** A look inside the table or at the cell behind it; while the search still halves, also inside
      [popcount(m), 2m - popcount(m)]. */
  predicate InRange(n: nat, l: Look) {
    && 0 <= l.idx <= n
    && (l.steps == 0 ==> Popcount(n / 2) <= l.idx <= 2 * (n / 2) - Popcount(n / 2))
  }

  predicate AllInRange(n: nat, looks: seq<Look>) {
    forall i {:trigger looks[i]} :: 0 <= i < |looks| ==> InRange(n, looks[i])
  }

  /** Looks at keys only. */
  predicate AllInside(n: nat, looks: seq<Look>) {
    forall i {:trigger looks[i]} :: 0 <= i < |looks| ==> 0 <= looks[i].idx < n
  }

  /** The search that leaves the trail whole stands at idx, having made the looks done. */
  ghost predicate Ahead(whole: Trail, done: seq<Look>, cells: seq<int>, n: nat, val: int, idx: int, jmp: nat,
      steps: nat) {
    && |cells| == n + 1 && Reach(n, idx, jmp, steps)
    && var t := Probe(cells, n, val, idx, jmp, steps); whole == Trail(t.end, done + t.looks)
  }

  lemma {:induction false} Looked(done: seq<Look>, l: Look, t: Trail)
    ensures done + Behind(l, t).looks == (done + [l]) + t.looks
  {
  }

  lemma {:induction false} JumpStep(whole: Trail, done: seq<Look>, cells: seq<int>, n: nat, val: int, idx: int,
      jmp: nat, steps: nat)
    requires Ahead(whole, done, cells, n, val, idx, jmp, steps) && 0 <= idx <= n && val != cells[idx] && jmp >= 2
    ensures steps == 0
    ensures var next := if val > cells[idx] then idx + jmp / 2 else idx - jmp / 2;
            Ahead(whole, done + [Look(idx, jmp, steps)], cells, n, val, next, jmp / 2, 0)
  {
    HalvingSlack(n / 2);
    HalvingSlack(jmp);
    HalvingSlack(jmp / 2);
    var next := if val > cells[idx] then idx + jmp / 2 else idx - jmp / 2;
    Looked(done, Look(idx, jmp, steps), Probe(cells, n, val, next, jmp / 2, 0));
  }

  lemma {:induction false} SingleStep(whole: Trail, done: seq<Look>, cells: seq<int>, n: nat, val: int, idx: int,
      jmp: nat, steps: nat)
    requires Ahead(whole, done, cells, n, val, idx, jmp, steps) && 0 <= idx <= n && val != cells[idx] && jmp < 2
    ensures var next := if val > cells[idx] then idx + 1 else idx - 1;
            if steps >= 2 || next < 0 || next > n then whole == Trail(Miss, done + [Look(idx, jmp, steps)])
            else Ahead(whole, done + [Look(idx, jmp, steps)], cells, n, val, next, jmp, steps + 1)
  {
    HalvingSlack(n / 2);
    HalvingSlack(jmp);
    var next := if val > cells[idx] then idx + 1 else idx - 1;
    if steps < 2 && 0 <= next <= n { Looked(done, Look(idx, jmp, steps), Probe(cells, n, val, next, jmp, steps + 1)); }
  }

  /** A reachable index may be looked at. */
  lemma {:induction false} ReachInRange(n: nat, idx: int, jmp: nat, steps: nat)
    requires Reach(n, idx, jmp, steps)
    ensures InRange(n, Look(idx, jmp, steps))
  {
    HalvingSlack(n / 2);
    HalvingSlack(jmp);
  }

  lemma {:induction false} BehindInRange(n: nat, l: Look, t: Trail)
    requires InRange(n, l) && AllInRange(n, t.looks)
    ensures AllInRange(n, Behind(l, t).looks)
  {
  }

  lemma {:induction false} ProbeInRange(cells: seq<int>, n: nat, val: int, idx: int, jmp: nat, steps: nat)
    requires |cells| == n + 1 && Reach(n, idx, jmp, steps)
    ensures AllInRange(n, Probe(cells, n, val, idx, jmp, steps).looks)
    decreases jmp, 2 - steps
  {
    ReachInRange(n, idx, jmp, steps);
    HalvingSlack(n / 2);
    HalvingSlack(jmp);
    if val != cells[idx] {
      var l := Look(idx, jmp, steps);
      if jmp >= 2 && steps == 0 {
        HalvingSlack(jmp / 2);
        var next := if val > cells[idx] then idx + jmp / 2 else idx - jmp / 2;
        ProbeInRange(cells, n, val, next, jmp / 2, 0);
        BehindInRange(n, l, Probe(cells, n, val, next, jmp / 2, 0));
      } else if steps < 2 {
        var next := if val > cells[idx] then idx + 1 else idx - 1;
        if 0 <= next <= n {
          ProbeInRange(cells, n, val, next, jmp, steps + 1);
          BehindInRange(n, l, Probe(cells, n, val, next, jmp, steps + 1));
        }
      }
    }
  }

  /** What holds while the search stands at idx: the cell read may be read, and a hit ends it. */
  lemma {:induction false} HitStep(whole: Trail, done: seq<Look>, cells: seq<int>, n: nat, val: int, idx: int,
      jmp: nat, steps: nat)
    requires Ahead(whole, done, cells, n, val, idx, jmp, steps)
    ensures 0 <= idx <= n
    ensures val == cells[idx] ==> whole == Trail(Hit(idx), done + [Look(idx, jmp, steps)])
  {
    ReachInRange(n, idx, jmp, steps);
  }

  /** One cell away, at most twice. */
  method SingleTurn(cells: seq<int>, n: nat, val: int, idx: int, jmp: nat, steps: nat, ghost whole: Trail,
      ghost done: seq<Look>)
    returns (next: int, fin: bool)
    requires Ahead(whole, done, cells, n, val, idx, jmp, steps) && 0 <= idx <= n && val != cells[idx] && jmp < 2
    ensures fin ==> whole == Trail(Miss, done + [Look(idx, jmp, steps)])
    ensures !fin ==> steps < 2 && Ahead(whole, done + [Look(idx, jmp, steps)], cells, n, val, next, jmp, steps + 1)
  {
    SingleStep(whole, done, cells, n, val, idx, jmp, steps);
    if steps >= 2 { return idx, true; }
    next := if val > cells[idx] then idx + 1 else idx - 1;
    fin := next < 0 || next > n;
  }

  /** Half the jump away. */
  method JumpTurn(cells: seq<int>, n: nat, val: int, idx: int, jmp: nat, steps: nat, ghost whole: Trail,
      ghost done: seq<Look>)
    returns (next: int)
    requires Ahead(whole, done, cells, n, val, idx, jmp, steps) && 0 <= idx <= n && val != cells[idx] && jmp >= 2
    ensures Ahead(whole, done + [Look(idx, jmp, steps)], cells, n, val, next, jmp / 2, 0)
  {
    JumpStep(whole, done, cells, n, val, idx, jmp, steps);
    next := if val > cells[idx] then idx + jmp / 2 else idx - jmp / 2;
  }

  /** Where to look after a miss at idx: half the jump away, or one cell. */
  method Turn(cells: seq<int>, n: nat, val: int, idx: int, jmp: nat, steps: nat, ghost whole: Trail,
      ghost done: seq<Look>)
    returns (next: int, njmp: nat, nsteps: nat, fin: bool)
    requires Ahead(whole, done, cells, n, val, idx, jmp, steps) && 0 <= idx <= n && val != cells[idx]
    ensures fin ==> whole == Trail(Miss, done + [Look(idx, jmp, steps)])
    ensures !fin ==> Ahead(whole, done + [Look(idx, jmp, steps)], cells, n, val, next, njmp, nsteps)
    ensures !fin ==> njmp < jmp || (njmp == jmp && steps < nsteps <= 2)
  {
    if jmp >= 2 {
      njmp, nsteps, fin := jmp / 2, 0, false;
      next := JumpTurn(cells, n, val, idx, jmp, steps, whole, done);
    } else {
      njmp, nsteps := jmp, steps + 1;
      next, fin := SingleTurn(cells, n, val, idx, jmp, steps, whole, done);
    }
  }

  lemma {:induction false} StartReach(n: nat)
    ensures Reach(n, n / 2, n / 2, 0)
  {
    HalvingSlack(n / 2);
  }

  /** The loop itself, with the looks it takes. */
  method BinSearch(cells: seq<int>, n: nat, val: int) returns (r: Outcome, looks: seq<Look>)
    requires |cells| == n + 1
    ensures Reach(n, n / 2, n / 2, 0) && Trail(r, looks) == Probe(cells, n, val, n / 2, n / 2, 0)
    ensures AllInRange(n, looks)
    ensures r.Hit? ==> r.at <= n && cells[r.at] == val
  {
    StartReach(n);
    var jmp: nat := n / 2;
    var idx: int := jmp;
    var steps: nat := 0;
    looks := [];
    ghost var whole := Probe(cells, n, val, idx, jmp, steps);
    assert [] + whole.looks == whole.looks;
    ProbeInRange(cells, n, val, idx, jmp, steps);
    var fin := false;
    while !fin
      invariant if fin then whole == Trail(Miss, looks) else Ahead(whole, looks, cells, n, val, idx, jmp, steps)
      decreases !fin, jmp, 2 - steps
    {
      HitStep(whole, looks, cells, n, val, idx, jmp, steps);
      ghost var done := looks;
      looks := looks + [Look(idx, jmp, steps)];
      if val == cells[idx] { return Hit(idx), looks; }
      idx, jmp, steps, fin := Turn(cells, n, val, idx, jmp, steps, whole, done);
    }
    r := Miss;
  }

  /** The invariant of a search for a key that is present: it stays within jmp - popcount(jmp) + 2
      of its target, or within the single steps left, and so it is found by looking at keys only. */
  lemma {:induction false} FindsTarget(cells: seq<int>, n: nat, t: nat, idx: int, jmp: nat, steps: nat)
    requires Table(cells, n) && t < n && Reach(n, idx, jmp, steps) && idx < n
    requires Popcount(jmp) <= 2
    requires if steps == 0 then -Slack(jmp) - 2 <= t - idx <= Slack(jmp) + 2
             else -2 + steps <= t - idx <= 2 - steps
    ensures var p := Probe(cells, n, cells[t], idx, jmp, steps); p.end == Hit(t) && AllInside(n, p.looks)
    decreases jmp, 2 - steps
  {
    HalvingSlack(n / 2);
    HalvingSlack(jmp);
    if t != idx {
      var up := cells[t] > cells[idx];
      assert up <==> t > idx by {
        if t < idx { assert cells[t] < cells[idx]; } else { assert cells[idx] < cells[t]; }
      }
      if jmp >= 2 && steps == 0 {
        HalvingSlack(jmp / 2);
        FindsTarget(cells, n, t, if up then idx + jmp / 2 else idx - jmp / 2, jmp / 2, 0);
      } else {
        FindsTarget(cells, n, t, if up then idx + 1 else idx - 1, jmp, steps + 1);
      }
    }
  }

  /** A search for the first key only ever moves left; with three or more bits set in n/2 it runs
      out of steps before index 0. */
  lemma {:induction false} MissesFirst(cells: seq<int>, n: nat, idx: int, jmp: nat, steps: nat)
    requires Table(cells, n) && n > 0 && Reach(n, idx, jmp, steps)
    requires Popcount(n / 2) >= 3 && jmp >= 1
    requires idx == Popcount(n / 2) + Slack(jmp) - steps
    requires steps > 0 ==> jmp == 1
    ensures Probe(cells, n, cells[0], idx, jmp, steps).end == Miss
    decreases jmp, 2 - steps
  {
    HalvingSlack(n / 2);
    HalvingSlack(jmp);
    HalvingSlack(jmp / 2);
    assert 0 < idx < n && cells[0] < cells[idx];
    if jmp >= 2 && steps == 0 {
      MissesFirst(cells, n, idx - jmp / 2, jmp / 2, 0);
    } else if steps < 2 {
      MissesFirst(cells, n, idx - 1, jmp, steps + 1);
    }
  }

  /** Every key is found, and the cell behind the table is not read on the way. */
  predicate FindsEveryKey(cells: seq<int>, n: nat)
    requires Table(cells, n)
  {
    HalvingSlack(n / 2);
    forall t :: 0 <= t < n ==>
      var p := Probe(cells, n, cells[t], n / 2, n / 2, 0); p.end == Hit(t) && AllInside(n, p.looks)
  }

  /** The search is complete exactly for the table sizes whose half has at most two bits set. */
  lemma {:induction false} Completeness(cells: seq<int>, n: nat)
    requires Table(cells, n) && n > 0
    ensures FindsEveryKey(cells, n) <==> Popcount(n / 2) <= 2
  {
    HalvingSlack(n / 2);
    if Popcount(n / 2) <= 2 {
      forall t | 0 <= t < n
        ensures var p := Probe(cells, n, cells[t], n / 2, n / 2, 0); p.end == Hit(t) && AllInside(n, p.looks)
      {
        FindsTarget(cells, n, t, n / 2, n / 2, 0);
      }
    } else {
      MissesFirst(cells, n, n / 2, n / 2, 0);
    }
  }
}
