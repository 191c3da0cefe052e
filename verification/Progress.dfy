/** Deadlock freedom and termination: every wait is on a worker further along one fixed rank
    (ride row, then index slot, then driver row; a key slot is held only at a commit), and every
    statement uses up part of a budget fixed by the call and the number of drivers. */
module Progress {
  import opened Domain
  import opened Protocol
  import opened Safety
  import opened Ranking
  import opened Counting

  /** Worker w's next statement needs something that v's open transaction holds. */
  predicate WaitsOn(g: State, w: WorkerId, v: WorkerId) {
    && w in g.workers && v in g.workers && v != w
    && var p, q := g.workers[w], g.workers[v];
      || ((p.MUpdate? || p.EUpdate?) && RideRow(q) == Some(p.ride))
      || (p.MSlot? && Slot(g.db, q) == Some(p.driver))
      || ((p.MFlush? || p.EFlush? || p.LFlush?) && DriverRow(q) == Some(p.driver))
      || (p.CInsert? && p.key.Some? && KeySlot(q) == p.key)
  }

  function Rank(pc: Pc): nat {
    if pc.CInsert? || pc.MUpdate? || pc.EUpdate? then 0
    else if pc.MSlot? then 1
    else if pc.MFlush? || pc.EFlush? || pc.LFlush? then 2
    else 3
  }

  lemma WaitsClimb(g: State, w: WorkerId, v: WorkerId)
    requires WaitsOn(g, w, v)
    ensures Rank(g.workers[w]) < Rank(g.workers[v])
  {}

  ghost predicate Ready(c: Config, g: State, w: WorkerId) {
    w in g.workers && exists ch :: Local(c, g, w, ch).Some?
  }

  lemma {:induction false} UnusedNumber(s: set<nat>) returns (n: nat)
    ensures forall x :: x in s ==> x < n
  {
    n := 0;
    if s != {} {
      var x :| x in s;
      var m := UnusedNumber(s - {x});
      n := if m > x then m else x + 1;
      assert forall y :: y in s ==> y == x || y in s - {x};
    }
  }

  lemma NewIdExists(g: State) returns (r: RideId)
    ensures !IdInUse(g, r)
  {
    var inserted := set w | w in g.workers && g.workers[w].CCommit? :: g.workers[w].ride;
    r := UnusedNumber(g.db.rides.Keys + inserted);
    forall v | v in g.workers && g.workers[v].CCommit? ensures g.workers[v].ride != r {
      assert g.workers[v].ride in inserted;
    }
  }

  lemma {:induction false} SetAsSequence(t: set<DriverId>) returns (ids: seq<DriverId>)
    ensures NoDuplicates(ids) && forall d :: d in ids <==> d in t
  {
    ids := [];
    if t != {} {
      var d :| d in t;
      var rest := SetAsSequence(t - {d});
      ids := [d] + rest;
      forall x ensures x in ids <==> x in t { assert x in ids <==> x == d || x in rest; }
    }
  }

  lemma SameMembers<T>(s: seq<T>, t: seq<T>)
    requires multiset(s) == multiset(t)
    ensures forall x :: x in s <==> x in t
  {
    assert forall x :: x in s <==> x in multiset(s);
    assert forall x :: x in t <==> x in multiset(t);
  }

  /** A ranking of any set of candidates exists, so the search always ends in the loop. */
  lemma RankingExists(c: Config, req: Request, found: map<DriverId, Place>) returns (order: seq<DriverId>)
    ensures RankedOrder(c, req, found, order)
  {
    var ids := SetAsSequence(found.Keys);
    var s := seq(|ids|, i requires 0 <= i < |ids| => Candidate(ids[i], Distance(c, req, found[ids[i]])));
    assert Ids(s) == ids;
    var t := StableSort(s);
    SortKeepsDistinct(s);
    SameMembers(t, s);
    order := Ids(t);
    forall i | 0 <= i < |t| ensures order[i] in found && t[i].km == Distance(c, req, found[order[i]]) {
      assert t[i] in s;
    }
    forall d | d in found ensures d in order {
      var i :| 0 <= i < |ids| && ids[i] == d;
      assert s[i] in t;
    }
  }

  /** What a worker's next statement needs is free unless it waits on someone. */
  lemma NobodyHoldsIt(g: State, w: WorkerId)
    requires w in g.workers && forall v :: !WaitsOn(g, w, v)
    ensures var pc := g.workers[w];
      && (pc.MUpdate? || pc.EUpdate? ==> !RideRowHeld(g, w, pc.ride))
      && (pc.MSlot? ==> !SlotHeld(g, w, pc.driver))
      && (pc.MFlush? || pc.EFlush? || pc.LFlush? ==> !DriverRowHeld(g, w, pc.driver))
      && (pc.CInsert? ==> !KeySlotHeld(g, w, pc.key))
  {
    var pc := g.workers[w];
    forall v | v in g.workers && v != w && !WaitsOn(g, w, v)
      ensures pc.MUpdate? || pc.EUpdate? ==> RideRow(g.workers[v]) != Some(pc.ride)
      ensures pc.MSlot? ==> Slot(g.db, g.workers[v]) != Some(pc.driver)
      ensures pc.MFlush? || pc.EFlush? || pc.LFlush? ==> DriverRow(g.workers[v]) != Some(pc.driver)
      ensures pc.CInsert? && pc.key.Some? ==> KeySlot(g.workers[v]) != pc.key
    {}
  }

  /** A worker is held up by nothing but another worker's open transaction. */
  lemma OnlyWaitingBlocks(c: Config, g: State, w: WorkerId)
    requires Inv(c, g) && w in g.workers && !Finished(g.workers[w])
    requires forall v :: !WaitsOn(g, w, v)
    ensures Ready(c, g, w)
  {
    var pc := g.workers[w];
    assert PcInv(c, g.db, pc);
    NobodyHoldsIt(g, w);
    var r := NewIdExists(g);
    var order := [];
    if pc.MSearch? {
      var req := g.db.rides[pc.ride].request;
      order := RankingExists(c, req, Discover(c, g.db, req, pc.k, pc.found));
    }
    var ch := Choice(r, 1.0, 0, true, order, Honest, false);
    FreeMeansEnabled(c, g, w, ch);
  }

  lemma FreeMeansEnabled(c: Config, g: State, w: WorkerId, ch: Choice)
    requires w in g.workers && !Finished(g.workers[w]) && PcInv(c, g.db, g.workers[w]) && Agreement(g.db)
    requires var pc := g.workers[w];
      && (pc.MUpdate? || pc.EUpdate? ==> !RideRowHeld(g, w, pc.ride))
      && (pc.MSlot? ==> !SlotHeld(g, w, pc.driver))
      && (pc.MFlush? || pc.EFlush? || pc.LFlush? ==> !DriverRowHeld(g, w, pc.driver))
      && (pc.CInsert? ==> !KeySlotHeld(g, w, pc.key) && !IdInUse(g, ch.newRide))
      && (pc.MSearch? ==> var req := g.db.rides[pc.ride].request;
            RankedOrder(c, req, Discover(c, g.db, req, pc.k, pc.found), ch.order))
    ensures Local(c, g, w, ch).Some?
  {
    var pc := g.workers[w];
    if pc.ECommit? && pc.freed.Some? { assert Names(g.db, pc.ride, pc.freed.value); }
  }

  /** In every reachable state with an unfinished worker, some unfinished worker can take its next
      statement: the one at the end of the chain of waits. */
  lemma {:induction false} DeadlockFree(c: Config, g: State, w: WorkerId)
    requires Reachable(c, g) && w in g.workers && !Finished(g.workers[w])
    ensures exists v :: Ready(c, g, v)
    decreases 3 - Rank(g.workers[w])
  {
    ReachableInv(c, g);
    if exists v :: WaitsOn(g, w, v) {
      var v :| WaitsOn(g, w, v);
      WaitsClimb(g, w, v);
      DeadlockFree(c, g, v);
    } else {
      OnlyWaitingBlocks(c, g, w);
    }
  }

  // Termination.

  /** An upper bound on the statements a call has left, with n drivers registered. */
  function Fuel(c: Config, n: nat, pc: Pc): nat {
    match pc
    case CLookup(_, _) => 8 * n + c.maxRing + 9
    case CInsert(_, _) => 8 * n + c.maxRing + 8
    case CCommit(_, _) => 8 * n + c.maxRing + 7
    case CReread(_, _) => 8 * n + c.maxRing + 7
    case CEmit(_, _) => 8 * n + c.maxRing + 6
    case MCheck(_) => 8 * n + c.maxRing + 5
    case MSearch(_, k, _) => 8 * n + 3 + (if k <= c.maxRing then c.maxRing - k else 0)
    case MLoop(_, rest) => 8 * |rest| + 1
    case MRecheck(_, rest, _, _) => 8 * |rest| + 8
    case MUpdate(_, rest, _, _) => 8 * |rest| + 7
    case MSlot(_, rest, _, _) => 8 * |rest| + 6
    case MFlush(_, rest, _, _) => 8 * |rest| + 5
    case MCommit(_, rest, _, _) => 8 * |rest| + 4
    case MEmit(_, rest, _, _) => 8 * |rest| + 3
    case MRelease(_, rest, _, _, _) => 8 * |rest| + 2
    case EGet(_, _) => 7
    case EUpdate(_, _) => 6
    case ERefresh(_, _) => 5
    case EDriver(_, _, _) => 4
    case EFlush(_, _, _) => 3
    case ECommit(_, _, _) => 2
    case EEmit(_, _) => 1
    case LGet(_, _) => 3
    case LFlush(_, _, _) => 2
    case LCommit(_, _, _) => 1
    case Done(_) => 0
    case Crashed => 0
  }

  /** The number of drivers bounds the candidate list. */
  lemma CandidatesBounded(c: Config, db: Db, req: Request, k: nat, found: map<DriverId, Place>, order: seq<DriverId>)
    requires found.Keys <= db.drivers.Keys && RankedOrder(c, req, Discover(c, db, req, k, found), order)
    ensures |order| <= |db.drivers.Keys|
  {
    DistinctLength(order, db.drivers.Keys);
  }

  lemma SearcherBurnsFuel(c: Config, g: State, w: WorkerId, ch: Choice, e: Effect, n: nat)
    requires w in g.workers && PcInv(c, g.db, g.workers[w]) && g.workers[w].MSearch?
    requires MatchStep(c, g, w, ch) == Some(e) && n == |g.db.drivers.Keys|
    ensures Fuel(c, n, e.pc) < Fuel(c, n, g.workers[w])
  {
    var pc := g.workers[w];
    if e.pc.MLoop? { CandidatesBounded(c, g.db, g.db.rides[pc.ride].request, pc.k, pc.found, ch.order); }
  }

  lemma ChooserBurnsFuel(c: Config, g: State, w: WorkerId, ch: Choice, e: Effect, n: nat)
    requires w in g.workers && (g.workers[w].MCheck? || g.workers[w].MLoop?) && MatchStep(c, g, w, ch) == Some(e)
    ensures Fuel(c, n, e.pc) < Fuel(c, n, g.workers[w])
  {}

  lemma HolderBurnsFuel(c: Config, g: State, w: WorkerId, ch: Choice, e: Effect, n: nat)
    requires w in g.workers && MatchStep(c, g, w, ch) == Some(e)
    requires !g.workers[w].MCheck? && !g.workers[w].MLoop? && !g.workers[w].MSearch?
    ensures Fuel(c, n, e.pc) < Fuel(c, n, g.workers[w])
  {
    hide RideRowHeld, SlotHeld, DriverRowHeld, SlotTaken, OneActiveRidePerDriver, Assign;
  }

  lemma CreatorBurnsFuel(c: Config, g: State, w: WorkerId, ch: Choice, e: Effect, n: nat)
    requires w in g.workers && CreateStep(c, g, w, ch) == Some(e)
    ensures Fuel(c, n, e.pc) < Fuel(c, n, g.workers[w])
  {}

  lemma EnderBurnsFuel(c: Config, g: State, w: WorkerId, ch: Choice, e: Effect, n: nat)
    requires w in g.workers && EndStep(c, g, w, ch) == Some(e)
    ensures Fuel(c, n, e.pc) < Fuel(c, n, g.workers[w])
  {}

  lemma LocatorBurnsFuel(c: Config, g: State, w: WorkerId, ch: Choice, e: Effect, n: nat)
    requires w in g.workers && LocateStep(c, g, w, ch) == Some(e)
    ensures Fuel(c, n, e.pc) < Fuel(c, n, g.workers[w])
  {}

  lemma WorkBurnsFuel(c: Config, g: State, w: WorkerId, ch: Choice, e: Effect, n: nat)
    requires w in g.workers && PcInv(c, g.db, g.workers[w]) && Worked(c, g, w, ch, e)
    requires n == |g.db.drivers.Keys|
    ensures Fuel(c, n, e.pc) < Fuel(c, n, g.workers[w])
  {
    if g.workers[w].MSearch? { SearcherBurnsFuel(c, g, w, ch, e, n); }
    else if Creating(g.workers[w]) { CreatorBurnsFuel(c, g, w, ch, e, n); }
    else if g.workers[w].MCheck? || g.workers[w].MLoop? { ChooserBurnsFuel(c, g, w, ch, e, n); }
    else if Matching(g.workers[w]) { HolderBurnsFuel(c, g, w, ch, e, n); }
    else if EndingRide(g.workers[w]) { EnderBurnsFuel(c, g, w, ch, e, n); }
    else { LocatorBurnsFuel(c, g, w, ch, e, n); }
  }

  lemma CommitsRegisterNobody(c: Config, g: State, w: WorkerId, ch: Choice, e: Effect)
    requires w in g.workers && PcInv(c, g.db, g.workers[w]) && Worked(c, g, w, ch, e)
    ensures e.db.drivers.Keys == g.db.drivers.Keys
  {
    CommitForms(c, g, w, ch, e);
  }

  ghost function TotalFuel(c: Config, n: nat, workers: map<WorkerId, Pc>): nat
    decreases |workers|
  {
    if workers == map[] then 0
    else
      var w :| w in workers;
      Fuel(c, n, workers[w]) + TotalFuel(c, n, workers - {w})
  }

  lemma {:induction false} TotalFuelSplits(c: Config, n: nat, workers: map<WorkerId, Pc>, w: WorkerId)
    requires w in workers
    ensures TotalFuel(c, n, workers) == Fuel(c, n, workers[w]) + TotalFuel(c, n, workers - {w})
    decreases |workers|
  {
    var v :| v in workers && TotalFuel(c, n, workers) == Fuel(c, n, workers[v]) + TotalFuel(c, n, workers - {v});
    if v != w {
      TotalFuelSplits(c, n, workers - {v}, w);
      TotalFuelSplits(c, n, workers - {w}, v);
      assert workers - {v} - {w} == workers - {w} - {v};
    }
  }

  lemma TotalFuelUpdate(c: Config, n: nat, workers: map<WorkerId, Pc>, w: WorkerId, pc: Pc)
    requires w in workers
    ensures TotalFuel(c, n, workers[w := pc]) == TotalFuel(c, n, workers) - Fuel(c, n, workers[w]) + Fuel(c, n, pc)
  {
    TotalFuelSplits(c, n, workers, w);
    TotalFuelSplits(c, n, workers[w := pc], w);
    assert workers[w := pc] - {w} == workers - {w};
  }

  lemma DoneNeedsNothing(c: Config, n: nat, pc: Pc)
    ensures Finished(pc) <==> Fuel(c, n, pc) == 0
  {}

  /** Workers that have finished burn nothing. */
  lemma {:induction false} FinishedBurnNothing(c: Config, n: nat, workers: map<WorkerId, Pc>)
    requires forall v :: v in workers ==> Finished(workers[v])
    ensures TotalFuel(c, n, workers) == 0
    decreases |workers|
  {
    hide Fuel, Finished;
    if workers != map[] {
      var w :| w in workers && TotalFuel(c, n, workers) == Fuel(c, n, workers[w]) + TotalFuel(c, n, workers - {w});
      DoneNeedsNothing(c, n, workers[w]);
      FinishedBurnNothing(c, n, workers - {w});
    }
  }

  function Statements(acts: seq<Action>): nat {
    if acts == [] then 0 else Statements(acts[..|acts| - 1]) + (if acts[|acts| - 1].Work? then 1 else 0)
  }

  predicate NoArrivals(acts: seq<Action>) {
    forall i :: 0 <= i < |acts| ==> !acts[i].Arrive? && !acts[i].NewDriver?
  }

  lemma WorkerSpends(c: Config, g: State, w: WorkerId, ch: Choice, e: Effect, n: nat)
    requires w in g.workers && PcInv(c, g.db, g.workers[w]) && Worked(c, g, w, ch, e)
    requires n == |g.db.drivers.Keys|
    ensures e.db.drivers.Keys == g.db.drivers.Keys
    ensures TotalFuel(c, n, g.workers[w := e.pc]) < TotalFuel(c, n, g.workers)
  {
    CommitsRegisterNobody(c, g, w, ch, e);
    WorkBurnsFuel(c, g, w, ch, e, n);
    TotalFuelUpdate(c, n, g.workers, w, e.pc);
  }

  lemma StepBurnsFuel(c: Config, g: State, a: Action, g': State, n: nat)
    requires Next(c, g, a) == Some(g') && !a.Arrive? && !a.NewDriver?
    requires a.Work? ==> PcInv(c, g.db, g.workers[a.worker])
    requires n == |g.db.drivers.Keys|
    ensures g'.db.drivers.Keys == g.db.drivers.Keys
    ensures TotalFuel(c, n, g'.workers) + (if a.Work? then 1 else 0) <= TotalFuel(c, n, g.workers)
  {
    hide TotalFuel, Local;
    if a.Work? {
      WorkerSpends(c, g, a.worker, a.choice, Local(c, g, a.worker, a.choice).value, n);
    } else if a.Crash? {
      TotalFuelUpdate(c, n, g.workers, a.worker, Crashed);
    }
  }

  /** Once no calls and no drivers arrive, the whole system executes at most a fixed number of
      further statements, however they interleave, expire and crash. */
  lemma {:induction false} RunsAreFinite(c: Config, ss: seq<State>, acts: seq<Action>)
    requires Run(c, ss, acts) && Inv(c, ss[0]) && NoArrivals(acts)
    ensures ss[|acts|].db.drivers.Keys == ss[0].db.drivers.Keys
    ensures var n := |ss[0].db.drivers.Keys|;
      Statements(acts) + TotalFuel(c, n, ss[|acts|].workers) <= TotalFuel(c, n, ss[0].workers)
    decreases |acts|
  {
    hide Local, Inv, PcInv, TotalFuel;
    if acts != [] {
      var k := |acts| - 1;
      RunsAreFinite(c, ss[..k + 1], acts[..k]);
      RunKeepsInv(c, ss, acts, k);
      assert Next(c, ss[k], acts[k]) == Some(ss[k + 1]);
      if acts[k].Work? { InvKnows(c, ss[k], acts[k].worker); }
      StepBurnsFuel(c, ss[k], acts[k], ss[k + 1], |ss[0].db.drivers.Keys|);
    }
  }
}
