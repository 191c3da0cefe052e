/** Crash recovery: leases left by crashed workers run out within the TTL, and afterwards a lone
    match_ride succeeds whenever an AVAILABLE driver is within reach. */
module Recovery {
  import opened Domain
  import opened Leases
  import opened Protocol
  import opened Safety
  import opened LeaseSafety
  import opened Progress
  import opened Candidates
  import Geo
  import Ranking

  /** A bound key has time left. */
  ghost predicate LeasesLive(g: State) { forall d :: d in g.locks ==> g.clock < g.locks[d].expiry }

  lemma StepKeepsLive(c: Config, g: State, a: Action, g': State)
    requires c.ttl > 0 && LeasesLive(g) && Next(c, g, a) == Some(g')
    ensures LeasesLive(g') && g.clock <= g'.clock
  {
    if a.Work? {
      var e := Local(c, g, a.worker, a.choice).value;
      WorkerTouchesOwnLease(c, g, a.worker, a.choice, e);
    }
  }

  lemma {:induction false} AlwaysLive(c: Config, ss: seq<State>, acts: seq<Action>, i: nat)
    requires c.ttl > 0 && Run(c, ss, acts) && LeasesLive(ss[0]) && i < |ss|
    ensures LeasesLive(ss[i])
  {
    if i > 0 {
      AlwaysLive(c, ss, acts, i - 1);
      StepKeepsLive(c, ss[i - 1], acts[i - 1], ss[i]);
    }
  }

  lemma ReachableLive(c: Config, g: State)
    requires c.ttl > 0 && Reachable(c, g)
    ensures LeasesLive(g)
  {
    var ss, acts :| Run(c, ss, acts) && Init(ss[0]) && ss[|acts|] == g;
    AlwaysLive(c, ss, acts, |acts|);
  }

  /** No step of this run granted a lease. */
  ghost predicate NothingGranted(ss: seq<State>) {
    forall i :: 0 < i < |ss| ==> NoneAdded(ss[i - 1].locks, ss[i].locks)
  }

  predicate NoneAdded(before: Table<DriverId>, after: Table<DriverId>) {
    forall d :: d in after ==> d in before && after[d] == before[d]
  }

  lemma {:induction false} OldLeasesOnly(ss: seq<State>, i: nat, d: DriverId)
    requires NothingGranted(ss) && i < |ss| && d in ss[i].locks
    ensures d in ss[0].locks && ss[i].locks[d] == ss[0].locks[d]
  {
    if i > 0 {
      assert NoneAdded(ss[i - 1].locks, ss[i].locks);
      OldLeasesOnly(ss, i - 1, d);
    }
  }

  /** From any reachable state, whoever crashed holding what: once the TTL has passed without a new
      acquisition, no lease is left. */
  lemma LeasesRunOut(c: Config, ss: seq<State>, acts: seq<Action>)
    requires c.ttl > 0 && Run(c, ss, acts) && Reachable(c, ss[0]) && NothingGranted(ss)
    requires ss[|acts|].clock >= ss[0].clock + c.ttl
    ensures ss[|acts|].locks == map[]
  {
    ReachableLive(c, ss[0]);
    ReachableTokens(c, ss[0]);
    AlwaysLive(c, ss, acts, |acts|);
    forall d | d in ss[|acts|].locks ensures false { OldLeasesOnly(ss, |acts|, d); }
  }

  // A lone match.

  /** Nobody else is running and no key is bound. */
  ghost predicate Quiet(g: State, w: WorkerId) {
    g.locks == map[] && forall v :: v in g.workers && v != w ==> Finished(g.workers[v])
  }

  /** Only w works, Redis is up and honest, and time passes. */
  predicate Lone(a: Action, w: WorkerId) {
    (a.Work? && a.worker == w && a.choice.acq == Honest) || a.Tick?
  }

  /** What the lone matcher can count on. */
  ghost predicate Promising(c: Config, db: Db, r: RideId) {
    && GeoAssumptions(c) && c.target >= 1 && Agreement(db)
    && r in db.rides && db.rides[r].status == Requested
    && Within(c, db, db.rides[r].request, c.maxRing) != {}
  }

  /** The lone matcher of r is on its way to the driver it should choose. */
  ghost predicate OnTrack(c: Config, db: Db, r: RideId, now: Db, locks: Table<DriverId>, pc: Pc)
    requires r in db.rides
  {
    var req := db.rides[r].request;
    match pc
    case MCheck(x) => x == r && now == db && locks == map[]
    case MSearch(x, k, found) => x == r && now == db && locks == map[] && Searched(c, db, req, k, found)
    case MLoop(x, rest) => x == r && now == db && locks == map[] && rest != [] && Chosen(c, db, req, rest[0])
    case MRecheck(x, _, d, _) => x == r && now == db && Chosen(c, db, req, d)
    case MUpdate(x, _, d, _) => x == r && now == db && Chosen(c, db, req, d)
    case MSlot(x, _, d, _) => x == r && now == db && Chosen(c, db, req, d)
    case MFlush(x, _, d, _) => x == r && now == db && Chosen(c, db, req, d)
    case MCommit(x, _, d, _) => x == r && now == db && Chosen(c, db, req, d)
    case MEmit(x, _, d, _) => x == r && Given(c, db, r, now, d)
    case MRelease(x, _, d, _, exit) => x == r && Given(c, db, r, now, d) && exit == Some(Assigned(r, d))
    case Done(o) => o.Assigned? && o.ride == r && Given(c, db, r, now, o.driver)
    case _ => false
  }

  /** The outcome: r was given to the chosen driver and nothing else changed. */
  ghost predicate Given(c: Config, db: Db, r: RideId, now: Db, d: DriverId)
    requires r in db.rides
  {
    Chosen(c, db, db.rides[r].request, d) && d in db.drivers && now == Assign(db, r, d)
  }

  /** Before ring k the search holds the AVAILABLE drivers of disk k - 1, which were too few. */
  ghost predicate Searched(c: Config, db: Db, req: Request, k: nat, found: map<DriverId, Place>) {
    && k <= c.maxRing
    && found.Keys == (if k == 0 then {} else Within(c, db, req, k - 1))
    && (forall d :: d in found ==> d in db.drivers && found[d] == db.drivers[d].place)
    && forall j: nat :: j < k ==> |Within(c, db, req, j)| < c.target
  }

  predicate FreeInRing(c: Config, db: Db, req: Request, k: nat, d: DriverId) {
    && d in db.drivers && db.drivers[d].status == Available
    && db.drivers[d].place.cell in Geo.Ring(c, Centre(c, req), k)
  }

  lemma DiscoverAdds(c: Config, db: Db, req: Request, k: nat, found: map<DriverId, Place>)
    ensures var found' := Discover(c, db, req, k, found);
      && (forall d :: d in found' <==> d in found || FreeInRing(c, db, req, k, d))
      && (forall d :: d in found' ==> found'[d] == if d in found then found[d] else db.drivers[d].place)
  {}

  lemma SearchHoldsDisk(c: Config, db: Db, req: Request, k: nat, found: map<DriverId, Place>)
    requires GeoAssumptions(c) && Searched(c, db, req, k, found)
    ensures var found' := Discover(c, db, req, k, found);
      && found'.Keys == Within(c, db, req, k)
      && forall d :: d in found' ==> d in db.drivers && found'[d] == db.drivers[d].place
  {
    hide GeoAssumptions, Geo.Ring, Discover;
    var found' := Discover(c, db, req, k, found);
    DiscoverAdds(c, db, req, k, found);
    forall d ensures d in found' <==> d in Within(c, db, req, k) {
      if d in db.drivers && db.drivers[d].status == Available { RingCompletesDisk(c, db, req, k, d); }
    }
  }

  /** A ranked candidate list of the stopping disk starts with the chosen driver. */
  lemma FirstIsChosen(c: Config, db: Db, req: Request, k: nat, found: map<DriverId, Place>, order: seq<DriverId>)
    requires StopsAt(c, db, req, k) && found.Keys == Within(c, db, req, k) && found.Keys != {}
    requires forall d :: d in found ==> d in db.drivers && found[d] == db.drivers[d].place
    requires Ranking.RankedOrder(c, req, found, order)
    ensures order != [] && Chosen(c, db, req, order[0])
  {}

  /** Where the search goes once ring k has brought it to `found`. */
  ghost predicate SearchGoes(c: Config, r: RideId, req: Request, k: nat, found: map<DriverId, Place>,
                             order: seq<DriverId>, pc: Pc) {
    if |found| >= c.target || k >= c.maxRing then pc == MLoop(r, order) && Ranking.RankedOrder(c, req, found, order)
    else pc == MSearch(r, k + 1, found)
  }

  lemma SearchForms(c: Config, g: State, w: WorkerId, ch: Choice, e: Effect, r: RideId, k: nat,
                    found: map<DriverId, Place>)
    requires w in g.workers && g.workers[w] == MSearch(r, k, found) && r in g.db.rides
    requires MatchStep(c, g, w, ch) == Some(e)
    ensures e.db == g.db && e.locks == g.locks
    ensures var req := g.db.rides[r].request;
      SearchGoes(c, r, req, k, Discover(c, g.db, req, k, found), ch.order, e.pc)
  {}

  /** The search stops at the stopping radius with a non-empty list, or goes on knowing one disk more. */
  lemma StopsOrGoesOn(c: Config, db: Db, r: RideId, req: Request, k: nat, found: map<DriverId, Place>,
                      order: seq<DriverId>, pc: Pc)
    requires c.target >= 1 && Within(c, db, req, c.maxRing) != {} && k <= c.maxRing
    requires found.Keys == Within(c, db, req, k) && forall j: nat :: j < k ==> |Within(c, db, req, j)| < c.target
    requires forall d :: d in found ==> d in db.drivers && found[d] == db.drivers[d].place
    requires SearchGoes(c, r, req, k, found, order, pc)
    ensures pc.MLoop? ==> pc.ride == r && pc.rest != [] && Chosen(c, db, req, pc.rest[0])
    ensures !pc.MLoop? ==> pc.MSearch? && pc.ride == r && Searched(c, db, req, pc.k, pc.found)
  {
    hide Within, Ranking.RankedOrder, NearestWithin;
    assert |found| == |found.Keys|;
    if pc.MLoop? {
      assert StopsAt(c, db, req, k);
      FirstIsChosen(c, db, req, k, found, order);
    }
  }

  /** The chosen driver is AVAILABLE, so no active ride names it. */
  lemma ChosenIsFree(c: Config, db: Db, req: Request, d: DriverId)
    requires Agreement(db) && Chosen(c, db, req, d)
    ensures d in db.drivers && db.drivers[d].status == Available && forall o :: !Names(db, o, d)
  {}

  lemma LoneStep(c: Config, db: Db, g: State, w: WorkerId, ch: Choice, e: Effect, r: RideId)
    requires r in db.rides && db.rides[r].status == Requested
    requires w in g.workers && !g.workers[w].MSearch? && ch.acq == Honest
    requires OnTrack(c, db, r, g.db, g.locks, g.workers[w]) && MatchStep(c, g, w, ch) == Some(e)
    requires Held(g.workers[w]).Some? && g.db == db ==>
      var d := g.workers[w].driver;
      d in db.drivers && db.drivers[d].status == Available && forall o :: !Names(db, o, d)
    requires g.workers[w].MCommit? ==>
      g.workers[w].driver in db.drivers && OneActiveRidePerDriver(Assign(db, r, g.workers[w].driver))
    ensures OnTrack(c, db, r, e.db, e.locks, e.pc)
  {}

  lemma LoneWork(c: Config, db: Db, g: State, w: WorkerId, ch: Choice, e: Effect, r: RideId)
    requires Promising(c, db, r) && w in g.workers && ch.acq == Honest
    requires OnTrack(c, db, r, g.db, g.locks, g.workers[w]) && MatchStep(c, g, w, ch) == Some(e)
    ensures OnTrack(c, db, r, e.db, e.locks, e.pc)
  {
    if g.workers[w].MSearch? {
      var pc := g.workers[w];
      SearchForms(c, g, w, ch, e, r, pc.k, pc.found);
      var req := db.rides[r].request;
      SearchHoldsDisk(c, db, req, pc.k, pc.found);
      StopsOrGoesOn(c, db, r, req, pc.k, Discover(c, db, req, pc.k, pc.found), ch.order, e.pc);
    }
    else {
      if Held(g.workers[w]).Some? {
        var d := g.workers[w].driver;
        ChosenIsFree(c, db, db.rides[r].request, d);
        AssignAgrees(db, r, d);
        assert Names(Assign(db, r, d), r, d);
      }
      LoneStep(c, db, g, w, ch, e, r);
    }
  }

  lemma LoneTurn(c: Config, db: Db, g: State, a: Action, g': State, w: WorkerId, r: RideId)
    requires Promising(c, db, r) && w in g.workers && Lone(a, w) && Next(c, g, a) == Some(g')
    requires OnTrack(c, db, r, g.db, g.locks, g.workers[w])
    ensures w in g'.workers && OnTrack(c, db, r, g'.db, g'.locks, g'.workers[w])
    ensures forall v :: v in g'.workers && v != w ==> v in g.workers && g'.workers[v] == g.workers[v]
  {
    if a.Work? {
      var e := Local(c, g, w, a.choice).value;
      assert Matching(g.workers[w]);
      LoneWork(c, db, g, w, a.choice, e, r);
    } else {
      assert g.locks == map[] ==> g'.locks == map[];
    }
  }

  lemma {:induction false} StaysOnTrack(c: Config, ss: seq<State>, acts: seq<Action>, i: nat, w: WorkerId, r: RideId)
    requires Run(c, ss, acts) && Promising(c, ss[0].db, r) && i < |ss|
    requires Quiet(ss[0], w) && w in ss[0].workers && ss[0].workers[w] == MCheck(r)
    requires forall k :: 0 <= k < |acts| ==> Lone(acts[k], w)
    ensures w in ss[i].workers && OnTrack(c, ss[0].db, r, ss[i].db, ss[i].locks, ss[i].workers[w])
    ensures forall v :: v in ss[i].workers && v != w ==> Finished(ss[i].workers[v])
  {
    if i > 0 {
      StaysOnTrack(c, ss, acts, i - 1, w, r);
      LoneTurn(c, ss[0].db, ss[i - 1], acts[i - 1], ss[i], w, r);
    }
  }

  lemma AloneNeverWaits(g: State, w: WorkerId)
    requires forall v :: v in g.workers && v != w ==> Finished(g.workers[v])
    ensures forall v :: !WaitsOn(g, w, v)
  {}

  /** The lone matcher is never stuck, and when it is done the ride has been given to the nearest
      AVAILABLE driver of the stopping disk and nothing else has changed. */
  lemma LoneMatchSucceeds(c: Config, ss: seq<State>, acts: seq<Action>, w: WorkerId, r: RideId)
    requires Run(c, ss, acts) && Reachable(c, ss[0]) && Promising(c, ss[0].db, r)
    requires Quiet(ss[0], w) && w in ss[0].workers && ss[0].workers[w] == MCheck(r)
    requires forall k :: 0 <= k < |acts| ==> Lone(acts[k], w)
    ensures w in ss[|acts|].workers && MatchedOrMoving(c, ss[0].db, ss[|acts|], w, r)
  {
    ReachableInv(c, ss[0]);
    RunKeepsInv(c, ss, acts, |acts|);
    StaysOnTrack(c, ss, acts, |acts|, w, r);
    var g := ss[|acts|];
    if Finished(g.workers[w]) {
      GivenSucceeds(c, ss[0].db, g, w, r, g.workers[w].outcome.driver);
    } else {
      AloneNeverWaits(g, w);
      OnlyWaitingBlocks(c, g, w);
    }
  }

  /** Either w has returned the chosen driver, or it can take its next statement. */
  ghost predicate MatchedOrMoving(c: Config, db: Db, g: State, w: WorkerId, r: RideId)
    requires r in db.rides && w in g.workers
  {
    if Finished(g.workers[w]) then Succeeded(c, db, g, w, r)
    else Ready(c, g, w)
  }

  lemma {:induction false} ReachesAlong(c: Config, ss: seq<State>, acts: seq<Action>, i: nat)
    requires Run(c, ss, acts) && Reachable(c, ss[0]) && i < |ss|
    ensures Reachable(c, ss[i])
  {
    if i > 0 {
      ReachesAlong(c, ss, acts, i - 1);
      ReachesNext(c, ss[i - 1], acts[i - 1], ss[i]);
    }
  }

  /** Alone, an unfinished call has executed fewer statements than its budget. */
  lemma BudgetRunsOut(c: Config, ss: seq<State>, acts: seq<Action>, w: WorkerId)
    requires Run(c, ss, acts) && Inv(c, ss[0]) && NoArrivals(acts) && w in ss[0].workers && w in ss[|acts|].workers
    requires forall v :: v in ss[0].workers && v != w ==> Finished(ss[0].workers[v])
    requires Statements(acts) >= Fuel(c, |ss[0].db.drivers.Keys|, ss[0].workers[w])
    ensures Finished(ss[|acts|].workers[w])
  {
    hide Next, Inv, Fuel, Statements, TotalFuel;
    var n, last := |ss[0].db.drivers.Keys|, ss[|acts|].workers;
    RunsAreFinite(c, ss, acts);
    TotalFuelSplits(c, n, ss[0].workers, w);
    FinishedBurnNothing(c, n, ss[0].workers - {w});
    TotalFuelSplits(c, n, last, w);
    DoneNeedsNothing(c, n, last[w]);
  }

  /** A lone match_ride call that is given its statements returns the chosen driver. */
  lemma LoneMatchEnds(c: Config, ss: seq<State>, acts: seq<Action>, w: WorkerId, r: RideId)
    requires Run(c, ss, acts) && Reachable(c, ss[0]) && Promising(c, ss[0].db, r)
    requires Quiet(ss[0], w) && w in ss[0].workers && ss[0].workers[w] == MCheck(r)
    requires forall k :: 0 <= k < |acts| ==> Lone(acts[k], w)
    requires Statements(acts) >= 8 * |ss[0].db.drivers.Keys| + c.maxRing + 5
    ensures w in ss[|acts|].workers && Succeeded(c, ss[0].db, ss[|acts|], w, r)
  {
    hide Next, Inv, Reachable, Promising, Statements;
    LoneMatchSucceeds(c, ss, acts, w, r);
    ReachableInv(c, ss[0]);
    BudgetRunsOut(c, ss, acts, w);
  }

  /** Worker w has returned the chosen driver, and r has been given to it and nothing else changed. */
  ghost predicate Succeeded(c: Config, db: Db, g: State, w: WorkerId, r: RideId)
    requires r in db.rides && w in g.workers
  {
    var req := db.rides[r].request;
    exists d: DriverId, k: nat ::
      && StopsAt(c, db, req, k) && d in Within(c, db, req, k)
      && (forall o | o in Within(c, db, req, k) ::
            c.distance(req.lat, req.lng, db.drivers[d].place.lat, db.drivers[d].place.lng)
            <= c.distance(req.lat, req.lng, db.drivers[o].place.lat, db.drivers[o].place.lng))
      && g.db == Assign(db, r, d) && g.workers[w] == Done(Assigned(r, d))
  }

  lemma GivenSucceeds(c: Config, db: Db, g: State, w: WorkerId, r: RideId, d: DriverId)
    requires r in db.rides && w in g.workers && Given(c, db, r, g.db, d) && g.workers[w] == Done(Assigned(r, d))
    ensures Succeeded(c, db, g, w, r)
  {
    var k :| StopsAt(c, db, db.rides[r].request, k) && NearestWithin(c, db, db.rides[r].request, k, d);
  }

  /** The two together: after any crashes, once the live workers have finished and the TTL has passed
      with no new lease, a new match_ride call finds nothing in its way; it is never stuck, and once it
      has been given its statements it has returned the chosen driver. */
  lemma CrashRecovery(c: Config, ss: seq<State>, acts: seq<Action>, q: nat, w: WorkerId, r: RideId)
    requires c.ttl > 0 && Run(c, ss, acts) && Reachable(c, ss[0]) && q < |acts|
    requires NothingGranted(ss[..q + 1]) && ss[q].clock >= ss[0].clock + c.ttl
    requires forall v :: v in ss[q].workers ==> Finished(ss[q].workers[v])
    requires acts[q] == Arrive(w, MCheck(r)) && forall k :: q < k < |acts| ==> Lone(acts[k], w)
    requires Promising(c, ss[q].db, r)
    ensures w in ss[|acts|].workers && MatchedOrMoving(c, ss[q].db, ss[|acts|], w, r)
    ensures Statements(acts[q + 1..]) >= 8 * |ss[q].db.drivers.Keys| + c.maxRing + 5 ==>
      Succeeded(c, ss[q].db, ss[|acts|], w, r)
  {
    LeasesRunOut(c, ss[..q + 1], acts[..q]);
    ReachesAlong(c, ss, acts, q + 1);
    LoneMatchSucceeds(c, ss[q + 1..], acts[q + 1..], w, r);
    if Statements(acts[q + 1..]) >= 8 * |ss[q].db.drivers.Keys| + c.maxRing + 5 {
      LoneMatchEnds(c, ss[q + 1..], acts[q + 1..], w, r);
    }
  }
}
