/** The burst theorem: n distinct REQUESTED rides, one matcher each, racing for the same m AVAILABLE
    drivers in the pickup cell. However the matchers interleave, exactly min(n, m) of them are given
    distinct drivers and every other one is told there is no driver, although a contended candidate
    is skipped and never tried again. */
module Burst {
  import opened Domain
  import opened Protocol
  import opened Safety
  import opened LeaseSafety
  import opened Exclusion
  import Lifecycle
  import opened Counting

  datatype Crowd = Crowd(rides: map<WorkerId, RideId>, drivers: set<DriverId>)

  predicate Waiting(db: Db, r: RideId) { r in db.rides && db.rides[r].status == Requested }

  predicate Served(db: Db, r: RideId, d: DriverId) {
    r in db.rides && db.rides[r].status == Matched && db.rides[r].driver == Some(d)
  }

  predicate Taken(db: Db, d: DriverId) { d in db.drivers && db.drivers[d].status == Busy }

  /** The matchers are about to start; every AVAILABLE driver is in the pickup cell and unlocked;
      whatever ran before has finished. */
  ghost predicate Start(c: Config, b: Crowd, g: State) {
    && (forall w :: w in b.rides ==> w in g.workers && g.workers[w] == MCheck(b.rides[w]) && Waiting(g.db, b.rides[w]))
    && (forall w :: w in g.workers && w !in b.rides ==> Finished(g.workers[w]))
    && (forall v, w :: v in b.rides && w in b.rides && b.rides[v] == b.rides[w] ==> v == w)
    && b.drivers == Lifecycle.Drivers(g.db, Available)
    && (forall d :: d in b.drivers ==> d !in g.locks)
    && (forall w, d :: w in b.rides && d in b.drivers ==> InPickupCell(c, g.db, b.rides[w], d))
  }

  ghost predicate InPickupCell(c: Config, db: Db, r: RideId, d: DriverId) {
    && r in db.rides && d in db.drivers
    && var cell := c.cellAt(db.rides[r].request.lat, db.rides[r].request.lng);
      db.drivers[d].place.cell == cell && cell in c.disk(cell, 0)
  }

  /** No crash, no new call, no outage or misbehaviour of the lock, no lease lost by its holder. */
  ghost predicate Calm(g: State, a: Action, g': State) {
    && (a.Work? || a.Tick?)
    && (a.Work? ==> a.choice.acq == Honest)
    && (a.Tick? ==> forall w | w in g.workers && Held(g.workers[w]).Some? ::
          Owns(g, Held(g.workers[w]).value) ==> Owns(g', Held(g.workers[w]).value))
  }

  ghost predicate CalmRun(c: Config, ss: seq<State>, acts: seq<Action>) {
    Run(c, ss, acts) && forall i :: 0 <= i < |acts| ==> Calm(ss[i], acts[i], ss[i + 1])
  }

  predicate AllIn(s: seq<DriverId>, drivers: set<DriverId>) { forall d :: d in s ==> d in drivers }

  /** Where the matcher of ride r can be, and what is true of r and its candidates there. */
  predicate StageOk(drivers: set<DriverId>, db: Db, r: RideId, pc: Pc) {
    match pc
    case MCheck(x) => x == r && Waiting(db, r)
    case MSearch(x, _, found) => x == r && Waiting(db, r) && found.Keys <= drivers
    case MLoop(x, rest) => x == r && Waiting(db, r) && AllIn(rest, drivers)
    case MRecheck(x, rest, d, _) => x == r && Waiting(db, r) && AllIn(rest, drivers) && d in drivers
    case MUpdate(x, rest, d, _) => x == r && Waiting(db, r) && AllIn(rest, drivers) && d in drivers
    case MSlot(x, rest, d, _) => x == r && Waiting(db, r) && AllIn(rest, drivers) && d in drivers
    case MFlush(x, rest, d, _) => x == r && Waiting(db, r) && AllIn(rest, drivers) && d in drivers
    case MCommit(x, rest, d, _) => x == r && Waiting(db, r) && AllIn(rest, drivers) && d in drivers
    case MEmit(x, rest, d, _) => x == r && Served(db, r, d) && AllIn(rest, drivers) && d in drivers && Taken(db, d)
    case MRelease(x, rest, d, _, exit) =>
      && x == r && AllIn(rest, drivers) && d in drivers && Taken(db, d)
      && (if exit.None? then Waiting(db, r) else exit.value == Assigned(r, d) && Served(db, r, d))
    case Done(o) =>
      || (o == NoDriver(r) && Waiting(db, r))
      || (o.Assigned? && o.ride == r && o.driver in drivers && Served(db, r, o.driver))
    case _ => false
  }

  /** Driver d is taken, or some matcher is on its way to committing it. */
  ghost predicate Doomed(db: Db, workers: map<WorkerId, Pc>, d: DriverId) {
    Taken(db, d) || exists v :: v in workers && InTransaction(workers[v]) && workers[v].driver == d
  }

  /** The candidates a matcher has not yet passed over. */
  predicate StillToTry(pc: Pc, d: DriverId) {
    match pc
    case MCheck(_) => true
    case MSearch(_, k, found) => k == 0 || d in found
    case MLoop(_, rest) => d in rest
    case MRecheck(_, rest, _, _) => d in rest
    case MUpdate(_, rest, _, _) => d in rest
    case MSlot(_, rest, _, _) => d in rest
    case MFlush(_, rest, _, _) => d in rest
    case MCommit(_, rest, _, _) => d in rest
    case MRelease(_, rest, _, _, exit) => exit.Some? || d in rest
    case MEmit(_, _, _, _) => true
    case Done(o) => !o.NoDriver?
    case _ => false
  }

  /** Held leases on the crowd's drivers belong to matchers still holding them. */
  ghost predicate LeasesHeld(b: Crowd, g: State) {
    forall d :: d in b.drivers && d in g.locks ==> HolderExists(g, d)
  }

  ghost predicate HolderExists(g: State, d: DriverId)
    requires d in g.locks
  {
    exists w :: w in g.workers && Held(g.workers[w]) == Some(Hold(d, g.locks[d].token))
  }

  ghost predicate Fleet(c: Config, b: Crowd, db: Db) {
    && (forall d :: d in db.drivers && db.drivers[d].status == Available ==> d in b.drivers)
    && (forall w, d :: w in b.rides && d in b.drivers ==> InPickupCell(c, db, b.rides[w], d))
    && b.drivers <= db.drivers.Keys
    && (forall r, d :: d in b.drivers && Names(db, r, d) ==> r in b.rides.Values)
  }

  ghost predicate BurstInv(c: Config, b: Crowd, g: State) {
    Inv(c, g) && TokensSound(c, g) && Exclusive(g) && CrowdInv(c, b, g)
  }

  ghost predicate CrowdInv(c: Config, b: Crowd, g: State) {
    && (forall v, w :: v in b.rides && w in b.rides && b.rides[v] == b.rides[w] ==> v == w)
    && (forall w :: w in b.rides ==> w in g.workers && StageOk(b.drivers, g.db, b.rides[w], g.workers[w]))
    && (forall w :: w in g.workers && w !in b.rides ==> Finished(g.workers[w]))
    && Fleet(c, b, g.db)
    && LeasesHeld(b, g)
    && (forall w, d :: w in b.rides && d in b.drivers ==>
          StillToTry(g.workers[w], d) || Doomed(g.db, g.workers, d))
  }

  lemma StartFleet(c: Config, b: Crowd, g: State)
    requires Start(c, b, g) && Agreement(g.db)
    ensures Fleet(c, b, g.db)
  {}

  lemma StartCrowd(c: Config, b: Crowd, g: State)
    requires Start(c, b, g) && Agreement(g.db)
    ensures CrowdInv(c, b, g)
  {
    StartFleet(c, b, g);
    forall w | w in b.rides ensures StageOk(b.drivers, g.db, b.rides[w], g.workers[w]) {}
    forall w, d | w in b.rides && d in b.drivers ensures StillToTry(g.workers[w], d) {}
  }

  lemma StartExclusive(c: Config, b: Crowd, g: State)
    requires Start(c, b, g)
    ensures Exclusive(g)
  {}

  /** The facts about the stepping matcher that its step depends on. */
  ghost predicate Footing(c: Config, b: Crowd, g: State, w: WorkerId) {
    && w in b.rides && w in g.workers
    && StageOk(b.drivers, g.db, b.rides[w], g.workers[w])
    && Undisturbed(g.db, g.locks, g.workers[w])
    && b.drivers <= g.db.drivers.Keys
    && (forall d :: d in g.db.drivers ==> g.db.drivers[d].status != Offline)
    && (forall d :: d in g.db.drivers && g.db.drivers[d].status == Available ==> d in b.drivers)
    && (Assigning(g.workers[w]) ==> forall r :: !Names(g.db, r, g.workers[w].driver))
    && (g.workers[w].MCommit? ==> OneActiveRidePerDriver(Assign(g.db, g.workers[w].ride, g.workers[w].driver)))
  }

  lemma HasFooting(c: Config, b: Crowd, g: State, w: WorkerId)
    requires BurstInv(c, b, g) && w in b.rides
    ensures Footing(c, b, g, w)
  {
    if Assigning(g.workers[w]) { SlotIsFree(c, g, w); }
    if g.workers[w].MCommit? {
      assert PcInv(c, g.db, g.workers[w]);
      AssignAgrees(g.db, g.workers[w].ride, g.workers[w].driver);
    }
  }

  lemma SeekerStage(c: Config, b: Crowd, g: State, w: WorkerId, ch: Choice, e: Effect)
    requires w in b.rides && w in g.workers && MatchStep(c, g, w, ch) == Some(e) && ch.acq == Honest
    requires g.workers[w].MCheck? || g.workers[w].MSearch? || g.workers[w].MLoop?
    requires StageOk(b.drivers, g.db, b.rides[w], g.workers[w])
    requires forall d :: d in g.db.drivers && g.db.drivers[d].status == Available ==> d in b.drivers
    ensures StageOk(b.drivers, e.db, b.rides[w], e.pc) && e.db == g.db
  {}

  predicate CommitsMatch(b: Crowd, g: State, w: WorkerId, e: Effect)
    requires w in b.rides && w in g.workers
  {
    && g.workers[w].MCommit? && e.pc.MEmit? && e.pc.driver == g.workers[w].driver
    && b.rides[w] in g.db.rides && g.workers[w].driver in g.db.drivers
    && e.db == Assign(g.db, b.rides[w], g.workers[w].driver)
  }

  lemma HolderStage(c: Config, b: Crowd, g: State, w: WorkerId, ch: Choice, e: Effect)
    requires w in b.rides && w in g.workers && MatchStep(c, g, w, ch) == Some(e)
    requires Held(g.workers[w]).Some?
    requires StageOk(b.drivers, g.db, b.rides[w], g.workers[w])
    requires b.drivers <= g.db.drivers.Keys
    requires forall d :: d in g.db.drivers ==> g.db.drivers[d].status != Offline
    requires Assigning(g.workers[w]) ==> forall r :: !Names(g.db, r, g.workers[w].driver)
    requires g.workers[w].MCommit? ==>
      && b.rides[w] in g.db.rides && g.workers[w].driver in g.db.drivers
      && OneActiveRidePerDriver(Assign(g.db, b.rides[w], g.workers[w].driver))
    ensures StageOk(b.drivers, e.db, b.rides[w], e.pc)
    ensures e.db == g.db || CommitsMatch(b, g, w, e)
  {}

  lemma OwnStage(c: Config, b: Crowd, g: State, w: WorkerId, ch: Choice, e: Effect)
    requires Footing(c, b, g, w) && MatchStep(c, g, w, ch) == Some(e) && ch.acq == Honest
    ensures StageOk(b.drivers, e.db, b.rides[w], e.pc)
    ensures e.db == g.db || CommitsMatch(b, g, w, e)
  {
    if Held(g.workers[w]).Some? { HolderStage(c, b, g, w, ch, e); }
    else { SeekerStage(c, b, g, w, ch, e); }
  }

  lemma OtherStage(drivers: set<DriverId>, db: Db, r: RideId, pc: Pc, o: RideId, d: DriverId)
    requires StageOk(drivers, db, r, pc) && o != r && o in db.rides && d in db.drivers
    ensures StageOk(drivers, Assign(db, o, d), r, pc)
  {}

  lemma DoomedStays(c: Config, b: Crowd, g: State, w: WorkerId, e: Effect, d: DriverId)
    requires w in g.workers && w in b.rides && Doomed(g.db, g.workers, d)
    requires e.db == g.db || CommitsMatch(b, g, w, e)
    requires StageOk(b.drivers, e.db, b.rides[w], e.pc)
    requires InTransaction(g.workers[w]) ==>
      Held(e.pc).Some? && Held(e.pc).value.driver == g.workers[w].driver
    ensures Doomed(e.db, g.workers[w := e.pc], d)
  {
    if !Taken(g.db, d) {
      var v :| v in g.workers && InTransaction(g.workers[v]) && g.workers[v].driver == d;
      if v != w { assert g.workers[w := e.pc][v] == g.workers[v]; }
      else if InTransaction(e.pc) { assert g.workers[w := e.pc][w].driver == d; }
    }
  }

  lemma KeepsHold(c: Config, g: State, w: WorkerId, ch: Choice, e: Effect)
    requires w in g.workers && MatchStep(c, g, w, ch) == Some(e) && InTransaction(g.workers[w])
    ensures Held(e.pc).Some? && Held(e.pc).value.driver == g.workers[w].driver
  {}

  /** A contended candidate is held by a matcher that is committing it or has seen it taken. */
  lemma ContendedIsDoomed(b: Crowd, g: State, d: DriverId)
    requires d in g.locks && HolderExists(g, d)
    requires forall v :: v in g.workers && v !in b.rides ==> Finished(g.workers[v])
    requires forall v :: v in b.rides ==> v in g.workers && StageOk(b.drivers, g.db, b.rides[v], g.workers[v])
    ensures Doomed(g.db, g.workers, d)
  {}

  /** A matcher drops a candidate only once that candidate is doomed. */
  lemma DropsOnlyDoomed(c: Config, b: Crowd, g: State, w: WorkerId, ch: Choice, e: Effect, d: DriverId)
    requires Footing(c, b, g, w) && MatchStep(c, g, w, ch) == Some(e) && ch.acq == Honest
    requires d in b.drivers && InPickupCell(c, g.db, b.rides[w], d)
    requires d in g.locks ==> Doomed(g.db, g.workers, d)
    requires StillToTry(g.workers[w], d)
    ensures StillToTry(e.pc, d) || Doomed(g.db, g.workers, d) || (InTransaction(e.pc) && e.pc.driver == d)
  {}

  lemma CoverageKept(c: Config, b: Crowd, g: State, w: WorkerId, ch: Choice, e: Effect, v: WorkerId, d: DriverId)
    requires BurstInv(c, b, g) && w in b.rides && MatchStep(c, g, w, ch) == Some(e) && ch.acq == Honest
    requires v in b.rides && d in b.drivers
    ensures StillToTry(g.workers[w := e.pc][v], d) || Doomed(e.db, g.workers[w := e.pc], d)
  {
    HasFooting(c, b, g, w);
    OwnStage(c, b, g, w, ch, e);
    if InTransaction(g.workers[w]) { KeepsHold(c, g, w, ch, e); }
    if Doomed(g.db, g.workers, d) {
      DoomedStays(c, b, g, w, e, d);
    } else if v == w {
      if d in g.locks { ContendedIsDoomed(b, g, d); }
      DropsOnlyDoomed(c, b, g, w, ch, e, d);
      if InTransaction(e.pc) && e.pc.driver == d { assert g.workers[w := e.pc][w] == e.pc; }
    }
  }

  lemma FleetKept(c: Config, b: Crowd, db: Db, w: WorkerId, d: DriverId)
    requires Fleet(c, b, db) && w in b.rides && b.rides[w] in db.rides && d in db.drivers
    ensures Fleet(c, b, Assign(db, b.rides[w], d))
  {}

  lemma LeasesKept(c: Config, b: Crowd, g: State, w: WorkerId, e: Effect)
    requires LeasesHeld(b, g) && w in g.workers && TouchesOwnLease(c, g, w, e, true) && TokensSound(c, g)
    ensures LeasesHeld(b, After(g, w, e))
  {
    var g' := After(g, w, e);
    forall d | d in b.drivers && d in g'.locks ensures HolderExists(g', d) {
      if d in g.locks && g.locks[d] == g'.locks[d] {
        var v :| v in g.workers && Held(g.workers[v]) == Some(Hold(d, g.locks[d].token));
        assert v == w || g'.workers[v] == g.workers[v];
        assert Held(g'.workers[v]) == Some(Hold(d, g'.locks[d].token));
      } else {
        assert Held(g'.workers[w]) == Some(Hold(d, g'.locks[d].token));
      }
    }
  }

  lemma OnlyMatchersWork(c: Config, b: Crowd, g: State, w: WorkerId, ch: Choice, e: Effect)
    requires Worked(c, g, w, ch, e)
    requires forall v :: v in b.rides ==> v in g.workers && StageOk(b.drivers, g.db, b.rides[v], g.workers[v])
    requires forall v :: v in g.workers && v !in b.rides ==> Finished(g.workers[v])
    ensures w in b.rides && MatchStep(c, g, w, ch) == Some(e)
  {
    if w in b.rides { assert StageOk(b.drivers, g.db, b.rides[w], g.workers[w]); }
  }

  lemma StagesKept(c: Config, b: Crowd, g: State, w: WorkerId, ch: Choice, e: Effect, v: WorkerId)
    requires BurstInv(c, b, g) && w in b.rides && MatchStep(c, g, w, ch) == Some(e) && ch.acq == Honest && v in b.rides
    ensures StageOk(b.drivers, e.db, b.rides[v], g.workers[w := e.pc][v])
    ensures Fleet(c, b, e.db)
  {
    HasFooting(c, b, g, w);
    OwnStage(c, b, g, w, ch, e);
    if e.db != g.db {
      FleetKept(c, b, g.db, w, g.workers[w].driver);
      if v != w { OtherStage(b.drivers, g.db, b.rides[v], g.workers[v], b.rides[w], g.workers[w].driver); }
    }
  }

  /** The part of the burst invariant that is about the crowd. */
  lemma CrowdKept(c: Config, b: Crowd, g: State, w: WorkerId, ch: Choice, e: Effect)
    requires BurstInv(c, b, g) && w in b.rides && MatchStep(c, g, w, ch) == Some(e) && ch.acq == Honest
    ensures forall v :: v in b.rides ==> StageOk(b.drivers, e.db, b.rides[v], g.workers[w := e.pc][v])
    ensures Fleet(c, b, e.db)
    ensures forall v, d :: v in b.rides && d in b.drivers ==>
      StillToTry(g.workers[w := e.pc][v], d) || Doomed(e.db, g.workers[w := e.pc], d)
  {
    StagesKept(c, b, g, w, ch, e, w);
    forall v | v in b.rides ensures StageOk(b.drivers, e.db, b.rides[v], g.workers[w := e.pc][v]) {
      StagesKept(c, b, g, w, ch, e, v);
    }
    forall v, d | v in b.rides && d in b.drivers
      ensures StillToTry(g.workers[w := e.pc][v], d) || Doomed(e.db, g.workers[w := e.pc], d)
    {
      CoverageKept(c, b, g, w, ch, e, v, d);
    }
  }

  lemma WorkKeepsCrowd(c: Config, b: Crowd, g: State, w: WorkerId, ch: Choice, e: Effect)
    requires BurstInv(c, b, g) && w in b.rides && MatchStep(c, g, w, ch) == Some(e) && ch.acq == Honest
    requires TouchesOwnLease(c, g, w, e, true)
    ensures CrowdInv(c, b, After(g, w, e))
  {
    CrowdKept(c, b, g, w, ch, e);
    LeasesKept(c, b, g, w, e);
  }

  lemma WorkKeepsBurst(c: Config, b: Crowd, g: State, w: WorkerId, ch: Choice, e: Effect)
    requires BurstInv(c, b, g) && Worked(c, g, w, ch, e) && ch.acq == Honest
    ensures BurstInv(c, b, After(g, w, e))
  {
    OnlyMatchersWork(c, b, g, w, ch, e);
    StepKeepsAll(c, g, Work(w, ch), After(g, w, e));
    WorkerTouchesOwnLease(c, g, w, ch, e);
    WorkKeepsCrowd(c, b, g, w, ch, e);
  }

  lemma StepKeepsAll(c: Config, g: State, a: Action, g': State)
    requires Inv(c, g) && TokensSound(c, g) && Exclusive(g) && Next(c, g, a) == Some(g') && Polite(g, a, g')
    ensures Inv(c, g') && TokensSound(c, g') && Exclusive(g')
  {
    StepKeepsInv(c, g, a, g');
    StepKeepsTokens(c, g, a, g');
    StepKeepsExclusive(c, g, a, g');
  }

  lemma TickKeepsCrowd(c: Config, b: Crowd, g: State, g': State)
    requires CrowdInv(c, b, g) && g'.db == g.db && g'.workers == g.workers
    requires forall d :: d in g'.locks ==> d in g.locks && g.locks[d] == g'.locks[d]
    ensures CrowdInv(c, b, g')
  {}

  lemma TickKeepsBurst(c: Config, b: Crowd, g: State, dt: nat, g': State)
    requires BurstInv(c, b, g) && Next(c, g, Tick(dt)) == Some(g') && Polite(g, Tick(dt), g')
    ensures BurstInv(c, b, g')
  {
    StepKeepsAll(c, g, Tick(dt), g');
    TickKeepsCrowd(c, b, g, g');
  }

  lemma CalmIsPolite(g: State, a: Action, g': State)
    requires Calm(g, a, g')
    ensures Polite(g, a, g')
  {}

  lemma {:induction false} BurstInvHolds(c: Config, b: Crowd, ss: seq<State>, acts: seq<Action>, i: nat)
    requires CalmRun(c, ss, acts) && BurstInv(c, b, ss[0]) && i < |ss|
    ensures BurstInv(c, b, ss[i])
  {
    hide BurstInv, Local;
    if i > 0 {
      BurstInvHolds(c, b, ss, acts, i - 1);
      var g, a, g' := ss[i - 1], acts[i - 1], ss[i];
      assert Next(c, g, a) == Some(g') && Calm(g, a, g');
      if a.Work? { WorkKeepsBurst(c, b, g, a.worker, a.choice, Local(c, g, a.worker, a.choice).value); }
      else { CalmIsPolite(g, a, g'); TickKeepsBurst(c, b, g, a.elapsed, g'); }
    }
  }

  // Counting the winners.

  ghost function Winners(b: Crowd, g: State): map<WorkerId, DriverId> {
    map w | w in b.rides && w in g.workers && g.workers[w].Done? && g.workers[w].outcome.Assigned?
      :: g.workers[w].outcome.driver
  }

  /** Matcher w returned driver d, which its ride now has. */
  predicate Won(b: Crowd, g: State, w: WorkerId, d: DriverId)
    requires w in b.rides && w in g.workers
  {
    d in b.drivers && g.workers[w] == Done(Assigned(b.rides[w], d)) && Served(g.db, b.rides[w], d)
  }

  /** Everyone has finished: winners hold distinct drivers, and any loser saw every driver taken. */
  ghost predicate Settled(b: Crowd, g: State) {
    && (forall w :: w in Winners(b, g) ==> Won(b, g, w, Winners(b, g)[w]))
    && (forall v, w :: v in Winners(b, g) && w in Winners(b, g) && v != w ==> Winners(b, g)[v] != Winners(b, g)[w])
    && (forall w :: w in b.rides && w !in Winners(b, g) ==>
          w in g.workers && g.workers[w] == Done(NoDriver(b.rides[w])) && Waiting(g.db, b.rides[w]))
    && (forall w, d :: w in b.rides && w !in Winners(b, g) && d in b.drivers ==> d in Winners(b, g).Values)
  }

  lemma SettledStage(b: Crowd, g: State, w: WorkerId)
    requires w in b.rides && w in g.workers && StageOk(b.drivers, g.db, b.rides[w], g.workers[w])
    requires Finished(g.workers[w])
    ensures w in Winners(b, g) ==> Won(b, g, w, Winners(b, g)[w])
    ensures w !in Winners(b, g) ==> g.workers[w] == Done(NoDriver(b.rides[w])) && Waiting(g.db, b.rides[w])
  {}

  lemma WinnersDiffer(b: Crowd, g: State, v: WorkerId, w: WorkerId)
    requires OneActiveRidePerDriver(g.db) && v in Winners(b, g) && w in Winners(b, g)
    requires b.rides[v] == b.rides[w] ==> v == w
    requires Served(g.db, b.rides[v], Winners(b, g)[v]) && Served(g.db, b.rides[w], Winners(b, g)[w])
    requires Winners(b, g)[v] == Winners(b, g)[w]
    ensures v == w
  {
    assert Names(g.db, b.rides[v], Winners(b, g)[v]) && Names(g.db, b.rides[w], Winners(b, g)[w]);
  }

  /** A taken driver of the crowd was given to one of its matchers. */
  lemma TakenMeansWon(c: Config, b: Crowd, g: State, d: DriverId)
    requires Fleet(c, b, g.db) && Agreement(g.db) && d in b.drivers && Taken(g.db, d)
    requires forall v :: v in b.rides ==>
      v in g.workers && StageOk(b.drivers, g.db, b.rides[v], g.workers[v]) && Finished(g.workers[v])
    ensures d in Winners(b, g).Values
  {
    var r: RideId :| Names(g.db, r, d);
    var v :| v in b.rides && b.rides[v] == r;
    SettledStage(b, g, v);
    assert RideShape(g.db.rides[r]);
    assert v in Winners(b, g) && Winners(b, g)[v] == d;
  }

  /** A matcher that found no driver proves that all were given out. */
  lemma LoserMeansAllTaken(c: Config, b: Crowd, g: State, w: WorkerId, d: DriverId)
    requires Fleet(c, b, g.db) && Agreement(g.db)
    requires forall v :: v in b.rides ==>
      v in g.workers && StageOk(b.drivers, g.db, b.rides[v], g.workers[v]) && Finished(g.workers[v])
    requires forall v :: v in g.workers && v !in b.rides ==> Finished(g.workers[v])
    requires w in b.rides && w !in Winners(b, g) && d in b.drivers
    requires StillToTry(g.workers[w], d) || Doomed(g.db, g.workers, d)
    ensures d in Winners(b, g).Values
  {
    SettledStage(b, g, w);
    assert forall v :: v in g.workers ==> Finished(g.workers[v]);
    TakenMeansWon(c, b, g, d);
  }

  lemma BurstSettles(c: Config, b: Crowd, g: State)
    requires BurstInv(c, b, g) && forall v :: v in b.rides ==> Finished(g.workers[v])
    ensures Settled(b, g)
  {
    forall w | w in b.rides
      ensures w in Winners(b, g) ==> Won(b, g, w, Winners(b, g)[w])
      ensures w !in Winners(b, g) ==> g.workers[w] == Done(NoDriver(b.rides[w])) && Waiting(g.db, b.rides[w])
    {
      SettledStage(b, g, w);
    }
    forall v, w | v in Winners(b, g) && w in Winners(b, g) && Winners(b, g)[v] == Winners(b, g)[w] ensures v == w {
      WinnersDiffer(b, g, v, w);
    }
    forall w, d | w in b.rides && w !in Winners(b, g) && d in b.drivers ensures d in Winners(b, g).Values {
      LoserMeansAllTaken(c, b, g, w, d);
    }
  }

  lemma CountMatching(f: map<WorkerId, DriverId>, workers: set<WorkerId>, drivers: set<DriverId>)
    requires f.Keys <= workers && f.Values <= drivers
    requires forall v, w :: v in f && w in f && f[v] == f[w] ==> v == w
    requires f.Keys != workers ==> drivers <= f.Values
    ensures |f.Keys| == if |workers| <= |drivers| then |workers| else |drivers|
  {
    BijectionCounts(f.Keys, f.Values, f);
    SubsetSize(f.Values, drivers);
    SubsetSize(f.Keys, workers);
  }

  lemma CountWinners(b: Crowd, g: State)
    requires Settled(b, g)
    ensures var n, m := |b.rides.Keys|, |b.drivers|; |Winners(b, g).Keys| == if n <= m then n else m
  {
    var f := Winners(b, g);
    if f.Keys != b.rides.Keys {
      var w :| w in b.rides && w !in f;
      assert forall d :: d in b.drivers ==> d in f.Values;
    }
    CountMatching(f, b.rides.Keys, b.drivers);
  }

  lemma BurstEndsSettled(c: Config, b: Crowd, ss: seq<State>, acts: seq<Action>)
    requires CalmRun(c, ss, acts) && Reachable(c, ss[0]) && Start(c, b, ss[0])
    requires forall w :: w in b.rides ==> w in ss[|acts|].workers && Finished(ss[|acts|].workers[w])
    ensures Settled(b, ss[|acts|])
  {
    ReachableInv(c, ss[0]);
    ReachableTokens(c, ss[0]);
    StartCrowd(c, b, ss[0]);
    StartExclusive(c, b, ss[0]);
    BurstInvHolds(c, b, ss, acts, |acts|);
    BurstSettles(c, b, ss[|acts|]);
  }

  /** What the call of matcher w came to: its ride has the driver it returned, or it was told there is
      no driver and its ride is still waiting. */
  ghost predicate Concluded(b: Crowd, g: State, w: WorkerId)
    requires w in b.rides && w in g.workers
  {
    || (w in Winners(b, g) && Won(b, g, w, Winners(b, g)[w]))
    || (g.workers[w] == Done(NoDriver(b.rides[w])) && Waiting(g.db, b.rides[w]))
  }

  lemma SettledMeans(b: Crowd, g: State, v: WorkerId, w: WorkerId)
    requires Settled(b, g) && v in b.rides && w in b.rides && v in g.workers && w in g.workers
    ensures Concluded(b, g, v)
    ensures v in Winners(b, g) && w in Winners(b, g) && v != w ==> Winners(b, g)[v] != Winners(b, g)[w]
    ensures v !in Winners(b, g) ==> b.drivers <= Winners(b, g).Values
  {}

  /** Every call of the burst succeeds or is told there is no driver; no two succeed with the same
      driver; and one that failed did so only because every driver was given away. */
  lemma BurstOutcomes(c: Config, b: Crowd, ss: seq<State>, acts: seq<Action>, v: WorkerId, w: WorkerId)
    requires CalmRun(c, ss, acts) && Reachable(c, ss[0]) && Start(c, b, ss[0])
    requires forall u :: u in b.rides ==> u in ss[|acts|].workers && Finished(ss[|acts|].workers[u])
    requires v in b.rides && w in b.rides
    ensures var g := ss[|acts|];
      && Concluded(b, g, v)
      && (v in Winners(b, g) && w in Winners(b, g) && v != w ==> Winners(b, g)[v] != Winners(b, g)[w])
      && (v !in Winners(b, g) ==> b.drivers <= Winners(b, g).Values)
  {
    hide Calm, Next, Reachable, Start, Settled, Concluded, Winners, Finished;
    BurstEndsSettled(c, b, ss, acts);
    SettledMeans(b, ss[|acts|], v, w);
  }

  /** The burst theorem. */
  lemma BurstTheorem(c: Config, b: Crowd, ss: seq<State>, acts: seq<Action>)
    requires CalmRun(c, ss, acts) && Reachable(c, ss[0]) && Start(c, b, ss[0])
    requires forall w :: w in b.rides ==> w in ss[|acts|].workers && Finished(ss[|acts|].workers[w])
    ensures var n, m := |b.rides.Keys|, |b.drivers|;
      |Winners(b, ss[|acts|]).Keys| == if n <= m then n else m
  {
    BurstEndsSettled(c, b, ss, acts);
    CountWinners(b, ss[|acts|]);
  }
}
