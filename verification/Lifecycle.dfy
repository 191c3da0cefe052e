/** What happens to a ride over a whole run, and how rides and drivers count against each other. */
module Lifecycle {
  import opened Domain
  import opened Protocol
  import opened Safety
  import opened Counting

  /** What one step of the system may do to an existing ride. */
  ghost predicate RideStep(was: Ride, now: Ride) {
    || now == was
    || (was.status == Requested && exists d: DriverId :: now == was.(status := Matched, driver := Some(d)))
    || (was.status == Requested && now == was.(status := Cancelled))
    || (was.status == Matched && now == was.(status := Cancelled))
    || (was.status == Matched && now == was.(status := Completed))
  }

  predicate Terminal(s: RideStatus) { s == Completed || s == Cancelled }

  /** What any number of steps may do to an existing ride. */
  predicate RideHistory(was: Ride, now: Ride) {
    && now == was.(status := now.status, driver := now.driver)
    && (was.driver.Some? ==> now.driver == was.driver)
    && (Terminal(was.status) ==> now == was)
    && (was.status == Matched ==> now.status == Matched || Terminal(now.status))
    && (now.status == Requested ==> now == was)
    && (now.driver.None? && now.status != was.status ==> was.status == Requested && now.status == Cancelled)
  }

  lemma CommitAdvances(c: Config, g: State, w: WorkerId, ch: Choice, e: Effect, r: RideId)
    requires w in g.workers && PcInv(c, g.db, g.workers[w]) && Worked(c, g, w, ch, e)
    requires r in g.db.rides && RideShape(g.db.rides[r])
    ensures r in e.db.rides && RideStep(g.db.rides[r], e.db.rides[r])
  {
    CommitForms(c, g, w, ch, e);
    var pc := g.workers[w];
    if pc.MCommit? && pc.ride == r && e.db != g.db {
      assert e.db.rides[r] == g.db.rides[r].(status := Matched, driver := Some(pc.driver));
    }
  }

  lemma CommitCreates(c: Config, g: State, w: WorkerId, ch: Choice, e: Effect, r: RideId)
    requires w in g.workers && PcInv(c, g.db, g.workers[w]) && Worked(c, g, w, ch, e)
    requires r !in g.db.rides && r in e.db.rides
    ensures e.db.rides[r].status == Requested && e.db.rides[r].driver.None?
  {
    CommitForms(c, g, w, ch, e);
  }

  /** Each step leaves every ride as it was or advances it by one transition; new rides start
      REQUESTED with no driver. */
  lemma StepAdvances(c: Config, g: State, a: Action, g': State, r: RideId)
    requires Inv(c, g) && Next(c, g, a) == Some(g')
    ensures r in g.db.rides ==> r in g'.db.rides && RideStep(g.db.rides[r], g'.db.rides[r])
    ensures r !in g.db.rides && r in g'.db.rides ==> g'.db.rides[r].status == Requested && g'.db.rides[r].driver.None?
  {
    if a.Work? {
      var e := Local(c, g, a.worker, a.choice).value;
      assert PcInv(c, g.db, g.workers[a.worker]);
      if r in g.db.rides { CommitAdvances(c, g, a.worker, a.choice, e, r); }
      else if r in e.db.rides { CommitCreates(c, g, a.worker, a.choice, e, r); }
    }
  }

  lemma StepsCompose(was: Ride, mid: Ride, now: Ride)
    requires RideShape(was) && RideShape(mid) && RideHistory(was, mid) && RideStep(mid, now)
    ensures RideHistory(was, now)
  {}

  /** Over any run status only advances, terminal statuses are absorbing, the driver is written at
      most once, and everything else about a ride never changes. */
  lemma {:induction false} RidesOnlyAdvance(c: Config, ss: seq<State>, acts: seq<Action>, i: nat, j: nat, r: RideId)
    requires Run(c, ss, acts) && Inv(c, ss[0]) && i <= j < |ss| && r in ss[i].db.rides
    ensures r in ss[j].db.rides && RideHistory(ss[i].db.rides[r], ss[j].db.rides[r])
    decreases j
  {
    if i < j {
      RidesOnlyAdvance(c, ss, acts, i, j - 1, r);
      RunKeepsInv(c, ss, acts, i);
      RunKeepsInv(c, ss, acts, j - 1);
      StepAdvances(c, ss[j - 1], acts[j - 1], ss[j], r);
      StepsCompose(ss[i].db.rides[r], ss[j - 1].db.rides[r], ss[j].db.rides[r]);
    }
  }

  ghost predicate MatchedTo(ss: seq<State>, i: nat, r: RideId, d: DriverId) {
    && i < |ss| && r in ss[i].db.rides
    && ss[i].db.rides[r].status == Matched && ss[i].db.rides[r].driver == Some(d)
  }

  /** A ride names a driver exactly when it was, at some earlier time, MATCHED to that driver. */
  lemma {:induction false} DriverMeansMatched(c: Config, ss: seq<State>, acts: seq<Action>, j: nat, r: RideId,
                                              d: DriverId)
    requires Run(c, ss, acts) && Init(ss[0]) && j < |ss|
    ensures (r in ss[j].db.rides && ss[j].db.rides[r].driver == Some(d))
       <==> (exists i: nat :: i <= j && MatchedTo(ss, i, r, d))
    decreases j
  {
    if exists i: nat :: i <= j && MatchedTo(ss, i, r, d) {
      var i: nat :| i <= j && MatchedTo(ss, i, r, d);
      RidesOnlyAdvance(c, ss, acts, i, j, r);
    } else if j > 0 {
      DriverMeansMatched(c, ss, acts, j - 1, r, d);
      RunKeepsInv(c, ss, acts, j - 1);
      StepAdvances(c, ss[j - 1], acts[j - 1], ss[j], r);
      assert !MatchedTo(ss, j, r, d);
    }
  }

  // One match, one ending.

  /** Step k commits the end of ride r and hands its driver d back. */
  ghost predicate Frees(ss: seq<State>, acts: seq<Action>, k: nat, r: RideId, d: DriverId)
    requires k < |acts| && |ss| == |acts| + 1
  {
    && acts[k].Work? && acts[k].worker in ss[k].workers
    && HandsBack(ss[k].db, ss[k].workers[acts[k].worker], ss[k + 1].db, r, d)
  }

  ghost predicate HandsBack(db: Db, pc: Pc, db': Db, r: RideId, d: DriverId) {
    && pc.ECommit? && pc.ride == r && pc.freed == Some(d) && Names(db, r, d)
    && r in db'.rides && db'.rides[r].status == EndStatus(pc.kind)
    && d in db.drivers && db.drivers[d].status == Busy && d in db'.drivers && db'.drivers[d].status == Available
  }

  lemma CommitKeepsOrFrees(c: Config, g: State, w: WorkerId, ch: Choice, e: Effect, r: RideId, d: DriverId)
    requires w in g.workers && PcInv(c, g.db, g.workers[w]) && Worked(c, g, w, ch, e) && Agreement(g.db)
    requires Names(g.db, r, d)
    ensures Names(e.db, r, d) || HandsBack(g.db, g.workers[w], e.db, r, d)
  {
    hide Local;
    CommitForms(c, g, w, ch, e);
  }

  lemma StepKeepsOrFrees(c: Config, g: State, a: Action, g': State, r: RideId, d: DriverId)
    requires Inv(c, g) && Next(c, g, a) == Some(g') && Names(g.db, r, d)
    ensures Names(g'.db, r, d)
         || (a.Work? && a.worker in g.workers && HandsBack(g.db, g.workers[a.worker], g'.db, r, d))
  {
    hide Local;
    if a.Work? {
      assert PcInv(c, g.db, g.workers[a.worker]);
      CommitKeepsOrFrees(c, g, a.worker, a.choice, Local(c, g, a.worker, a.choice).value, r, d);
    }
  }

  /** A driver stays BUSY with the ride it was matched to for as long as that ride is active, and the
      commit that ends that ride, and no other step, is what makes it AVAILABLE again. */
  lemma {:induction false} BusyUntilItsRideEnds(c: Config, ss: seq<State>, acts: seq<Action>, i: nat, j: nat,
                                                r: RideId, d: DriverId)
    requires Run(c, ss, acts) && Inv(c, ss[0]) && i <= j < |ss| && Names(ss[i].db, r, d)
    ensures r in ss[j].db.rides
    ensures if Active(ss[j].db.rides[r].status) then
              Names(ss[j].db, r, d) && d in ss[j].db.drivers && ss[j].db.drivers[d].status == Busy
            else exists k :: i <= k < j && Frees(ss, acts, k, r, d)
    decreases j
  {
    hide Next, HandsBack, Agreement;
    RunKeepsInv(c, ss, acts, j);
    if i < j {
      BusyUntilItsRideEnds(c, ss, acts, i, j - 1, r, d);
      RunKeepsInv(c, ss, acts, j - 1);
      RidesOnlyAdvance(c, ss, acts, j - 1, j, r);
      if Active(ss[j - 1].db.rides[r].status) {
        assert Next(c, ss[j - 1], acts[j - 1]) == Some(ss[j]);
        StepKeepsOrFrees(c, ss[j - 1], acts[j - 1], ss[j], r, d);
        FreesMeans(ss, acts, j - 1, r, d);
        assert Names(ss[j].db, r, d) || Frees(ss, acts, j - 1, r, d);
      }
    }
    if Active(ss[j].db.rides[r].status) { NamedIsBusy(ss[j].db, r, d); }
  }

  lemma NamedIsBusy(db: Db, r: RideId, d: DriverId)
    requires Agreement(db) && Names(db, r, d)
    ensures d in db.drivers && db.drivers[d].status == Busy
  {}

  lemma FreesMeans(ss: seq<State>, acts: seq<Action>, k: nat, r: RideId, d: DriverId)
    requires k < |acts| && |ss| == |acts| + 1 && r in ss[k + 1].db.rides
    ensures Frees(ss, acts, k, r, d) ==> Terminal(ss[k + 1].db.rides[r].status)
  {}

  // Counting.

  function EngagedRides(db: Db): set<RideId> {
    set r | r in db.rides && Engaged(db.rides[r].status)
  }

  function Drivers(db: Db, s: DriverStatus): set<DriverId> {
    set d | d in db.drivers && db.drivers[d].status == s
  }

  /** Following each engaged ride to its driver is one-to-one and onto the BUSY drivers. */
  lemma EngagedToBusy(db: Db) returns (f: map<RideId, DriverId>)
    requires Agreement(db)
    ensures f.Keys == EngagedRides(db) && f.Values == Drivers(db, Busy)
    ensures forall a, b :: a in f && b in f && f[a] == f[b] ==> a == b
  {
    forall r | r in EngagedRides(db) ensures db.rides[r].driver.Some? && Names(db, r, db.rides[r].driver.value) {}
    f := map r | r in EngagedRides(db) :: db.rides[r].driver.value;
    forall r | r in f ensures Names(db, r, f[r]) {}
    forall d | d in Drivers(db, Busy) ensures d in f.Values {
      var r: RideId :| Names(db, r, d);
      assert r in f && f[r] == d;
    }
    forall d | d in f.Values ensures d in Drivers(db, Busy) {
      var r :| r in f && f[r] == d;
    }
  }

  /** As many drivers are BUSY as rides are MATCHED or IN_PROGRESS, and the rest are AVAILABLE. */
  lemma BusyEqualsEngaged(c: Config, g: State)
    requires Reachable(c, g)
    ensures |Drivers(g.db, Busy)| == |EngagedRides(g.db)|
    ensures EngagedRides(g.db) == set r | r in g.db.rides && g.db.rides[r].status in {Matched, InProgress}
    ensures |Drivers(g.db, Available)| + |Drivers(g.db, Busy)| == |g.db.drivers.Keys|
  {
    ReachableInv(c, g);
    var f := EngagedToBusy(g.db);
    BijectionCounts(EngagedRides(g.db), Drivers(g.db, Busy), f);
    assert Drivers(g.db, Available) + Drivers(g.db, Busy) == g.db.drivers.Keys;
    assert Drivers(g.db, Available) !! Drivers(g.db, Busy);
  }

  /** Only registering a driver changes how many AVAILABLE and BUSY drivers there are in all. */
  lemma FleetChangesOnlyByRegistration(c: Config, g: State, a: Action, g': State)
    requires Reachable(c, g) && Reachable(c, g') && Next(c, g, a) == Some(g')
    ensures |Drivers(g'.db, Available)| + |Drivers(g'.db, Busy)|
         == |Drivers(g.db, Available)| + |Drivers(g.db, Busy)| + (if a.NewDriver? then 1 else 0)
  {
    BusyEqualsEngaged(c, g);
    BusyEqualsEngaged(c, g');
    ReachableInv(c, g);
    FleetStep(c, g, a, g');
  }

  lemma FleetStep(c: Config, g: State, a: Action, g': State)
    requires Next(c, g, a) == Some(g') && (a.Work? ==> PcInv(c, g.db, g.workers[a.worker]))
    ensures g'.db.drivers.Keys == g.db.drivers.Keys + (if a.NewDriver? then {a.driver} else {})
    ensures a.NewDriver? ==> a.driver !in g.db.drivers.Keys
  {
    if a.Work? { CommitForms(c, g, a.worker, a.choice, Local(c, g, a.worker, a.choice).value); }
  }
}
