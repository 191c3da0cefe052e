/** Two situations the documentation describes differently from the code: what follows when the unique
    index rejects a matcher, and what a lease left behind by a crash after the commit still does. */
module Backstop {
  import opened Domain
  import opened Leases
  import opened Protocol
  import opened Safety
  import opened LeaseSafety
  import opened Idempotency
  import Ranking
  import Counting

  // A matcher that gives up.

  /** On the way out with outcome o, out with it, or crashed on the way. */
  predicate Leaving(pc: Pc, o: Outcome) {
    (pc.MRelease? && pc.exit == Some(o)) || pc == Done(o) || pc.Crashed?
  }

  /** The leases that worker w has ever taken. */
  function LeasesOf(log: seq<Entry>, w: WorkerId): set<Entry> { set x | x in log && x.LeaseTaken? && x.worker == w }

  lemma LeaverReleases(c: Config, g: State, w: WorkerId, ch: Choice, e: Effect, o: Outcome)
    requires w in g.workers && Worked(c, g, w, ch, e) && Leaving(g.workers[w], o)
    ensures Leaving(e.pc, o) && e.db == g.db
    ensures forall x :: x in e.said ==> !x.LeaseTaken?
  {}

  lemma TakesForItself(c: Config, g: State, w: WorkerId, ch: Choice, e: Effect)
    requires w in g.workers && Worked(c, g, w, ch, e)
    ensures forall x :: x in e.said && x.LeaseTaken? ==> x.worker == w
  {
    hide Local;
    WorkerTouchesOwnLease(c, g, w, ch, e);
  }

  lemma CrashLeaves(o: Outcome)
    ensures Leaving(Crashed, o)
  {}

  lemma LeavingStep(c: Config, g: State, a: Action, g': State, w: WorkerId, o: Outcome)
    requires Next(c, g, a) == Some(g') && w in g.workers && Leaving(g.workers[w], o)
    ensures w in g'.workers && Leaving(g'.workers[w], o) && LeasesOf(g'.log, w) == LeasesOf(g.log, w)
    ensures a.Work? && a.worker == w ==> g'.db == g.db
  {
    hide Local, Leaving;
    CrashLeaves(o);
    if a.Work? {
      var e := Local(c, g, a.worker, a.choice).value;
      TakesForItself(c, g, a.worker, a.choice, e);
      if a.worker == w { LeaverReleases(c, g, w, a.choice, e, o); }
      assert g'.log == g.log + e.said;
    }
  }

  /** From index i to j worker w changes nothing and takes no lease, and can only end with outcome o. */
  ghost predicate OutWith(ss: seq<State>, acts: seq<Action>, i: nat, j: nat, w: WorkerId, o: Outcome)
    requires i <= j < |ss| && |ss| == |acts| + 1
  {
    && w in ss[j].workers && Leaving(ss[j].workers[w], o)
    && LeasesOf(ss[j].log, w) == LeasesOf(ss[i].log, w)
    && forall k :: i <= k < j && acts[k].Work? && acts[k].worker == w ==> ss[k + 1].db == ss[k].db
  }

  lemma {:induction false} LeavesForGood(c: Config, ss: seq<State>, acts: seq<Action>, i: nat, j: nat, w: WorkerId,
                                         o: Outcome)
    requires Run(c, ss, acts) && i <= j < |ss| && w in ss[i].workers && Leaving(ss[i].workers[w], o)
    ensures OutWith(ss, acts, i, j, w, o)
    decreases j
  {
    hide Next, Leaving, LeasesOf;
    if i < j {
      LeavesForGood(c, ss, acts, i, j - 1, w, o);
      LeavingStep(c, ss[j - 1], acts[j - 1], ss[j], w, o);
    }
  }

  /** What one statement of a matcher does that ends the call early. */
  lemma GivesUp(c: Config, g: State, w: WorkerId, ch: Choice, e: Effect)
    requires w in g.workers && Worked(c, g, w, ch, e)
    ensures var pc := g.workers[w];
      && (pc.MSlot? && (exists x :: x != pc.ride && Names(g.db, x, pc.driver)) ==>
            Leaving(e.pc, IntegrityEscaped) && e.db == g.db && e.said == [])
      && (pc.MSlot? && (forall x :: x != pc.ride ==> !Names(g.db, x, pc.driver)) ==>
            e.pc == MFlush(pc.ride, pc.rest, pc.driver, pc.token))
      && (pc.MUpdate? && !(pc.ride in g.db.rides && g.db.rides[pc.ride].status == Requested) ==>
            Leaving(e.pc, InvalidState(pc.ride)) && e.db == g.db && e.said == [])
      && (pc.MUpdate? && pc.ride in g.db.rides && g.db.rides[pc.ride].status == Requested ==>
            e.pc == MSlot(pc.ride, pc.rest, pc.driver, pc.token))
      && (pc.MLoop? && pc.rest != [] && ch.acq == Down ==>
            Leaving(e.pc, LockingDown(pc.ride)) && e.db == g.db && e.said == [])
  {
    hide CreateStep, EndStep, LocateStep, RideRowHeld, SlotHeld;
  }

  lemma StaysOut(c: Config, ss: seq<State>, acts: seq<Action>, i: nat, j: nat, w: WorkerId, o: Outcome)
    requires Run(c, ss, acts) && i < j < |ss| && w in ss[i + 1].workers && Leaving(ss[i + 1].workers[w], o)
    requires ss[i + 1].log == ss[i].log && ss[i + 1].db == ss[i].db
    ensures OutWith(ss, acts, i, j, w, o)
  {
    hide Next, Leaving, LeasesOf;
    LeavesForGood(c, ss, acts, i + 1, j, w, o);
  }

  /** A matcher's UPDATE is rejected exactly when another active ride already names the driver. From then
      on, however the run continues, the call can only end with the IntegrityError or crash: it tries no
      other candidate and changes nothing. Otherwise the UPDATE goes through. */
  lemma RejectionEndsTheCall(c: Config, ss: seq<State>, acts: seq<Action>, i: nat, j: nat, w: WorkerId)
    requires Run(c, ss, acts) && i < j < |ss| && w in ss[i].workers && ss[i].workers[w].MSlot?
    requires acts[i].Work? && acts[i].worker == w
    ensures var pc := ss[i].workers[w];
      if exists o :: o != pc.ride && Names(ss[i].db, o, pc.driver)
      then OutWith(ss, acts, i, j, w, IntegrityEscaped)
      else w in ss[i + 1].workers && ss[i + 1].workers[w] == MFlush(pc.ride, pc.rest, pc.driver, pc.token)
  {
    hide Local, Leaving, OutWith;
    var g, pc := ss[i], ss[i].workers[w];
    assert Next(c, g, acts[i]) == Some(ss[i + 1]);
    var e := Local(c, g, w, acts[i].choice).value;
    GivesUp(c, g, w, acts[i].choice, e);
    if exists o :: o != pc.ride && Names(g.db, o, pc.driver) {
      assert ss[i + 1].log == g.log;
      StaysOut(c, ss, acts, i, j, w, IntegrityEscaped);
    }
  }

  /** A matcher whose UPDATE finds the ride no longer REQUESTED can only end with InvalidRideStateError or
      crash from then on: no candidate could mend it, and none is tried. Otherwise it goes on to the
      index check. */
  lemma MissedUpdateEndsTheCall(c: Config, ss: seq<State>, acts: seq<Action>, i: nat, j: nat, w: WorkerId)
    requires Run(c, ss, acts) && i < j < |ss| && w in ss[i].workers && ss[i].workers[w].MUpdate?
    requires acts[i].Work? && acts[i].worker == w
    ensures var pc := ss[i].workers[w];
      if pc.ride in ss[i].db.rides && ss[i].db.rides[pc.ride].status == Requested
      then w in ss[i + 1].workers && ss[i + 1].workers[w] == MSlot(pc.ride, pc.rest, pc.driver, pc.token)
      else OutWith(ss, acts, i, j, w, InvalidState(pc.ride))
  {
    hide Local, Leaving, OutWith;
    var g, pc := ss[i], ss[i].workers[w];
    assert Next(c, g, acts[i]) == Some(ss[i + 1]);
    var e := Local(c, g, w, acts[i].choice).value;
    GivesUp(c, g, w, acts[i].choice, e);
    if !(pc.ride in g.db.rides && g.db.rides[pc.ride].status == Requested) {
      assert ss[i + 1].log == g.log;
      StaysOut(c, ss, acts, i, j, w, InvalidState(pc.ride));
    }
  }

  /** A matcher that finds Redis unreachable at a candidate can only end with LockingUnavailableError or
      crash from then on. */
  lemma OutageEndsTheCall(c: Config, ss: seq<State>, acts: seq<Action>, i: nat, j: nat, w: WorkerId)
    requires Run(c, ss, acts) && i < j < |ss| && w in ss[i].workers && ss[i].workers[w].MLoop?
    requires ss[i].workers[w].rest != [] && acts[i].Work? && acts[i].worker == w && acts[i].choice.acq == Down
    ensures OutWith(ss, acts, i, j, w, LockingDown(ss[i].workers[w].ride))
  {
    hide Local, Leaving, OutWith;
    var g, pc := ss[i], ss[i].workers[w];
    assert Next(c, g, acts[i]) == Some(ss[i + 1]);
    var e := Local(c, g, w, acts[i].choice).value;
    GivesUp(c, g, w, acts[i].choice, e);
    assert ss[i + 1].log == g.log;
    StaysOut(c, ss, acts, i, j, w, LockingDown(pc.ride));
  }

  // A bound key.

  /** A bound key makes a difference exactly while no active ride names its driver. With the key bound,
      the matcher skips the driver. Were it free, the matcher would go on to claim the driver if and only
      if no active ride names it; otherwise it would take the lease, find the driver BUSY, give the
      lease back and be where the skip has brought it, with the same tables. */
  lemma BoundKeyMattersExactly(c: Config, g: State, w: WorkerId, ch: Choice)
    returns (taken: State, checked: State, back: State)
    requires Reachable(c, g) && w in g.workers && g.workers[w].MLoop? && g.workers[w].rest != [] && ch.acq == Honest
    requires g.workers[w].rest[0] in g.db.drivers && g.workers[w].rest[0] in g.locks
    ensures var pc, free := g.workers[w], g.(locks := g.locks - {g.workers[w].rest[0]});
      && Next(c, g, Work(w, ch)) == Some(After(g, w, Go(g, MLoop(pc.ride, pc.rest[1..]))))
      && Next(c, free, Work(w, ch)) == Some(taken) && Next(c, taken, Work(w, ch)) == Some(checked)
      && w in checked.workers
      && (checked.workers[w] == MUpdate(pc.ride, pc.rest[1..], pc.rest[0], g.minted)
          <==> !exists o :: Names(g.db, o, pc.rest[0]))
      && ((exists o :: Names(g.db, o, pc.rest[0])) ==>
            && Next(c, checked, Work(w, ch)) == Some(back)
            && back.workers == g.workers[w := MLoop(pc.ride, pc.rest[1..])]
            && back.db == g.db && back.locks == free.locks)
  {
    var pc := g.workers[w];
    var d := pc.rest[0];
    DriversMatchRides(c, g, d);
    var free := g.(locks := g.locks - {d});
    taken := TakesUnbound(c, free, w, ch);
    checked := Checks(c, taken, w, ch);
    back := checked;
    if exists o :: Names(g.db, o, d) {
      back := GivesBack(c, checked, w, ch);
      assert back.locks == free.locks;
    }
  }

  lemma TakesUnbound(c: Config, g: State, w: WorkerId, ch: Choice) returns (g': State)
    requires w in g.workers && g.workers[w].MLoop? && g.workers[w].rest != [] && ch.acq == Honest
    requires g.workers[w].rest[0] !in g.locks
    ensures Next(c, g, Work(w, ch)) == Some(g') && g'.db == g.db
    ensures var pc := g.workers[w];
      && g'.workers == g.workers[w := MRecheck(pc.ride, pc.rest[1..], pc.rest[0], g.minted)]
      && g'.locks == Grant(g.locks, pc.rest[0], g.minted, g.clock, c.ttl)
  {
    g' := After(g, w, Local(c, g, w, ch).value);
  }

  lemma Checks(c: Config, g: State, w: WorkerId, ch: Choice) returns (g': State)
    requires w in g.workers && g.workers[w].MRecheck? && g.workers[w].driver in g.db.drivers
    ensures Next(c, g, Work(w, ch)) == Some(g') && g'.db == g.db && g'.locks == g.locks
    ensures var pc := g.workers[w];
      g'.workers == g.workers[w :=
        if g.db.drivers[pc.driver].status == Available then MUpdate(pc.ride, pc.rest, pc.driver, pc.token)
        else MRelease(pc.ride, pc.rest, pc.driver, pc.token, None)]
  {
    g' := After(g, w, Local(c, g, w, ch).value);
  }

  lemma GivesBack(c: Config, g: State, w: WorkerId, ch: Choice) returns (g': State)
    requires w in g.workers && g.workers[w].MRelease? && g.workers[w].exit.None?
    ensures Next(c, g, Work(w, ch)) == Some(g') && g'.db == g.db
    ensures var pc := g.workers[w];
      g'.workers == g.workers[w := MLoop(pc.ride, pc.rest)] && g'.locks == Release(g.locks, pc.driver, pc.token)
  {
    g' := After(g, w, Local(c, g, w, ch).value);
  }

  // Runs that show both.

  const HONEST := Choice(0, 1.0, 0, true, [], Honest, false)

  /** One cell, one zone, no distances. */
  const SMALL := Flat(5, 0, 5000)

  const HERE := Place(0.0, 0.0, 0, 0)

  function FirstRow(req: Request): Ride { Ride(req, Requested, None, None, Some(0), 1.0, 0) }

  lemma Do(g: State, w: WorkerId, ch: Choice, e: Effect) returns (g': State)
    requires Reachable(SMALL, g) && Worked(SMALL, g, w, ch, e)
    ensures Reachable(SMALL, g') && g' == After(g, w, e)
  {
    ReachesWork(SMALL, g, w, ch, e);
    g' := After(g, w, e);
  }

  ghost predicate NoInserts(g: State) { forall v :: v in g.workers ==> !g.workers[v].CCommit? }

  lemma Asks(g: State, w: WorkerId, r: RideId, req: Request) returns (g': State)
    requires Reachable(SMALL, g) && w !in g.workers && r !in g.db.rides && NoInserts(g)
    ensures Reachable(SMALL, g') && g'.workers == g.workers[w := CCommit(r, FirstRow(req))]
    ensures g'.db == g.db && g'.locks == g.locks && g'.clock == g.clock
  {
    var ch := HONEST.(newRide := r);
    ReachesArrival(SMALL, g, w, CLookup(req, None));
    g' := g.(workers := g.workers[w := CLookup(req, None)]);
    g' := Do(g', w, ch, Go(g', CInsert(req, None)));
    g' := Do(g', w, ch, Go(g', CCommit(r, FirstRow(req))));
  }

  /** Worker w creates ride r and asks for its match. */
  lemma Creates(g: State, w: WorkerId, r: RideId, req: Request) returns (g': State)
    requires Reachable(SMALL, g) && w !in g.workers && r !in g.db.rides && NoInserts(g)
    ensures Reachable(SMALL, g') && g'.workers == g.workers[w := MCheck(r)]
    ensures g'.db == Insert(g.db, r, FirstRow(req)) && g'.locks == g.locks && g'.clock == g.clock
  {
    g' := Asks(g, w, r, req);
    g' := Do(g', w, HONEST, Effect(CEmit(r, FirstRow(req)), Insert(g'.db, r, FirstRow(req)), g'.locks, []));
    g' := Do(g', w, HONEST, Effect(MCheck(r), g'.db, g'.locks, [RideRequested(r)] + []));
  }

  lemma AllFound(db: Db, req: Request, order: seq<DriverId>)
    requires Counting.NoDuplicates(order)
    requires forall d :: d in order <==> d in db.drivers && db.drivers[d] == Driver(Available, HERE)
    requires forall d :: d in db.drivers ==> db.drivers[d].place == HERE
    ensures Ranking.RankedOrder(SMALL, req, Discover(SMALL, db, req, 0, map[]), order)
  {}

  /** Worker w has found and ranked the drivers of its cell. */
  lemma Searches(g: State, w: WorkerId, r: RideId, order: seq<DriverId>) returns (g': State)
    requires Reachable(SMALL, g) && w in g.workers && g.workers[w] == MCheck(r)
    requires r in g.db.rides && g.db.rides[r].status == Requested && Counting.NoDuplicates(order)
    requires forall d :: d in order <==> d in g.db.drivers && g.db.drivers[d] == Driver(Available, HERE)
    requires forall d :: d in g.db.drivers ==> g.db.drivers[d].place == HERE
    ensures Reachable(SMALL, g') && g'.workers == g.workers[w := MLoop(r, order)]
    ensures g'.db == g.db && g'.locks == g.locks && g'.clock == g.clock
  {
    hide Reachable, Ranking.RankedOrder, Discover, Counting.NoDuplicates;
    g' := Do(g, w, HONEST, Go(g, MSearch(r, 0, map[])));
    AllFound(g'.db, g'.db.rides[r].request, order);
    g' := Do(g', w, HONEST.(order := order), Go(g', MLoop(r, order)));
  }

  lemma Takes(g: State, w: WorkerId) returns (g': State)
    requires Reachable(SMALL, g) && w in g.workers && g.workers[w].MLoop? && g.workers[w].rest != []
    requires g.workers[w].rest[0] !in g.locks
    ensures Reachable(SMALL, g') && g'.db == g.db && g'.clock == g.clock
    ensures var pc := g.workers[w];
      g'.workers == g.workers[w := MRecheck(pc.ride, pc.rest[1..], pc.rest[0], g.minted)]
      && g'.locks == Grant(g.locks, pc.rest[0], g.minted, g.clock, 5000)
  {
    var pc := g.workers[w];
    g' := Do(g, w, HONEST, Effect(MRecheck(pc.ride, pc.rest[1..], pc.rest[0], g.minted), g.db,
                                  Grant(g.locks, pc.rest[0], g.minted, g.clock, 5000),
                                  [LeaseTaken(w, pc.rest[0], g.minted)]));
  }

  lemma Rechecks(g: State, w: WorkerId) returns (g': State)
    requires Reachable(SMALL, g) && w in g.workers && g.workers[w].MRecheck?
    requires g.workers[w].driver in g.db.drivers && g.db.drivers[g.workers[w].driver].status == Available
    ensures Reachable(SMALL, g') && g'.db == g.db && g'.clock == g.clock && g'.locks == g.locks
    ensures var pc := g.workers[w]; g'.workers == g.workers[w := MUpdate(pc.ride, pc.rest, pc.driver, pc.token)]
  {
    var pc := g.workers[w];
    g' := Do(g, w, HONEST, Go(g, MUpdate(pc.ride, pc.rest, pc.driver, pc.token)));
  }

  lemma Updates(g: State, w: WorkerId) returns (g': State)
    requires Reachable(SMALL, g) && w in g.workers && g.workers[w].MUpdate? && !RideRowHeld(g, w, g.workers[w].ride)
    requires g.workers[w].ride in g.db.rides && g.db.rides[g.workers[w].ride].status == Requested
    ensures Reachable(SMALL, g') && g'.db == g.db && g'.clock == g.clock && g'.locks == g.locks
    ensures var pc := g.workers[w]; g'.workers == g.workers[w := MSlot(pc.ride, pc.rest, pc.driver, pc.token)]
  {
    var pc := g.workers[w];
    g' := Do(g, w, HONEST, Go(g, MSlot(pc.ride, pc.rest, pc.driver, pc.token)));
  }

  /** Worker w finishes its transaction with nobody in the way. */
  lemma Commits(g: State, w: WorkerId) returns (g': State)
    requires Reachable(SMALL, g) && w in g.workers && g.workers[w].MSlot?
    requires !SlotTaken(g.db, g.workers[w].ride, g.workers[w].driver)
    requires forall v :: v in g.workers && v != w ==> Slot(g.db, g.workers[v]).None? && DriverRow(g.workers[v]).None?
    requires g.workers[w].ride in g.db.rides && g.workers[w].driver in g.db.drivers
    ensures Reachable(SMALL, g') && g'.db == Assign(g.db, g.workers[w].ride, g.workers[w].driver)
    ensures var pc := g.workers[w]; g'.workers == g.workers[w := MEmit(pc.ride, pc.rest, pc.driver, pc.token)]
    ensures g'.clock == g.clock && g'.locks == g.locks
  {
    var pc := g.workers[w];
    g' := Do(g, w, HONEST, Go(g, MFlush(pc.ride, pc.rest, pc.driver, pc.token)));
    g' := Do(g', w, HONEST, Go(g', MCommit(pc.ride, pc.rest, pc.driver, pc.token)));
    CommitNeverRejected(SMALL, g', w);
    var emit := MEmit(pc.ride, pc.rest, pc.driver, pc.token);
    g' := Do(g', w, HONEST, Effect(emit, Assign(g'.db, pc.ride, pc.driver), g'.locks, []));
  }

  /** Two AVAILABLE drivers in the one cell. */
  lemma TwoDrivers() returns (g: State)
    ensures Reachable(SMALL, g) && g.db == Db(map[], map[1 := Driver(Available, HERE), 2 := Driver(Available, HERE)])
    ensures g.workers == map[] && g.locks == map[] && g.clock == 0
  {
    g := State(Db(map[], map[]), map[], 0, 0, map[], []);
    ReachesInit(SMALL, g);
    var g1 := g.(db := Register(g.db, 1, HERE));
    ReachesNext(SMALL, g, NewDriver(1, HERE), g1);
    g := g1.(db := Register(g1.db, 2, HERE));
    ReachesNext(SMALL, g1, NewDriver(2, HERE), g);
  }

  const REQ := Request(0, 0.0, 0.0)

  lemma Racers() returns (g: State)
    ensures Reachable(SMALL, g) && g.db.drivers == map[1 := Driver(Available, HERE), 2 := Driver(Available, HERE)]
    ensures g.db.rides == map[10 := FirstRow(REQ), 11 := FirstRow(REQ)] && g.locks == map[]
    ensures g.workers == map[1 := MLoop(10, [1, 2]), 2 := MLoop(11, [1, 2])]
  {
    hide Reachable, MatchStep, CreateStep, EndStep, LocateStep, Discover;
    g := TwoDrivers();
    g := Creates(g, 1, 10, REQ);
    g := Creates(g, 2, 11, REQ);
    g := Searches(g, 1, 10, [1, 2]);
    g := Searches(g, 2, 11, [1, 2]);
  }

  /** Two matchers, the first of which lost its lease on driver 1 while it was stalled; both have
      found the driver AVAILABLE. */
  lemma Stalled() returns (g: State, one: Token, two: Token)
    ensures Reachable(SMALL, g) && g.db.drivers == map[1 := Driver(Available, HERE), 2 := Driver(Available, HERE)]
    ensures g.db.rides == map[10 := FirstRow(REQ), 11 := FirstRow(REQ)]
    ensures g.workers == map[1 := MUpdate(10, [2], 1, one), 2 := MUpdate(11, [2], 1, two)]
  {
    g := Racers();
    one := g.minted;
    g := Takes(g, 1);
    var g1 := g.(clock := g.clock + 5000, locks := Expire(g.locks, g.clock + 5000));
    ReachesNext(SMALL, g, Tick(5000), g1);
    two := g1.minted;
    g := Takes(g1, 2);
    g := Rechecks(g, 1);
    g := Rechecks(g, 2);
  }

  lemma FirstCommits() returns (g: State, one: Token, two: Token)
    ensures Reachable(SMALL, g) && Names(g.db, 10, 1)
    ensures g.db.drivers == map[1 := Driver(Busy, HERE), 2 := Driver(Available, HERE)]
    ensures g.db.rides.Keys == {10, 11} && g.db.rides[11] == FirstRow(REQ)
    ensures g.workers == map[1 := MEmit(10, [2], 1, one), 2 := MUpdate(11, [2], 1, two)]
  {
    hide Reachable, CreateStep, EndStep, LocateStep, Discover;
    g, one, two := Stalled();
    g := Updates(g, 1);
    g := Commits(g, 1);
  }

  /** "The next candidate is tried after the index rejects one" is false: here the call ends with the
      IntegrityError although its next candidate is AVAILABLE and nobody else is matching. */
  lemma NextCandidateIsNotTried() returns (g: State)
    ensures Reachable(SMALL, g) && 2 in g.workers && g.workers[2] == Done(IntegrityEscaped)
    ensures 11 in g.db.rides && g.db.rides[11] == FirstRow(REQ)
    ensures 2 in g.db.drivers && g.db.drivers[2] == Driver(Available, HERE)
  {
    hide Reachable, CreateStep, EndStep, LocateStep, Discover;
    var one, two;
    g, one, two := FirstCommits();
    g := Updates(g, 2);
    g := Do(g, 2, HONEST, Go(g, MRelease(11, [2], 1, two, Some(IntegrityEscaped))));
    g := Do(g, 2, HONEST, Effect(Done(IntegrityEscaped), g.db, Release(g.locks, 1, two), [LeaseReturned(2, 1, two)]));
  }

  /** Nobody but w is running. */
  ghost predicate Alone(g: State, w: WorkerId) { forall v :: v in g.workers && v != w ==> Finished(g.workers[v]) }

  lemma CancelLocks(g: State, w: WorkerId, r: RideId, d: DriverId) returns (g': State)
    requires Reachable(SMALL, g) && w !in g.workers && Names(g.db, r, d) && Alone(g, w)
    ensures Reachable(SMALL, g') && g'.db == g.db && g'.locks == g.locks && g'.clock == g.clock
    ensures g'.workers == g.workers[w := EDriver(r, Cancel, d)]
  {
    hide Reachable, MatchStep, CreateStep, LocateStep, Release, SlotHeld, SlotTaken, OneActiveRidePerDriver;
    ReachesArrival(SMALL, g, w, EGet(r, Cancel));
    g' := g.(workers := g.workers[w := EGet(r, Cancel)]);
    g' := Do(g', w, HONEST, Go(g', EUpdate(r, Cancel)));
    g' := Do(g', w, HONEST, Go(g', ERefresh(r, Cancel)));
    g' := Do(g', w, HONEST, Go(g', EDriver(r, Cancel, d)));
  }

  lemma CancelCommits(g: State, w: WorkerId, r: RideId, d: DriverId) returns (g': State)
    requires Reachable(SMALL, g) && w in g.workers && g.workers[w] == EDriver(r, Cancel, d) && Alone(g, w)
    requires r in g.db.rides && d in g.db.drivers && g.db.drivers[d].status == Busy
    ensures Reachable(SMALL, g') && g'.db == End(g.db, r, Cancel, Some(d)) && g'.locks == g.locks && g'.clock == g.clock
    ensures g'.workers == g.workers[w := EEmit(r, Cancel)]
  {
    hide Reachable, MatchStep, CreateStep, LocateStep, Release, SlotHeld, SlotTaken, OneActiveRidePerDriver;
    g' := Do(g, w, HONEST, Go(g, EFlush(r, Cancel, d)));
    g' := Do(g', w, HONEST, Go(g', ECommit(r, Cancel, Some(d))));
    g' := Do(g', w, HONEST, Effect(EEmit(r, Cancel), End(g'.db, r, Cancel, Some(d)), g'.locks, []));
  }

  lemma OnlyDriver() returns (g: State)
    ensures Reachable(SMALL, g) && g.db == Db(map[], map[1 := Driver(Available, HERE)])
    ensures g.workers == map[] && g.locks == map[] && g.clock == 0
  {
    g := State(Db(map[], map[]), map[], 0, 0, map[], []);
    ReachesInit(SMALL, g);
    var g1 := g.(db := Register(g.db, 1, HERE));
    ReachesNext(SMALL, g, NewDriver(1, HERE), g1);
    g := g1;
  }

  lemma LoneMatcher() returns (g: State, token: Token)
    ensures Reachable(SMALL, g) && g.db.drivers == map[1 := Driver(Available, HERE)]
    ensures g.db.rides == map[10 := FirstRow(REQ)]
    ensures g.workers == map[1 := MUpdate(10, [], 1, token)] && 1 in g.locks
  {
    hide Reachable, MatchStep, CreateStep, EndStep, LocateStep, Discover;
    g := OnlyDriver();
    g := Creates(g, 1, 10, REQ);
    var order: seq<DriverId> := [1];
    g := Searches(g, 1, 10, order);
    assert order[1..] == [];
    token := g.minted;
    g := Takes(g, 1);
    g := Rechecks(g, 1);
  }

  /** Ride 10 has the only driver; its matcher crashed between the commit and the release. */
  lemma Orphaned() returns (g: State)
    ensures Reachable(SMALL, g) && g.db.drivers == map[1 := Driver(Busy, HERE)] && g.workers == map[1 := Crashed]
    ensures g.db.rides == map[10 := FirstRow(REQ).(status := Matched, driver := Some(1))] && 1 in g.locks
  {
    hide MatchStep, CreateStep, EndStep, LocateStep, Discover;
    var token;
    g, token := LoneMatcher();
    g := Updates(g, 1);
    g := Commits(g, 1);
    var g2 := g.(workers := g.workers[1 := Crashed]);
    ReachesNext(SMALL, g, Crash(1), g2);
    g := g2;
  }

  /** The ride has been cancelled since; the driver is free, its key is not. */
  lemma Freed() returns (g: State)
    ensures Reachable(SMALL, g) && g.db.drivers == map[1 := Driver(Available, HERE)] && 1 in g.locks
    ensures g.db.rides == map[10 := FirstRow(REQ).(status := Cancelled, driver := Some(1))]
    ensures g.workers == map[1 := Crashed, 3 := EEmit(10, Cancel)]
  {
    g := Orphaned();
    assert Names(g.db, 10, 1);
    g := CancelLocks(g, 3, 10, 1);
    g := CancelCommits(g, 3, 10, 1);
  }

  lemma AsksForFreed() returns (g: State)
    ensures Reachable(SMALL, g) && g.db.drivers == map[1 := Driver(Available, HERE)] && 1 in g.locks
    ensures g.db.rides.Keys == {10, 11} && g.db.rides[10].status == Cancelled && g.db.rides[11] == FirstRow(REQ)
    ensures 2 in g.workers && g.workers[2] == MLoop(11, [1])
  {
    hide Reachable, MatchStep, CreateStep, EndStep, LocateStep, Discover;
    g := Freed();
    g := Creates(g, 2, 11, REQ);
    g := Searches(g, 2, 11, [1]);
  }

  /** "The orphaned lock is inert" is false once the ride ends within the TTL: a request is told there is
      no driver although the freed driver is AVAILABLE in its cell and nobody is matching. */
  lemma OrphanIsNotInert() returns (g: State)
    ensures Reachable(SMALL, g) && 2 in g.workers && g.workers[2] == Done(NoDriver(11))
    ensures 11 in g.db.rides && g.db.rides[11] == FirstRow(REQ)
    ensures 1 in g.db.drivers && g.db.drivers[1] == Driver(Available, HERE) && forall r :: !Names(g.db, r, 1)
  {
    hide Reachable, CreateStep, EndStep, LocateStep, Discover, Release;
    g := AsksForFreed();
    var order: seq<DriverId> := [1];
    assert order[1..] == [];
    g := Do(g, 2, HONEST, Go(g, MLoop(11, [])));
    g := Do(g, 2, HONEST, Go(g, Done(NoDriver(11))));
  }
}
