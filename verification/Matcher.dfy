/** `match_ride` as it is written: the candidate loop over one session and the lock store, with other
    clients running between its statements. */
module Matcher {
  import opened Domain
  import opened Candidates
  import opened CandidateSearch
  import opened Persistence
  import opened LockStore
  import Metrics
  import opened Ranking
  import opened Counting

  datatype MatchResult =
    | Assigned(driver: DriverId)
    | NoDriver            // NoAvailableDriverError
    | NotRequested        // ValueError
    | InvalidState        // InvalidRideStateError
    | LockingDown         // LockingUnavailableError
    | IntegrityEscaped    // IntegrityError from the UPDATE

  predicate Locked(entries: map<LockKey, Leases.Lease>, d: DriverId) { LockDriver(d) in entries }

  /** With no other client about: what the call decides, from the tables and leases it found. */
  predicate Decides(c: Config, db: Db, entries: map<LockKey, Leases.Lease>, up: bool, r: RideId, radius: nat,
                    result: MatchResult)
    requires r in db.rides
  {
    var near := Within(c, db, db.rides[r].request, radius);
    match result
    case NotRequested => false
    case Assigned(d) => up && d in near && !Locked(entries, d) && SlotFree(db, r, d)
    case NoDriver => (up || near == {}) && forall d :: d in near ==> Locked(entries, d)
    case LockingDown => !up && near != {}
    case IntegrityEscaped => up && exists d :: d in near && !Locked(entries, d) && !SlotFree(db, r, d)
    case InvalidState => false
  }

  /** No unlocked candidate was nearer. */
  predicate Nearest(c: Config, db: Db, entries: map<LockKey, Leases.Lease>, req: Request, radius: nat, d: DriverId) {
    && d in db.drivers
    && forall o :: o in Within(c, db, req, radius) && !Locked(entries, o) ==>
      NoFarther(c, req, db.drivers[d].place, db.drivers[o].place)
  }

  /** The outcome of an undisturbed call; `idle` when its session had loaded nothing before. */
  ghost predicate Settles(c: Config, db: Db, entries: map<LockKey, Leases.Lease>, up: bool, idle: bool, r: RideId,
                          radius: nat, result: MatchResult)
    requires r in db.rides
  {
    && StopsAt(c, db, db.rides[r].request, radius) && Decides(c, db, entries, up, r, radius, result)
    && (result.Assigned? && idle ==> Nearest(c, db, entries, db.rides[r].request, radius, result.driver))
  }

  /** The ranked list against the tables it was read from. */
  ghost predicate RankedFrom(c: Config, db: Db, req: Request, radius: nat, ranked: seq<Candidate>) {
    && Sorted(ranked) && NoDuplicates(Ids(ranked)) && StopsAt(c, db, req, radius)
    && (forall d :: d in Ids(ranked) <==> d in Within(c, db, req, radius))
  }

  predicate TruePlaces(c: Config, db: Db, req: Request, ranked: seq<Candidate>) {
    forall x :: x in ranked ==> x.driver in db.drivers && AtDistanceOf(c, req, x, db.drivers[x.driver].place)
  }

  lemma FirstFreeIsNearest(c: Config, db: Db, entries: map<LockKey, Leases.Lease>, req: Request, radius: nat,
                           ranked: seq<Candidate>, i: nat)
    requires RankedFrom(c, db, req, radius, ranked) && TruePlaces(c, db, req, ranked) && i < |ranked|
    requires forall j :: 0 <= j < i ==> Locked(entries, ranked[j].driver)
    ensures Nearest(c, db, entries, req, radius, ranked[i].driver)
  {}

  lemma AllLocked(c: Config, db: Db, entries: map<LockKey, Leases.Lease>, req: Request, radius: nat,
                  ranked: seq<Candidate>)
    requires RankedFrom(c, db, req, radius, ranked)
    requires forall j :: 0 <= j < |ranked| ==> Locked(entries, ranked[j].driver)
    ensures forall d :: d in Within(c, db, req, radius) ==> Locked(entries, d)
    ensures ranked == [] ==> Within(c, db, req, radius) == {}
  {}

  lemma CandidateIsNear(c: Config, db: Db, req: Request, radius: nat, ranked: seq<Candidate>, i: nat)
    requires RankedFrom(c, db, req, radius, ranked) && i < |ranked|
    ensures ranked[i].driver in Within(c, db, req, radius)
    ensures ranked[i].driver in db.drivers && db.drivers[ranked[i].driver].status == Available
  {}

  /** A REQUESTED ride may take a driver whose slot is free: the driver is then AVAILABLE, and both the
      index and the agreement survive. */
  lemma FreeSlotMeansAvailable(db: Db, r: RideId, d: DriverId)
    requires Agreement(db) && r in db.rides && db.rides[r].status == Requested && d in db.drivers && SlotFree(db, r, d)
    ensures db.drivers[d].status == Available
    ensures Agreement(Assign(db, r, d)) && IndexHolds(Assign(db, r, d))
  {
    IndexIsAgreed(db);
    forall o | Names(db, o, d) ensures false { assert SlotTaken(db, r, d); }
    AssignAgrees(db, r, d);
    IndexIsAgreed(Assign(db, r, d));
  }

  /** Flushing one buffered BUSY beside an uncommitted MATCHED row is exactly the assignment. */
  lemma FlushIsAssign(db: Db, flushed: Db, loaded: map<DriverId, Driver>, asRead: map<DriverId, Driver>, r: RideId,
                      d: DriverId)
    requires r in db.rides && d in db.drivers && d in asRead && asRead[d].status == Available
    requires loaded == asRead[d := asRead[d].(status := Busy)]
    requires flushed.rides == db.rides + map[r := Updated(db.rides[r], RideStatus.Matched, Some(d))]
    requires flushed.drivers == FlushedDrivers(db.drivers, loaded, asRead)
    requires Agreement(db) && db.rides[r].status == Requested && SlotFree(db, r, d)
    ensures Agreement(flushed) && IndexHolds(flushed) && Attempt(db, r, d, Some(Assigned(d)), flushed)
  {
    FreeSlotMeansAvailable(db, r, d);
    assert flushed.rides == Assign(db, r, d).rides;
    assert flushed.drivers == Assign(db, r, d).drivers;
  }

  /** What trying driver d for ride r did to the tables `before`, by its result. */
  predicate Attempt(before: Db, r: RideId, d: DriverId, result: Option<MatchResult>, after: Db) {
    match result
    case Some(Assigned(x)) =>
      && x == d && r in before.rides && before.rides[r].status == Requested
      && d in before.drivers && before.drivers[d].status == Available && SlotFree(before, r, d)
      && after == Assign(before, r, d)
    case Some(InvalidState) => after == before && r in before.rides && before.rides[r].status != Requested
    case Some(IntegrityEscaped) =>
      after == before && r in before.rides && before.rides[r].status == Requested && !SlotFree(before, r, d)
    case Some(_) => false
    case None => after == before
  }

  lemma Untried(before: Db, r: RideId, d: DriverId)
    ensures Attempt(before, r, d, None, before)
  {}

  lemma Refused(before: Db, r: RideId, d: DriverId, done: Transition)
    requires r in before.rides && !done.Moved?
    requires done.Missed? <==> before.rides[r].status != Requested
    requires done.Rejected? ==> !SlotFree(before, r, d)
    ensures Attempt(before, r, d, Some(if done.Missed? then InvalidState else IntegrityEscaped), before)
  {}

  lemma MatchNames(before: Db, r: RideId, d: DriverId)
    requires r in before.rides
    ensures Active(RideStatus.Matched) && Updated(before.rides[r], RideStatus.Matched, Some(d)).driver == Some(d)
  {}

  /** What the UPDATE has found and holds is still so when others have committed. */
  lemma ClaimHolds(before: Db, after: Db, r: RideId, d: DriverId)
    requires r in before.rides && SlotFree(before, r, d) && RowsKept({r}, before, after)
    requires SlotsKept({d}, before, after)
    ensures r in after.rides && after.rides[r] == before.rides[r] && SlotFree(after, r, d)
  {
    forall o | o in after.rides && o != r ensures !(Active(after.rides[o].status) && after.rides[o].driver == Some(d)) {
      assert Names(after, o, d) ==> Names(before, o, d);
    }
  }

  lemma AttemptMeans(before: Db, r: RideId, d: DriverId, result: Option<MatchResult>, after: Db)
    requires Attempt(before, r, d, result, after)
    ensures (r in before.rides ==> r in after.rides) && (result != Some(Assigned(d)) ==> after == before)
    ensures result in {None, Some(Assigned(d)), Some(InvalidState), Some(IntegrityEscaped)}
  {}

  /** One candidate under its lock: fresh re-check, buffered BUSY, conditional UPDATE, commit. Returns
      None where the source continues with the next candidate; `checked` is what the re-check read and
      `before` the state of the tables that the call decided on. From the UPDATE to the commit the row
      and the index entry it took are closed to others, and nothing else is. */
  method TryCandidate(s: Session, r: RideId, d: DriverId)
    returns (result: Option<MatchResult>, ghost before: Db, ghost checked: Db)
    requires s.NothingPending() && Agreement(s.store.db) && r in s.store.db.rides
    modifies s, s.store
    ensures Agreement(before) && Agreement(s.store.db) && r in before.rides
    ensures s.store.quiet ==> before == checked == old(s.store.db)
    ensures Attempt(before, r, d, result, s.store.db)
    ensures result.None? <==> !(d in checked.drivers && checked.drivers[d].status == Available)
    ensures s.commits == old(s.commits) + if result == Some(Assigned(d)) then [Change(before, s.store.db)] else []
    ensures result != Some(IntegrityEscaped) ==> s.NothingPending()
  {
    hide *;
    NothingPendingMeans(s);
    s.store.OthersCommit({}, {});
    var driver := s.GetDriver(d, true);
    before, checked := s.store.db, s.store.db;
    if driver.None? || driver.value.status != Available {
      Untried(before, r, d);
      return None, before, checked;
    }
    NothingPendingMeans(s);
    s.SetStatus(d, Busy);
    s.store.OthersCommit({}, {});
    before := s.store.db;
    SeesCommitted(s);
    var done := s.TransitionStatus(r, {Requested}, RideStatus.Matched, Some(d));
    MatchNames(before, r, d);
    if !done.Moved? {
      Refused(before, r, d, done);
      if done.Rejected? { return Some(IntegrityEscaped), before, checked; }
      s.Rollback();
      return Some(InvalidState), before, checked;
    }
    s.store.OthersCommit({r}, {d});
    ClaimHolds(before, s.store.db, r, d);
    before := s.store.db;
    FlushMeans(s);
    FlushIsAssign(before, s.Flushed(), s.loaded, s.asRead, r, d);
    var ok := s.Commit();
    // The source handles an IntegrityError here, but the UPDATE has already faced the index.
    assert ok;
    return Some(Assigned(d)), before, checked;
  }

  /** Undisturbed, trying the first unlocked candidate settles the call. */
  lemma TryDecides(c: Config, db: Db, entries: map<LockKey, Leases.Lease>, idle: bool, r: RideId, radius: nat,
                   ranked: seq<Candidate>, i: nat, attempt: Option<MatchResult>, after: Db)
    requires r in db.rides && db.rides[r].status == Requested && i < |ranked|
    requires RankedFrom(c, db, db.rides[r].request, radius, ranked)
    requires !Locked(entries, ranked[i].driver) && Attempt(db, r, ranked[i].driver, attempt, after)
    requires attempt.None? ==> !(ranked[i].driver in db.drivers && db.drivers[ranked[i].driver].status == Available)
    requires idle ==> TruePlaces(c, db, db.rides[r].request, ranked)
    requires forall j :: 0 <= j < i ==> Locked(entries, ranked[j].driver)
    ensures attempt.Some? && Settles(c, db, entries, true, idle, r, radius, attempt.value)
  {
    CandidateIsNear(c, db, db.rides[r].request, radius, ranked, i);
    if idle { FirstFreeIsNearest(c, db, entries, db.rides[r].request, radius, ranked, i); }
  }

  datatype Turn = LockDown | Lost | Tried(attempt: Option<MatchResult>)

  /** One candidate from acquiring its lock to giving it back, on every path once it is held. */
  method TakeTurn(s: Session, redis: Redis, c: Config, r: RideId, d: DriverId) returns (turn: Turn, ghost before: Db)
    requires s.NothingPending() && redis.Valid() && Agreement(s.store.db) && c.ttl > 0 && r in s.store.db.rides
    modifies s, s.store, redis`entries, redis`now, redis`up, redis`minted, redis`open
    ensures redis.Valid() && redis.open == old(redis.open)
    ensures Agreement(s.store.db) && r in s.store.db.rides
    ensures turn != Tried(Some(IntegrityEscaped)) ==> s.NothingPending()
    ensures s.commits == old(s.commits) + if turn == Tried(Some(Assigned(d))) then [Change(before, s.store.db)] else []
    ensures turn.Tried? ==> Attempt(before, r, d, turn.attempt, s.store.db)
    ensures redis.quiet ==>
      && redis.entries == old(redis.entries) && redis.up == old(redis.up)
      && (turn == LockDown <==> !redis.up) && (turn == Lost <==> redis.up && Locked(redis.entries, d))
    ensures s.store.quiet ==>
      && (turn.Tried? ==> before == old(s.store.db))
      && (turn != Tried(Some(Assigned(d))) ==> s.store.db == old(s.store.db))
      && (turn == Tried(None) ==> !(d in before.drivers && before.drivers[d].status == Available))
  {
    hide Agreement, Attempt;
    before := s.store.db;
    redis.OthersRun();
    var reply := redis.Acquire(LockDriver(d), c.ttl);
    match reply
    case Unreachable => return LockDown, before;
    case Contended => return Lost, before;
    case Granted(token) =>
      var attempt;
      ghost var checked;
      attempt, before, checked := TryCandidate(s, r, d);
      AttemptMeans(before, r, d, attempt, s.store.db);
      redis.OthersRun();
      var _ := redis.Release(LockDriver(d), token);
      return Tried(attempt), before;
  }

  /** How many candidates were skipped because their key was bound. */
  function LostTurns(turns: seq<Turn>): nat { multiset(turns)[Lost] }

  /** Only contended candidates and ones that failed the re-check: the loop goes on. */
  predicate GoesOn(turns: seq<Turn>) { forall i :: 0 <= i < |turns| ==> turns[i] == Lost || turns[i] == Tried(None) }

  /** The call stops at the first turn that is neither, with that turn's result; with no such turn, all
      candidates have had theirs and the result is that there is no driver. */
  predicate TakesTurns(turns: seq<Turn>, result: MatchResult, candidates: nat) {
    if result == NoDriver then GoesOn(turns) && |turns| == candidates
    else
      && turns != [] && GoesOn(turns[..|turns| - 1])
      && turns[|turns| - 1] == if result == LockingDown then LockDown else Tried(Some(result))
  }

  lemma NoTurnYet()
    ensures LostTurns([]) == 0 && GoesOn([])
  {}

  lemma OneMoreTurn(turns: seq<Turn>, turn: Turn, candidates: nat)
    requires GoesOn(turns)
    ensures var more := turns + [turn];
      && LostTurns(more) == LostTurns(turns) + (if turn == Lost then 1 else 0)
      && (turn == Lost || turn == Tried(None) ==> GoesOn(more))
      && (turn == LockDown ==> TakesTurns(more, LockingDown, candidates))
      && (turn.Tried? && turn.attempt.Some? && turn.attempt.value !in {NoDriver, LockingDown} ==>
            TakesTurns(more, turn.attempt.value, candidates))
  {
    assert (turns + [turn])[..|turns|] == turns;
  }

  lemma NoTurnLeft(turns: seq<Turn>, candidates: nat)
    requires GoesOn(turns) && |turns| == candidates
    ensures TakesTurns(turns, NoDriver, candidates)
  {}

  /** `match_ride`, handed a ride as its session last read it. Whatever others do meanwhile, the call
      commits nothing unless it returns a driver, and then exactly one assignment; every lease it took
      it has given back. Undisturbed, it decides by the tables and leases it found. */
  method MatchRide(s: Session, redis: Redis, tracker: Metrics.MetricsTracker, c: Config, r: RideId, ride: Ride)
    returns (result: MatchResult, ghost radius: nat, ghost before: Db, ghost seen: seq<Db>, ghost turns: seq<Turn>)
    requires s.NothingPending() && redis.Valid() && tracker.Valid()
    requires Agreement(s.store.db) && GeoAssumptions(c) && c.ttl > 0
    requires r in s.store.db.rides && s.store.db.rides[r].request == ride.request
    requires s.store.quiet ==> s.store.db.rides[r] == ride
    modifies s, s.store, redis`entries, redis`now, redis`up, redis`minted, redis`open, tracker
    ensures redis.Valid() && tracker.Valid() && Agreement(s.store.db) && r in s.store.db.rides
    ensures redis.open == old(redis.open) && tracker.history == old(tracker.history)
    ensures tracker.losses == old(tracker.losses) + LostTurns(turns)
    ensures result != IntegrityEscaped ==> s.NothingPending()
    ensures s.commits == old(s.commits) + if result.Assigned? then [Change(before, s.store.db)] else []
    ensures result.Assigned? ==> Attempt(before, r, result.driver, Some(result), s.store.db)
    ensures result == NotRequested <==> ride.status != Requested
    ensures ride.status == Requested ==> TakesTurns(turns, result, |Gathered(c, ride.request, seen)|)
    ensures result.Assigned? ==> Stopped(c, ride.request, seen) && result.driver in Gathered(c, ride.request, seen)
    ensures s.store.quiet && !result.Assigned? ==> s.store.db == old(s.store.db)
    ensures redis.quiet ==> redis.entries == old(redis.entries)
    ensures s.store.quiet && result.Assigned? ==> before == old(s.store.db)
    ensures s.store.quiet && redis.quiet && result != NotRequested ==>
      && Settles(c, old(s.store.db), old(redis.entries), old(redis.up), old(s.loaded) == map[], r, radius, result)
      && (result == NoDriver ==>
            tracker.losses == old(tracker.losses) + |Within(c, old(s.store.db), ride.request, radius)|)
  {
    hide *;
    radius, before, seen, turns := 0, s.store.db, [], [];
    NoTurnYet();
    if ride.status != Requested { return NotRequested, radius, before, seen, turns; }
    ghost var db, entries, calm := s.store.db, redis.entries, s.store.quiet && redis.quiet;
    ghost var idle := s.loaded == map[];
    NothingPendingMeans(s);
    var ranked;
    ranked, seen := FindRankedCandidates(s, c, ride.request);
    if s.store.quiet {
      radius := |seen| - 1;
      RankedFromSearch(c, db, ride.request, radius, s.loaded, idle, ranked);
    }
    for i := 0 to |ranked|
      invariant s.NothingPending() && redis.Valid() && tracker.Valid()
      invariant Agreement(s.store.db) && r in s.store.db.rides
      invariant s.commits == old(s.commits) && redis.open == old(redis.open)
      invariant tracker.history == old(tracker.history)
      invariant tracker.losses == old(tracker.losses) + LostTurns(turns) && |turns| == i && GoesOn(turns)
      invariant s.store.quiet ==> s.store.db == db
      invariant redis.quiet ==> redis.entries == entries && redis.up == old(redis.up)
      invariant calm ==> tracker.losses == old(tracker.losses) + i && (i > 0 ==> redis.up)
      invariant calm ==> forall j :: 0 <= j < i ==> Locked(entries, ranked[j].driver)
    {
      var d := ranked[i].driver;
      assert Ids(ranked)[i] in Ids(ranked);
      var turn;
      turn, before := TakeTurn(s, redis, c, r, d);
      OneMoreTurn(turns, turn, |Gathered(c, ride.request, seen)|);
      turns := turns + [turn];
      match turn
      case LockDown =>
        if calm { DownDecides(c, db, entries, idle, r, radius, ranked); }
        return LockingDown, radius, before, seen, turns;
      case Lost =>
        tracker.RecordLockContention();
      case Tried(attempt) =>
        AttemptMeans(before, r, d, attempt, s.store.db);
        if calm { TryDecides(c, db, entries, idle, r, radius, ranked, i, attempt, s.store.db); }
        if attempt.Some? { return attempt.value, radius, before, seen, turns; }
    }
    AllGathered(c, ride.request, seen, ranked);
    NoTurnLeft(turns, |Gathered(c, ride.request, seen)|);
    if calm { NoneDecides(c, db, entries, redis.up, idle, r, radius, ranked); }
    return NoDriver, radius, before, seen, turns;
  }

  lemma AllGathered(c: Config, req: Request, seen: seq<Db>, ranked: seq<Candidate>)
    requires NoDuplicates(Ids(ranked)) && forall d :: d in Ids(ranked) <==> d in Gathered(c, req, seen)
    ensures |ranked| == |Gathered(c, req, seen)|
  {
    DistinctLength(Ids(ranked), Gathered(c, req, seen));
  }

  /** The ranked list names exactly the AVAILABLE drivers of the stopping disk; a session that had
      loaded nothing before measured to their committed places. */
  lemma RankedFromSearch(c: Config, db: Db, req: Request, radius: nat, loaded: map<DriverId, Driver>, idle: bool,
                         ranked: seq<Candidate>)
    requires Sorted(ranked) && StopsAt(c, db, req, radius) && NoDuplicates(Ids(ranked))
    requires forall d :: d in Ids(ranked) <==> d in Within(c, db, req, radius)
    requires forall x :: x in ranked ==> x.driver in loaded && AtDistanceOf(c, req, x, loaded[x.driver].place)
    requires idle ==> LoadedSince(map[], loaded, db.drivers)
    ensures RankedFrom(c, db, req, radius, ranked)
    ensures idle ==> TruePlaces(c, db, req, ranked)
  {}

  lemma DownDecides(c: Config, db: Db, entries: map<LockKey, Leases.Lease>, idle: bool, r: RideId, radius: nat,
                    ranked: seq<Candidate>)
    requires r in db.rides && RankedFrom(c, db, db.rides[r].request, radius, ranked) && ranked != []
    ensures Settles(c, db, entries, false, idle, r, radius, LockingDown)
  {
    CandidateIsNear(c, db, db.rides[r].request, radius, ranked, 0);
  }

  lemma NoneDecides(c: Config, db: Db, entries: map<LockKey, Leases.Lease>, up: bool, idle: bool, r: RideId,
                    radius: nat,
                    ranked: seq<Candidate>)
    requires r in db.rides && RankedFrom(c, db, db.rides[r].request, radius, ranked) && (ranked != [] ==> up)
    requires forall j :: 0 <= j < |ranked| ==> Locked(entries, ranked[j].driver)
    ensures Settles(c, db, entries, up, idle, r, radius, NoDriver)
    ensures |ranked| == |Within(c, db, db.rides[r].request, radius)|
  {
    var near := Within(c, db, db.rides[r].request, radius);
    AllLocked(c, db, entries, db.rides[r].request, radius, ranked);
    DistinctLength(Ids(ranked), near);
  }

  /** Sequential refinement: with nobody else about, Redis up and no candidate locked, `match_ride` on
      a REQUESTED ride succeeds exactly when an AVAILABLE driver is within the largest disk, and assigns
      one of least distance in the stopping disk. */
  lemma UndisturbedMatch(c: Config, db: Db, entries: map<LockKey, Leases.Lease>, r: RideId, radius: nat,
                         result: MatchResult)
    requires GeoAssumptions(c) && c.target >= 1 && Agreement(db)
    requires r in db.rides && db.rides[r].status == Requested
    requires forall d :: d in db.drivers ==> !Locked(entries, d)
    requires Settles(c, db, entries, true, true, r, radius, result)
    ensures result.Assigned? <==> Within(c, db, db.rides[r].request, c.maxRing) != {}
    ensures result.Assigned? ==> Chosen(c, db, db.rides[r].request, result.driver)
    ensures result.Assigned? ==>
      var req, d := db.rides[r].request, result.driver;
      && d in Within(c, db, req, radius)
      && forall o | o in Within(c, db, req, radius) ::
        c.distance(req.lat, req.lng, db.drivers[d].place.lat, db.drivers[d].place.lng)
        <= c.distance(req.lat, req.lng, db.drivers[o].place.lat, db.drivers[o].place.lng)
    ensures !result.Assigned? ==> result == NoDriver
  {
    var req := db.rides[r].request;
    WithinGrows(c, db, req, radius, c.maxRing);
    if result == IntegrityEscaped {
      var d :| d in Within(c, db, req, radius) && !SlotFree(db, r, d);
      IndexIsAgreed(db);
    }
    if result.Assigned? { assert NearestWithin(c, db, req, radius, result.driver); }
  }
}
