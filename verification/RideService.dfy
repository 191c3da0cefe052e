/** `create_ride`, `cancel_ride` and `complete_ride` as they are written, over one session, with other
    clients committing between their statements. */
module RideService {
  import opened Domain
  import opened Persistence
  import opened Surge
  import Idempotency
  import Lifecycle
  import Protocol
  import Safety

  datatype CreateResult =
    | Created(ride: RideId)
    | Existing(ride: RideId)       // an earlier ride with the same key
    | Conflict(ride: RideId)       // IdempotencyKeyConflictError
    | IntegrityError

  /** The row that a call inserts, priced from the given tables. */
  function NewRow(c: Config, p: Pricing, priced: Db, clock: int, req: Request, key: Option<Key>, at: int): Ride {
    var zone := c.zoneAt(req.lat, req.lng);
    Ride(req, Requested, None, key, Some(zone), ZoneSurge(p, priced, zone, clock - p.window).multiplier, at)
  }

  /** The tables as a call found them at its lookup, at its quote, at its INSERT and at its last statement. */
  datatype Reads = Reads(looked: Db, priced: Db, inserted: Db, last: Db)

  ghost predicate KeyTaken(db: Db, key: Option<Key>) {
    key.Some? && exists x :: x in db.rides && db.rides[x].key == key
  }

  /** The answer, whatever others commit meanwhile. A key that the lookup finds taken decides by comparing
      parameters; otherwise a free key, a new identifier and a known rider get the ride created; and a call
      that lost the race for its key gets the winner's ride. It fails only if no ride has its key. */
  ghost predicate Answers(seen: Reads, riders: set<nat>, r: RideId, req: Request, key: Option<Key>,
                          result: CreateResult) {
    if KeyTaken(seen.looked, key) then
      && seen.last == seen.looked && (result.Existing? || result.Conflict?)
      && result.ride in seen.looked.rides && seen.looked.rides[result.ride].key == key
      && (result.Existing? <==> seen.looked.rides[result.ride].request == req)
    else if r !in seen.inserted.rides && req.rider in riders && !KeyTaken(seen.inserted, key) then
      result == Created(r) && seen.last == seen.inserted
    else if KeyTaken(seen.last, key) then
      result.Existing? && result.ride in seen.last.rides && seen.last.rides[result.ride].key == key
    else result == IntegrityError
  }

  lemma KeyFreeMeans(rides: map<RideId, Ride>, drivers: map<DriverId, Driver>, key: Option<Key>)
    ensures KeyFree(rides, key) <==> !KeyTaken(Db(rides, drivers), key)
  {}

  /** What a call does to the tables it decided on. */
  predicate Creation(before: Db, r: RideId, row: Ride, result: CreateResult, after: Db) {
    match result
    case Created(x) => x == r && r !in before.rides && KeyFree(before.rides, row.key) && after == Insert(before, r, row)
    case Existing(x) => after == before && x in before.rides && row.key.Some? && before.rides[x].key == row.key
    case Conflict(x) =>
      && after == before && x in before.rides && row.key.Some? && before.rides[x].key == row.key
      && before.rides[x].request != row.request
    case IntegrityError => after == before
  }

  /** What a call returns when nobody else is about. */
  predicate CreationAlone(db: Db, riders: set<nat>, r: RideId, req: Request, key: Option<Key>, result: CreateResult) {
    if KeyFree(db.rides, key) then
      result == if r !in db.rides && req.rider in riders then Created(r) else IntegrityError
    else
      && (result.Existing? || result.Conflict?)
      && result.ride in db.rides && db.rides[result.ride].key == key
      && (result.Existing? <==> db.rides[result.ride].request == req)
  }

  lemma LookupSettles(c: Config, p: Pricing, clock: int, at: int, db: Db, riders: set<nat>, r: RideId,
                      req: Request, key: Option<Key>, x: RideId)
    requires key.Some? && x in db.rides && db.rides[x].key == key
    ensures var result := if db.rides[x].request == req then Existing(x) else Conflict(x);
      && Creation(db, r, NewRow(c, p, db, clock, req, key, at), result, db)
      && CreationAlone(db, riders, r, req, key, result)
      && Answers(Reads(db, db, db, db), riders, r, req, key, result)
  {}

  lemma RefusalSettles(c: Config, p: Pricing, seen: Reads, clock: int, at: int, riders: set<nat>, r: RideId,
                       req: Request, key: Option<Key>, winner: Option<RideId>)
    requires !KeyTaken(seen.looked, key)
    requires !(r !in seen.inserted.rides && req.rider in riders && !KeyTaken(seen.inserted, key))
    requires winner.None? <==> !KeyTaken(seen.last, key)
    requires winner.Some? ==> winner.value in seen.last.rides && seen.last.rides[winner.value].key == key
    ensures var result := if winner.Some? then Existing(winner.value) else IntegrityError;
      && Creation(seen.last, r, NewRow(c, p, seen.priced, clock, req, key, at), result, seen.last)
      && Answers(seen, riders, r, req, key, result)
      && (seen.looked == seen.inserted == seen.last ==> CreationAlone(seen.last, riders, r, req, key, result))
  {
    KeyFreeMeans(seen.last.rides, seen.last.drivers, key);
  }

  lemma CreationAnswers(seen: Reads, riders: set<nat>, r: RideId, req: Request, key: Option<Key>)
    requires !KeyTaken(seen.looked, key) && seen.last == seen.inserted
    requires r !in seen.inserted.rides && req.rider in riders && !KeyTaken(seen.inserted, key)
    ensures Answers(seen, riders, r, req, key, Created(r))
  {}

  lemma InsertSettles(db: Db, riders: set<nat>, flushed: Db, r: RideId, row: Ride)
    requires Agreement(db) && OneRidePerKey(db) && r !in db.rides && KeyFree(db.rides, row.key)
    requires row.status == Requested && row.driver.None? && row.request.rider in riders
    requires flushed.rides == db.rides + map[r := row] && flushed.drivers == db.drivers
    ensures Agreement(flushed) && OneRidePerKey(flushed) && IndexHolds(flushed)
    ensures Creation(db, r, row, Created(r), flushed) && CreationAlone(db, riders, r, row.request, row.key, Created(r))
    ensures r in flushed.rides && flushed.rides[r] == row
  {
    assert flushed.rides == db.rides[r := row];
    InsertAgrees(db, r, row);
    IndexIsAgreed(flushed);
  }

  lemma RowIsNew(c: Config, p: Pricing, priced: Db, clock: int, req: Request, key: Option<Key>, at: int)
    ensures var row := NewRow(c, p, priced, clock, req, key, at);
      && row.status == Requested && row.driver.None? && row.request == req && row.key == key
      && row.zone == Some(c.zoneAt(req.lat, req.lng)) && row.createdAt == at
  {}

  /** The quote, in full: recent active rides and AVAILABLE drivers of the pickup point's zone are counted,
      and the surcharge times the drivers is the weighted demand unless that exceeds the cap. */
  lemma QuoteIsExact(c: Config, p: Pricing, db: Db, clock: int, req: Request, key: Option<Key>, at: int)
    requires Sensible(p)
    ensures var quote, zone := NewRow(c, p, db, clock, req, key, at).quote, c.zoneAt(req.lat, req.lng);
      var demand := |set x | x in db.rides && db.rides[x].zone == Some(zone)
                             && db.rides[x].createdAt >= clock - p.window
                             && db.rides[x].status !in {Completed, Cancelled}|;
      var supply := |set d | d in db.drivers && db.drivers[d].status == Available && db.drivers[d].place.zone == zone|;
      var n := if supply == 0 then 1 else supply;
      if p.sensitivity * demand as real <= (p.cap - 1.0) * n as real
      then (quote - 1.0) * n as real == p.sensitivity * demand as real
      else quote == p.cap
  {
    hide Multiplier;
    var zone, since := c.zoneAt(req.lat, req.lng), clock - p.window;
    var rides := set x | x in db.rides && db.rides[x].zone == Some(zone) && db.rides[x].createdAt >= since
                         && db.rides[x].status !in {Completed, Cancelled};
    var free := set d | d in db.drivers && db.drivers[d].status == Available && db.drivers[d].place.zone == zone;
    assert RecentActive(db, zone, since) == rides && FreeIn(db, zone) == free;
    assert NewRow(c, p, db, clock, req, key, at).quote == Multiplier(p, |rides|, |free|);
    PriceIsExact(p, |rides|, |free|);
  }

  /** `create_ride`. The quote comes from the tables as they are before the row is written. `r` is the
      identifier drawn for the new ride, `clock` the time of the quote and `at` the ride's creation time. */
  method CreateRide(s: Session, c: Config, p: Pricing, req: Request, key: Option<Key>, r: RideId, at: int, clock: int)
    returns (result: CreateResult, ghost seen: Reads)
    requires s.NothingPending() && s.loaded == map[] && Agreement(s.store.db) && OneRidePerKey(s.store.db)
    modifies s, s.store
    ensures s.NothingPending() && s.loaded == map[] && Agreement(s.store.db) && OneRidePerKey(s.store.db)
    ensures Answers(seen, s.store.riders, r, req, key, result)
    ensures result == IntegrityError ==>
      key.Some? ==> forall x :: x in seen.last.rides ==> seen.last.rides[x].key != key
    ensures Creation(seen.last, r, NewRow(c, p, seen.priced, clock, req, key, at), result, s.store.db)
    ensures result.Created? ==>
      && r in s.store.db.rides
      && s.store.db.rides[r] == Ride(req, Requested, None, key, Some(c.zoneAt(req.lat, req.lng)),
                                     s.store.db.rides[r].quote, at)
    ensures s.commits == old(s.commits) + if result.Created? then [Change(seen.last, s.store.db)] else []
    ensures s.store.quiet ==> var db := old(s.store.db);
      seen == Reads(db, db, db, db) && CreationAlone(db, s.store.riders, r, req, key, result)
  {
    hide *;
    NothingPendingMeans(s);
    s.store.OthersCommit({}, {});
    ghost var looked := s.store.db;
    SeesCommitted(s);
    KeyFreeMeans(looked.rides, looked.drivers, key);
    NoKeyIsFree(looked);
    if key.Some? {
      var hit := s.RideByKey(key.value);
      if hit.Some? {
        LookupSettles(c, p, clock, at, looked, s.store.riders, r, req, key, hit.value);
        seen := Reads(looked, looked, looked, looked);
        if s.Rides()[hit.value].request != req { return Conflict(hit.value), seen; }
        return Existing(hit.value), seen;
      }
    }
    s.store.OthersCommit({}, {});
    ghost var priced := s.store.db;
    var row := NewRow(c, p, s.store.db, clock, req, key, at);
    RowIsNew(c, p, priced, clock, req, key, at);
    s.store.OthersCommit({}, {});
    ghost var inserted := s.store.db;
    SeesCommitted(s);
    KeyFreeMeans(inserted.rides, inserted.drivers, key);
    var ok := s.InsertRide(r, row);
    if ok {
      seen := Reads(looked, priced, inserted, inserted);
      FlushMeans(s);
      UnchangedDriversFlushNothing(s.store.db.drivers, s.loaded);
      InsertSettles(inserted, s.store.riders, s.Flushed(), r, row);
      CreationAnswers(seen, s.store.riders, r, req, key);
      ok := s.Commit();
      assert ok;
      return Created(r), seen;
    }
    s.Rollback();
    if key.None? {
      seen := Reads(looked, priced, inserted, inserted);
      NoKeyIsFree(inserted);
      RefusalSettles(c, p, seen, clock, at, s.store.riders, r, req, key, None);
      return IntegrityError, seen;
    }
    NothingPendingMeans(s);
    s.store.OthersCommit({}, {});
    seen := Reads(looked, priced, inserted, s.store.db);
    SeesCommitted(s);
    KeyFreeMeans(seen.last.rides, seen.last.drivers, key);
    var winner := s.RideByKey(key.value);
    RefusalSettles(c, p, seen, clock, at, s.store.riders, r, req, key, winner);
    if winner.None? {
      FreeKeyIsNobodys(seen.last, key);
      return IntegrityError, seen;
    }
    return Existing(winner.value), seen;
  }

  lemma NoKeyIsFree(db: Db)
    ensures !KeyTaken(db, None)
  {}

  lemma FreeKeyIsNobodys(db: Db, key: Option<Key>)
    requires !KeyTaken(db, key)
    ensures key.Some? ==> forall x :: x in db.rides ==> db.rides[x].key != key
  {}

  /** However long the system has run since and whatever has happened to the ride: a retry that nobody
      disturbs gets the same ride if it asks for the same, is refused otherwise, and creates nothing. */
  lemma RetryFindsSameRide(c: Config, ss: seq<Protocol.State>, acts: seq<Protocol.Action>, i: nat, j: nat, before: Db,
                           r: RideId, row: Ride, riders: set<nat>, again: RideId, req: Request,
                           result: CreateResult, after: Db)
    requires Protocol.Run(c, ss, acts) && Safety.Inv(c, ss[0]) && i <= j < |ss|
    requires Creation(before, r, row, Created(r), ss[i].db) && row.key.Some?
    requires CreationAlone(ss[j].db, riders, again, req, row.key, result)
    requires Creation(ss[j].db, again, row.(request := req), result, after)
    ensures result == (if req == row.request then Existing(r) else Conflict(r)) && after == ss[j].db
  {
    hide Protocol.Next, Safety.Inv;
    Lifecycle.RidesOnlyAdvance(c, ss, acts, i, j, r);
    Idempotency.KeysAreWriteOnce(c, ss, acts, i, j, row.key.value, r);
    assert Idempotency.Backs(ss[j].db, row.key.value, r);
    assert !KeyFree(ss[j].db.rides, row.key);
    assert Idempotency.Backs(ss[j].db, row.key.value, result.ride);
  }

  datatype EndResult = Ended | NotFound | InvalidState

  predicate Ends(before: Db, r: RideId, kind: Ending, result: EndResult, after: Db) {
    match result
    case Ended =>
      && r in before.rides && EndsFrom(kind, before.rides[r].status)
      && (before.rides[r].driver.Some? ==> before.rides[r].driver.value in before.drivers)
      && after == End(before, r, kind, before.rides[r].driver)
    case NotFound => after == before && r !in before.rides
    case InvalidState => after == before && r in before.rides && !EndsFrom(kind, before.rides[r].status)
  }

  /** The ride has the given status and nothing else about it has changed; its driver, if it has one, is
      AVAILABLE where it was; no other row has changed. */
  predicate Released(before: Db, r: RideId, status: RideStatus, after: Db) {
    && r in before.rides && after.rides == before.rides[r := before.rides[r].(status := status)]
    && after.drivers.Keys == before.drivers.Keys
    && forall d | d in before.drivers ::
      after.drivers[d] ==
        if before.rides[r].driver == Some(d) then before.drivers[d].(status := Available) else before.drivers[d]
  }

  /** An ending, in full: cancelling takes any ride that has not ended, completing one that is MATCHED or
      IN_PROGRESS; the ride is then CANCELLED or COMPLETED and its driver AVAILABLE. Otherwise nothing
      changes. */
  lemma EndingMeans(before: Db, r: RideId, kind: Ending, result: EndResult, after: Db)
    requires Ends(before, r, kind, result, after)
    ensures result == NotFound <==> r !in before.rides
    ensures r in before.rides && kind == Cancel ==>
      (result == Ended <==> before.rides[r].status in {Requested, Matched, InProgress})
    ensures r in before.rides && kind == Complete ==>
      (result == Ended <==> before.rides[r].status in {Matched, InProgress})
    ensures if result == Ended then Released(before, r, if kind == Complete then Completed else Cancelled, after)
            else after == before
  {}

  function EndSources(kind: Ending): set<RideStatus> {
    match kind
    case Cancel => {Requested, Matched, InProgress}
    case Complete => {Matched, InProgress}
  }

  /** The flush of a terminal status beside the buffered AVAILABLE of the driver is exactly the ending. */
  lemma FlushIsEnd(db: Db, flushed: Db, loaded: map<DriverId, Driver>, asRead: map<DriverId, Driver>, r: RideId,
                   kind: Ending)
    requires Agreement(db) && r in db.rides && EndsFrom(kind, db.rides[r].status) && loaded.Keys == asRead.Keys
    requires flushed.rides == db.rides + map[r := Updated(db.rides[r], EndStatus(kind), None)]
    requires flushed.drivers == FlushedDrivers(db.drivers, loaded, asRead)
    requires var d := db.rides[r].driver;
      if d.None? then loaded == asRead
      else
        && d.value in asRead && asRead[d.value].status == Busy
        && loaded == asRead[d.value := asRead[d.value].(status := Available)]
    ensures Ends(db, r, kind, Ended, flushed) && Agreement(flushed) && IndexHolds(flushed)
  {
    hide FlushedDrivers, Updated, IndexHolds;
    EndAgrees(db, r, kind);
    FlushedEnd(db, flushed, loaded, asRead, r, kind);
    IndexIsAgreed(flushed);
  }

  lemma FlushedEnd(db: Db, flushed: Db, loaded: map<DriverId, Driver>, asRead: map<DriverId, Driver>, r: RideId,
                   kind: Ending)
    requires r in db.rides && loaded.Keys == asRead.Keys
    requires db.rides[r].driver.Some? ==> db.rides[r].driver.value in db.drivers
    requires flushed.rides == db.rides + map[r := Updated(db.rides[r], EndStatus(kind), None)]
    requires flushed.drivers == FlushedDrivers(db.drivers, loaded, asRead)
    requires var d := db.rides[r].driver;
      if d.None? then loaded == asRead
      else
        && d.value in asRead && asRead[d.value].status == Busy
        && loaded == asRead[d.value := asRead[d.value].(status := Available)]
    ensures flushed == End(db, r, kind, db.rides[r].driver)
  {
    assert flushed.rides == End(db, r, kind, db.rides[r].driver).rides;
    assert flushed.drivers == End(db, r, kind, db.rides[r].driver).drivers;
  }

  /** Both endings start from active statuses and lead to one outside the index. */
  lemma EndRefused(db: Db, r: RideId, kind: Ending)
    ensures r !in db.rides ==> Ends(db, r, kind, NotFound, db)
    ensures r in db.rides && db.rides[r].status !in EndSources(kind) ==> Ends(db, r, kind, InvalidState, db)
    ensures r in db.rides && db.rides[r].status in EndSources(kind) ==> EndsFrom(kind, db.rides[r].status)
    ensures !Active(EndStatus(kind))
  {}

  lemma RowStays(before: Db, after: Db, r: RideId)
    requires r in before.rides && RowsKept({r}, before, after)
    ensures r in after.rides && after.rides[r] == before.rides[r]
  {}

  lemma EndedRow(row: Ride, kind: Ending)
    ensures Updated(row, EndStatus(kind), None).driver == row.driver
  {}

  lemma EngagedDriverIsBusy(db: Db, r: RideId, kind: Ending)
    requires Agreement(db) && r in db.rides && EndsFrom(kind, db.rides[r].status) && db.rides[r].driver.Some?
    ensures db.rides[r].driver.value in db.drivers && db.drivers[db.rides[r].driver.value].status == Busy
  {
    assert Names(db, r, db.rides[r].driver.value);
  }

  /** `cancel_ride` and `complete_ride` over their shared transition. The driver to free is read after
      the UPDATE, so it is the one the ride has at the commit. */
  method EndRide(s: Session, r: RideId, kind: Ending) returns (result: EndResult, ghost before: Db)
    requires s.NothingPending() && s.loaded == map[] && Agreement(s.store.db)
    modifies s, s.store
    ensures s.NothingPending() && s.loaded == map[] && Agreement(s.store.db) && Agreement(before)
    ensures Ends(before, r, kind, result, s.store.db)
    ensures result == NotFound <==> r !in before.rides
    ensures r in before.rides && kind == Cancel ==>
      (result == Ended <==> before.rides[r].status in {Requested, Matched, InProgress})
    ensures r in before.rides && kind == Complete ==>
      (result == Ended <==> before.rides[r].status in {Matched, InProgress})
    ensures result == Ended ==> Released(before, r, if kind == Complete then Completed else Cancelled, s.store.db)
    ensures s.commits == old(s.commits) + if result.Ended? then [Change(before, s.store.db)] else []
    ensures s.store.quiet ==> before == old(s.store.db)
  {
    hide *;
    NothingPendingMeans(s);
    s.store.OthersCommit({}, {});
    before := s.store.db;
    SeesCommitted(s);
    if r !in s.Rides() {
      EndRefused(before, r, kind);
      EndingMeans(before, r, kind, NotFound, before);
      return NotFound, before;
    }
    s.store.OthersCommit({}, {});
    before := s.store.db;
    SeesCommitted(s);
    EndRefused(before, r, kind);
    var done := s.TransitionStatus(r, EndSources(kind), EndStatus(kind), None);
    if !done.Moved? {
      s.Rollback();
      EndingMeans(before, r, kind, InvalidState, before);
      return InvalidState, before;
    }
    s.store.OthersCommit({r}, {});
    RowStays(before, s.store.db, r);
    before := s.store.db;
    EndedRow(before.rides[r], kind);
    SeesOwnWrites(s);
    var freed := s.Rides()[r].driver;        // refresh
    if freed.Some? {
      EngagedDriverIsBusy(before, r, kind);
      var driver := s.GetDriver(freed.value, true);
      if driver.Some? { s.SetStatus(freed.value, Available); }
    }
    FlushMeans(s);
    FlushIsEnd(before, s.Flushed(), s.loaded, s.asRead, r, kind);
    var ok := s.Commit();
    assert ok;
    EndingMeans(before, r, kind, Ended, s.store.db);
    return Ended, before;
  }

  /** Pricing before the insert keeps a ride out of its own demand. Pricing after it would have counted
      one more ride. */
  lemma QuoteLeavesOutItself(c: Config, p: Pricing, db: Db, clock: int, req: Request, key: Option<Key>, r: RideId,
                             at: int)
    requires r !in db.rides && at >= clock - p.window
    ensures var row := NewRow(c, p, db, clock, req, key, at);
      ZoneSurge(p, Insert(db, r, row), row.zone.value, clock - p.window).demand
        == ZoneSurge(p, db, row.zone.value, clock - p.window).demand + 1
  {
    hide Multiplier;
    var zone := c.zoneAt(req.lat, req.lng);
    InsertCounts(db, r, NewRow(c, p, db, clock, req, key, at), zone, clock - p.window);
  }
}
