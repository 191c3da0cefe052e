/** `POST /rides`: create, then match what is still REQUESTED, and record the attempt. */
module Api {
  import opened Domain
  import opened Persistence
  import opened LockStore
  import Leases
  import opened RideService
  import opened Matcher
  import opened Candidates
  import Metrics
  import Surge

  datatype Response =
    | Responded(ride: RideId)                 // 201, matched or not
    | Uncreated(why: CreateResult)
    | Unfinished(cause: MatchResult)

  function OutcomeOf(result: MatchResult): Metrics.Outcome {
    match result
    case Assigned(_) => Metrics.Matched
    case NoDriver => Metrics.Unmatched
    case _ => Metrics.Error
  }

  function ResponseOf(created: CreateResult, attempt: Option<MatchResult>): Response {
    match created
    case Conflict(_) => Uncreated(created)
    case IntegrityError => Uncreated(created)
    case _ => if attempt.Some? && OutcomeOf(attempt.value) == Metrics.Error then Unfinished(attempt.value)
              else Responded(created.ride)
  }

  /** A request whose ride was created or found is answered with that ride, unless matching it raised
      something other than "no driver"; the attempt is counted as matched, unmatched or an error. */
  lemma ResponseMeans(created: CreateResult, attempt: Option<MatchResult>)
    ensures created.Created? || created.Existing? ==>
      ResponseOf(created, attempt)
        == if attempt.None? || attempt.value.Assigned? || attempt.value.NoDriver? then Responded(created.ride)
           else Unfinished(attempt.value)
    ensures created.Conflict? || created.IntegrityError? ==> ResponseOf(created, attempt) == Uncreated(created)
    ensures attempt.Some? ==>
      (attempt.value.Assigned? <==> OutcomeOf(attempt.value) == Metrics.Matched)
    ensures attempt.Some? ==>
      (attempt.value.NoDriver? <==> OutcomeOf(attempt.value) == Metrics.Unmatched)
  {}

  /** What matching a created or found ride does when nobody else is about: it is attempted exactly when
      the ride is REQUESTED, and then settles it by the tables and leases of the moment. */
  ghost predicate MatchedAlone(c: Config, db: Db, entries: map<LockKey, Leases.Lease>, up: bool, ride: RideId,
                               attempt: Option<MatchResult>, after: Db) {
    && ride in db.rides && (attempt.Some? <==> db.rides[ride].status == Requested)
    && (attempt.Some? ==> exists radius :: Settles(c, db, entries, up, true, ride, radius, attempt.value))
    && (if attempt.Some? && attempt.value.Assigned? then Attempt(db, ride, attempt.value.driver, attempt, after)
        else after == db)
  }

  /** The whole request with nobody else about. */
  ghost predicate RequestedAlone(c: Config, db: Db, riders: set<nat>, entries: map<LockKey, Leases.Lease>, up: bool,
                                 r: RideId,
                                 row: Ride, created: CreateResult, attempt: Option<MatchResult>, mid: Db, after: Db) {
    && CreationAlone(db, riders, r, row.request, row.key, created) && Creation(db, r, row, created, mid)
    && if created.Created? || created.Existing? then MatchedAlone(c, mid, entries, up, created.ride, attempt, after)
       else attempt.None? && after == mid
  }

  /** The second half of the request, on the ride as the session has just read it. */
  method MatchRequested(s: Session, redis: Redis, tracker: Metrics.MetricsTracker, c: Config, ride: RideId,
                        took: real, now: real)
    returns (attempt: Option<MatchResult>, ghost changes: seq<Change>)
    requires s.NothingPending() && s.loaded == map[] && redis.Valid() && tracker.Valid()
    requires Agreement(s.store.db) && GeoAssumptions(c) && c.ttl > 0 && ride in s.store.db.rides
    modifies s, s.store, redis`entries, redis`now, redis`up, redis`minted, redis`open, tracker
    ensures redis.Valid() && tracker.Valid() && Agreement(s.store.db) && redis.open == old(redis.open)
    ensures s.commits == old(s.commits) + changes
    ensures |changes| == if attempt.Some? && attempt.value.Assigned? then 1 else 0
    ensures attempt.Some? <==> old(s.store.db).rides[ride].status == Requested
    ensures tracker.history == old(tracker.history) +
      if attempt.Some? then [Metrics.MatchAttempt(OutcomeOf(attempt.value), took, now)] else []
    ensures s.store.quiet && redis.quiet ==>
      MatchedAlone(c, old(s.store.db), old(redis.entries), old(redis.up), ride, attempt, s.store.db)
  {
    hide *;
    NothingPendingMeans(s);
    SeesCommitted(s);
    var row := s.Rides()[ride];
    changes := [];
    if row.status != Requested {
      if s.store.quiet && redis.quiet { NotAttempted(c, s.store.db, redis.entries, redis.up, ride); }
      return None, changes;
    }
    ghost var db, entries, up := s.store.db, redis.entries, redis.up;
    var result;
    ghost var radius, before, seen, turns;
    result, radius, before, seen, turns := MatchRide(s, redis, tracker, c, ride, row);
    tracker.Record(OutcomeOf(result), took, now);
    if s.store.quiet && redis.quiet { AttemptSettles(c, db, entries, up, ride, radius, result, s.store.db); }
    return Some(result), if result.Assigned? then [Change(before, s.store.db)] else [];
  }

  lemma NotAttempted(c: Config, db: Db, entries: map<LockKey, Leases.Lease>, up: bool, ride: RideId)
    requires ride in db.rides && db.rides[ride].status != Requested
    ensures MatchedAlone(c, db, entries, up, ride, None, db)
  {}

  lemma AttemptSettles(c: Config, db: Db, entries: map<LockKey, Leases.Lease>, up: bool, ride: RideId, radius: nat,
                       result: MatchResult, after: Db)
    requires ride in db.rides && db.rides[ride].status == Requested
    requires Settles(c, db, entries, up, true, ride, radius, result)
    requires if result.Assigned? then Attempt(db, ride, result.driver, Some(result), after) else after == db
    ensures MatchedAlone(c, db, entries, up, ride, Some(result), after)
  {}

  /** `request_ride`. Closing the request's session discards whatever an escaping error left behind. */
  method RequestRide(s: Session, redis: Redis, tracker: Metrics.MetricsTracker, c: Config, p: Surge.Pricing,
                     req: Request, key: Option<Key>, r: RideId, at: int, clock: int, took: real, now: real)
    returns (response: Response, ghost created: CreateResult, ghost attempt: Option<MatchResult>,
             ghost mid: Db, ghost changes: seq<Change>, ghost seen: Reads)
    requires s.NothingPending() && s.loaded == map[] && redis.Valid() && tracker.Valid()
    requires Agreement(s.store.db) && OneRidePerKey(s.store.db) && GeoAssumptions(c) && c.ttl > 0
    modifies s, s.store, redis`entries, redis`now, redis`up, redis`minted, redis`open, tracker
    ensures redis.Valid() && tracker.Valid() && Agreement(s.store.db) && redis.open == old(redis.open)
    ensures s.NothingPending() && s.commits == old(s.commits) + changes
    ensures |changes| ==
      (if created.Created? then 1 else 0) + (if attempt.Some? && attempt.value.Assigned? then 1 else 0)
    ensures Answers(seen, s.store.riders, r, req, key, created)
    ensures Creation(seen.last, r, NewRow(c, p, seen.priced, clock, req, key, at), created, mid)
    ensures attempt.Some? <==>
      && (created.Created? || created.Existing?) && created.ride in mid.rides
      && mid.rides[created.ride].status == Requested
    ensures response == ResponseOf(created, attempt)
    ensures created.Created? || created.Existing? ==>
      response == if attempt.None? || attempt.value.Assigned? || attempt.value.NoDriver? then Responded(created.ride)
                  else Unfinished(attempt.value)
    ensures created.Conflict? || created.IntegrityError? ==> response == Uncreated(created)
    ensures tracker.history == old(tracker.history) +
      if attempt.None? then []
      else [Metrics.MatchAttempt(if attempt.value.Assigned? then Metrics.Matched
                                 else if attempt.value.NoDriver? then Metrics.Unmatched
                                 else Metrics.Error, took, now)]
    ensures s.store.quiet && redis.quiet && key.Some? ==> var db := old(s.store.db);
      forall x | x in db.rides && db.rides[x].key == key && db.rides[x].request == req
                 && db.rides[x].status != Requested ::
        response == Responded(x) && attempt.None? && s.store.db == db
    ensures s.store.quiet && redis.quiet ==>
      RequestedAlone(c, old(s.store.db), s.store.riders, old(redis.entries), old(redis.up), r,
                     NewRow(c, p, old(s.store.db), clock, req, key, at), created, attempt, mid, s.store.db)
  {
    hide *;
    ghost var db, entries, up := s.store.db, redis.entries, redis.up;
    var creation;
    creation, seen := CreateRide(s, c, p, req, key, r, at, clock);
    created, mid := creation, s.store.db;
    RowIsNew(c, p, seen.priced, clock, req, key, at);
    CreatedRideExists(seen.last, r, NewRow(c, p, seen.priced, clock, req, key, at), created, mid);
    changes := if created.Created? then [Change(seen.last, mid)] else [];
    var tried := None;
    if creation.Created? || creation.Existing? {
      ghost var more;
      tried, more := MatchRequested(s, redis, tracker, c, creation.ride, took, now);
      changes := changes + more;
    }
    s.Rollback();
    attempt := tried;
    if s.store.quiet && redis.quiet {
      Alone(c, db, s.store.riders, entries, up, r, NewRow(c, p, db, clock, req, key, at), created, attempt, mid,
            s.store.db);
      RowIsNew(c, p, db, clock, req, key, at);
    }
    response := ResponseOf(creation, tried);
    ResponseMeans(created, attempt);
    if s.store.quiet && redis.quiet && key.Some? {
      forall x | x in db.rides && db.rides[x].key == key && db.rides[x].request == req
                 && db.rides[x].status != Requested
        ensures response == Responded(x) && attempt.None? && s.store.db == db
      {
        RetryIsAnswered(c, db, s.store.riders, entries, up, r, NewRow(c, p, db, clock, req, key, at), created, attempt,
                        mid, s.store.db, x);
      }
    }
  }

  /** A retry after the ride has moved on is answered with that ride as it is; no match is tried and nothing
      changes. */
  lemma RetryIsAnswered(c: Config, db: Db, riders: set<nat>, entries: map<LockKey, Leases.Lease>, up: bool, r: RideId,
                        row: Ride, created: CreateResult, attempt: Option<MatchResult>, mid: Db, after: Db, x: RideId)
    requires OneRidePerKey(db) && row.key.Some? && x in db.rides
    requires db.rides[x].key == row.key && db.rides[x].request == row.request && db.rides[x].status != Requested
    requires RequestedAlone(c, db, riders, entries, up, r, row, created, attempt, mid, after)
    ensures ResponseOf(created, attempt) == Responded(x) && attempt.None? && after == db
  {
    hide Settles, Attempt;
    assert !KeyFree(db.rides, row.key);
  }

  lemma CreatedRideExists(before: Db, r: RideId, row: Ride, created: CreateResult, mid: Db)
    requires Creation(before, r, row, created, mid)
    ensures created.Created? || created.Existing? ==> created.ride in mid.rides
  {}

  lemma Alone(c: Config, db: Db, riders: set<nat>, entries: map<LockKey, Leases.Lease>, up: bool, r: RideId, row: Ride,
              created: CreateResult, attempt: Option<MatchResult>, mid: Db, after: Db)
    requires CreationAlone(db, riders, r, row.request, row.key, created) && Creation(db, r, row, created, mid)
    requires if created.Created? || created.Existing?
             then MatchedAlone(c, mid, entries, up, created.ride, attempt, after)
             else attempt.None? && after == mid
    ensures RequestedAlone(c, db, riders, entries, up, r, row, created, attempt, mid, after)
  {}

  /** The happy path end to end: a first request of a known rider with Redis up and nobody else about is
      always answered with its new ride, which has a driver exactly when an AVAILABLE one was within the
      largest disk; that driver is one of least distance in the stopping disk, and nothing but the new
      row and that driver's status differs. */
  lemma FreshRequest(c: Config, db: Db, riders: set<nat>, entries: map<LockKey, Leases.Lease>, r: RideId, row: Ride,
                     created: CreateResult, attempt: Option<MatchResult>, mid: Db, after: Db)
    requires GeoAssumptions(c) && c.target >= 1 && Agreement(db)
    requires r !in db.rides && row.request.rider in riders && KeyFree(db.rides, row.key)
    requires row.status == Requested && row.driver.None?
    requires forall d :: d in db.drivers ==> !Locked(entries, d)
    requires RequestedAlone(c, db, riders, entries, true, r, row, created, attempt, mid, after)
    ensures ResponseOf(created, attempt) == Responded(r)
    ensures if Within(c, db, row.request, c.maxRing) == {} then after == Insert(db, r, row)
            else exists d ::
              Chosen(c, db, row.request, d) && d in db.drivers && after == Assign(Insert(db, r, row), r, d)
  {
    hide Settles, Agreement, Chosen, Within, GeoAssumptions, Locked;
    assert mid == Insert(db, r, row) && attempt.Some?;
    var radius :| Settles(c, mid, entries, true, true, r, radius, attempt.value);
    InsertAgrees(db, r, row);
    SameDriversSameSearch(c, db, mid, row.request);
    Settled(c, mid, entries, true, r, radius, attempt.value);
    UndisturbedMatch(c, mid, entries, r, radius, attempt.value);
  }

  lemma Settled(c: Config, db: Db, entries: map<LockKey, Leases.Lease>, up: bool, r: RideId, radius: nat,
                result: MatchResult)
    requires r in db.rides && Settles(c, db, entries, up, true, r, radius, result)
    ensures result.Assigned? ==> result.driver in db.drivers
  {}

  lemma SameDriversSameSearch(c: Config, db: Db, db': Db, req: Request)
    requires db'.drivers == db.drivers
    ensures Within(c, db', req, c.maxRing) == Within(c, db, req, c.maxRing)
    ensures forall d :: Chosen(c, db', req, d) ==> Chosen(c, db, req, d)
  {
    assert forall k: nat :: Within(c, db', req, k) == Within(c, db, req, k);
    forall d | Chosen(c, db', req, d) ensures Chosen(c, db, req, d) {
      var k :| StopsAt(c, db', req, k) && NearestWithin(c, db', req, k, d);
      assert StopsAt(c, db, req, k) && NearestWithin(c, db, req, k, d);
    }
  }
}
