/** A SQLAlchemy session with `autoflush=False` over the two tables, used by one request at a time:
    statements act on the open transaction, attribute changes stay in memory until the commit, and
    a driver already loaded is not re-read unless asked to. */
module Persistence {
  import opened Domain

  /** The committed tables. A quiet database has no other client. */
  class Database {
    var db: Db
    const riders: set<nat>
    const quiet: bool

    constructor (db: Db, riders: set<nat>, quiet: bool)
      ensures this.db == db && this.riders == riders && this.quiet == quiet
    {
      this.db, this.riders, this.quiet := db, riders, quiet;
    }

    /** Any number of other transactions commit. The body does nothing: a caller knows only what every
        commit of this program keeps. The tables agree, no key backs two rides, no row is deleted; a
        ride row that this transaction has locked stays as it is, and nobody else takes a driver whose
        index entry it holds. */
    method OthersCommit(locked: set<RideId>, claimed: set<DriverId>)
      requires Agreement(db)
      modifies this
      ensures Agreement(db) && (OneRidePerKey(old(db)) ==> OneRidePerKey(db))
      ensures old(db).rides.Keys <= db.rides.Keys && old(db).drivers.Keys <= db.drivers.Keys
      ensures RowsKept(locked, old(db), db) && SlotsKept(claimed, old(db), db)
      ensures quiet ==> db == old(db)
    {}
  }

  predicate RowsKept(locked: set<RideId>, before: Db, after: Db) {
    forall r :: r in locked && r in before.rides ==> r in after.rides && after.rides[r] == before.rides[r]
  }

  ghost predicate SlotsKept(claimed: set<DriverId>, before: Db, after: Db) {
    forall r, d :: d in claimed && Names(after, r, d) ==> Names(before, r, d)
  }

  /** One commit, as the tables before and after it. */
  datatype Change = Change(before: Db, after: Db)

  datatype Transition = Moved | Missed | Rejected

  /** The partial unique index, as the database checks it for one row. */
  predicate SlotFree(db: Db, r: RideId, d: DriverId) {
    forall o :: o in db.rides && o != r ==> !(Active(db.rides[o].status) && db.rides[o].driver == Some(d))
  }

  /** The partial unique index over the whole table. */
  predicate IndexHolds(db: Db) {
    forall r, o | r in db.rides && o in db.rides && Active(db.rides[r].status) && Active(db.rides[o].status) ::
      db.rides[r].driver.Some? && db.rides[r].driver == db.rides[o].driver ==> r == o
  }

  /** The idempotency-key constraint, which ignores rides without a key. */
  predicate KeyFree(rides: map<RideId, Ride>, key: Option<Key>) {
    key.Some? ==> forall o :: o in rides ==> rides[o].key != key
  }

  lemma IndexIsAgreed(db: Db)
    ensures IndexHolds(db) <==> OneActiveRidePerDriver(db)
    ensures IndexHolds(db) <==> forall r, o | r in db.rides && o in db.rides && r != o
      && db.rides[r].status !in {Completed, Cancelled} && db.rides[o].status !in {Completed, Cancelled} ::
      db.rides[r].driver.None? || db.rides[r].driver != db.rides[o].driver
    ensures forall r, d :: SlotFree(db, r, d) <==> !SlotTaken(db, r, d)
  {
    forall r, o, d | OneActiveRidePerDriver(db) && Names(db, r, d) && Names(db, o, d) ensures r == o {}
    if OneActiveRidePerDriver(db) {
      forall r, o | r in db.rides && o in db.rides && Active(db.rides[r].status) && Active(db.rides[o].status)
        && db.rides[r].driver.Some? && db.rides[r].driver == db.rides[o].driver ensures r == o
      {
        assert Names(db, r, db.rides[r].driver.value) && Names(db, o, db.rides[r].driver.value);
      }
    }
    forall r: RideId, d: DriverId ensures SlotFree(db, r, d) <==> !SlotTaken(db, r, d) {
      assert forall o: RideId ::
        Names(db, o, d) <==> o in db.rides && Active(db.rides[o].status) && db.rides[o].driver == Some(d);
    }
  }

  /** What a query does to the identity map: rows already loaded keep their objects, the others are
      read in; the caller gets the places of the objects held. */
  predicate QueryLoads(table: map<DriverId, Driver>, before: map<DriverId, Driver>, now: map<DriverId, Driver>,
                       rows: map<DriverId, Place>) {
    && now.Keys == before.Keys + rows.Keys && rows.Keys <= table.Keys
    && (forall d :: d in before ==> now[d] == before[d])
    && (forall d :: d in rows && d !in before ==> now[d] == table[d])
    && (forall d :: d in rows ==> rows[d] == now[d].place)
  }

  function AvailableRows(db: Db, cells: set<Cell>): set<DriverId> {
    set d | d in db.drivers && db.drivers[d].status == Available && db.drivers[d].place.cell in cells
  }

  class Session {
    const store: Database
    var loaded: map<DriverId, Driver>    // the identity map, with in-memory changes
    var asRead: map<DriverId, Driver>    // the same drivers as they were read
    var writes: map<RideId, Ride>        // ride rows written and not committed
    ghost var commits: seq<Change>       // what this session has committed

    ghost predicate Valid() reads this { loaded.Keys == asRead.Keys }

    /** The ride rows that this session's statements see. */
    function Rides(): map<RideId, Ride> reads this, store { store.db.rides + writes }

    function View(): Db reads this, store { Db(Rides(), store.db.drivers) }

    ghost predicate NothingPending() reads this {
      Valid() && writes == map[] && loaded == asRead
    }

    constructor (store: Database)
      ensures NothingPending() && this.store == store && loaded == map[] && commits == []
    {
      this.store := store;
      commits := [];
      loaded, asRead, writes := map[], map[], map[];
    }

    /** `list_available_in_cells`: each matching row once, in any order, with the attributes of the
        object the session already holds for it. */
    method AvailableIn(cells: set<Cell>) returns (rows: map<DriverId, Place>)
      requires Valid()
      modifies this`loaded, this`asRead
      ensures Valid() && (old(NothingPending()) ==> NothingPending())
      ensures rows.Keys == AvailableRows(store.db, cells)
      ensures QueryLoads(store.db.drivers, old(loaded), loaded, rows)
    {
      var hits := map d | d in AvailableRows(store.db, cells) :: store.db.drivers[d];
      loaded := hits + loaded;
      asRead := hits + asRead;
      rows := map d | d in hits :: loaded[d].place;
    }

    /** `get_by_id`: a fresh read replaces whatever the session held. */
    method GetDriver(d: DriverId, reread: bool) returns (driver: Option<Driver>)
      requires Valid()
      modifies this`loaded, this`asRead
      ensures Valid() && (old(NothingPending()) ==> NothingPending())
      ensures !reread && d in old(loaded) ==> driver == Some(old(loaded)[d]) && loaded == old(loaded)
      ensures reread || d !in old(loaded) ==>
        driver == (if d in store.db.drivers then Some(store.db.drivers[d]) else None)
      ensures driver.Some? ==> loaded == old(loaded)[d := driver.value] && d in asRead
      ensures driver.Some? && (reread || d !in old(loaded)) ==> asRead == old(asRead)[d := driver.value]
      ensures driver.None? ==> loaded == old(loaded) && asRead == old(asRead)
    {
      if !reread && d in loaded { return Some(loaded[d]); }
      if d !in store.db.drivers { return None; }
      driver := Some(store.db.drivers[d]);
      loaded, asRead := loaded[d := driver.value], asRead[d := driver.value];
    }

    /** `driver.status = status`: nothing reaches the database yet. */
    method SetStatus(d: DriverId, status: DriverStatus)
      requires Valid() && d in loaded
      modifies this`loaded
      ensures Valid() && loaded == old(loaded)[d := old(loaded)[d].(status := status)]
    {
      loaded := loaded[d := loaded[d].(status := status)];
    }

    /** `transition_status`: one conditional UPDATE; the index is checked by the same statement. */
    method TransitionStatus(r: RideId, from: set<RideStatus>, to: RideStatus, driver: Option<DriverId>)
      returns (done: Transition)
      requires Valid()
      modifies this`writes
      ensures Valid()
      ensures done.Missed? <==> !(r in old(Rides()) && old(Rides())[r].status in from)
      ensures !done.Moved? ==> writes == old(writes)
      ensures !done.Missed? ==>
        var row := Updated(old(Rides())[r], to, driver);
        && (done.Rejected? <==> Active(to) && row.driver.Some? && !SlotFree(old(View()), r, row.driver.value))
        && (done.Moved? ==> writes == old(writes)[r := row])
    {
      if !(r in Rides() && Rides()[r].status in from) { return Missed; }
      var row := Updated(Rides()[r], to, driver);
      if Active(to) && row.driver.Some? && !SlotFree(View(), r, row.driver.value) { return Rejected; }
      writes := writes[r := row];
      return Moved;
    }

    /** INSERT of a new ride: the primary key, the idempotency-key constraint and the rider's foreign key. */
    method InsertRide(r: RideId, row: Ride) returns (ok: bool)
      requires Valid()
      modifies this`writes
      ensures Valid()
      ensures ok <==> r !in old(Rides()) && row.request.rider in store.riders && KeyFree(old(Rides()), row.key)
      ensures writes == if ok then old(writes)[r := row] else old(writes)
    {
      ok := r !in Rides() && row.request.rider in store.riders && KeyFree(Rides(), row.key);
      if ok { writes := writes[r := row]; }
    }

    /** `get_by_idempotency_key`. */
    method RideByKey(key: Key) returns (hit: Option<RideId>)
      ensures hit.None? <==> KeyFree(Rides(), Some(key))
      ensures hit.Some? ==> hit.value in Rides() && Rides()[hit.value].key == Some(key)
    {
      if r :| r in Rides() && Rides()[r].key == Some(key) { return Some(r); }
      return None;
    }

    /** The tables after this session's statements and its buffered driver changes. */
    function Flushed(): Db reads this, store
      requires Valid()
    {
      Db(Rides(), FlushedDrivers(store.db.drivers, loaded, asRead))
    }

    /** Flush, then COMMIT; refused when the result would violate the index. Everything loaded expires. */
    method Commit() returns (ok: bool)
      requires Valid()
      modifies this, store
      ensures ok <==> IndexHolds(old(Flushed()))
      ensures store.db == if ok then old(Flushed()) else old(store.db)
      ensures ok ==> NothingPending() && loaded == map[] && commits == old(commits) + [Change(old(store.db), store.db)]
      ensures !ok ==> Valid() && commits == old(commits)
    {
      ok := IndexHolds(Flushed());
      if ok {
        commits := commits + [Change(store.db, Flushed())];
        store.db := Flushed();
        loaded, asRead, writes := map[], map[], map[];
      }
    }

    method Rollback()
      modifies this`loaded, this`asRead, this`writes
      ensures NothingPending() && loaded == map[]
    {
      loaded, asRead, writes := map[], map[], map[];
    }
  }

  /** A session without writes sees the committed tables. */
  lemma SeesCommitted(s: Session)
    requires s.writes == map[]
    ensures s.View() == s.store.db && s.Rides() == s.store.db.rides
  {}

  lemma SeesOwnWrites(s: Session)
    ensures s.Rides() == s.store.db.rides + s.writes
  {}

  lemma UnchangedDriversFlushNothing(table: map<DriverId, Driver>, loaded: map<DriverId, Driver>)
    ensures FlushedDrivers(table, loaded, loaded) == table
  {}

  lemma NothingPendingMeans(s: Session)
    requires s.NothingPending()
    ensures s.Valid() && s.writes == map[] && s.loaded == s.asRead
  {}

  lemma FlushMeans(s: Session)
    requires s.Valid()
    ensures s.loaded.Keys == s.asRead.Keys
    ensures s.Flushed() == Db(s.store.db.rides + s.writes, FlushedDrivers(s.store.db.drivers, s.loaded, s.asRead))
  {}

  /** The ORM writes the status of the drivers whose status was changed in memory, and nothing else. */
  function FlushedDrivers(table: map<DriverId, Driver>, loaded: map<DriverId, Driver>, asRead: map<DriverId, Driver>):
    map<DriverId, Driver>
    requires loaded.Keys == asRead.Keys
  {
    map d | d in table ::
      if d in loaded && loaded[d].status != asRead[d].status then table[d].(status := loaded[d].status) else table[d]
  }

  function Updated(row: Ride, to: RideStatus, driver: Option<DriverId>): Ride {
    row.(status := to, driver := if driver.Some? then driver else row.driver)
  }
}
