/** The rows of the `rides` and `drivers` tables, the constraints declared on them, and the
    effect each committed transaction has on them. Identifiers (UUIDs, H3 addresses, zone ids,
    idempotency keys) are only ever compared for equality, so they are numbers here. */
module Domain {
  datatype Option<+T> = None | Some(value: T)

  type RideId = nat
  type DriverId = nat
  type Key = nat
  type Cell = nat
  type Zone = nat

  datatype RideStatus = Requested | Matched | InProgress | Completed | Cancelled
  datatype DriverStatus = Available | Busy | Offline

  /** What a client asks for; the three fields an idempotent retry is compared on. */
  datatype Request = Request(rider: nat, lat: real, lng: real)

  datatype Ride = Ride(request: Request, status: RideStatus, driver: Option<DriverId>,
                       key: Option<Key>, zone: Option<Zone>, quote: real, createdAt: int)

  datatype Place = Place(lat: real, lng: real, cell: Cell, zone: Zone)
  datatype Driver = Driver(status: DriverStatus, place: Place)

  datatype Db = Db(rides: map<RideId, Ride>, drivers: map<DriverId, Driver>)

  /** The settings and the two library functions (H3 disks, great-circle distance) the code calls. */
  datatype Config = Config(disk: (Cell, nat) -> set<Cell>, cellAt: (real, real) -> Cell,
                           zoneAt: (real, real) -> Zone,
                           distance: (real, real, real, real) -> real,
                           target: int, maxRing: nat, ttl: nat)

  /** What the model assumes of H3 and of the great-circle distance. */
  ghost predicate GeoAssumptions(c: Config) {
    && (forall x: Cell :: CentreOnly(c, x))
    && (forall x: Cell, k: nat, l: nat :: DisksNest(c, x, k, l))
    && (forall a, b, x, y :: c.distance(a, b, x, y) >= 0.0)
  }

  predicate CentreOnly(c: Config, x: Cell) { c.disk(x, 0) == {x} }

  predicate DisksNest(c: Config, x: Cell, k: nat, l: nat) { k <= l ==> c.disk(x, k) <= c.disk(x, l) }

  /** The statuses the partial unique index covers. */
  predicate Active(s: RideStatus) { s == Requested || s == Matched || s == InProgress }

  /** The statuses that occupy a driver. */
  predicate Engaged(s: RideStatus) { s == Matched || s == InProgress }

  predicate Names(db: Db, r: RideId, d: DriverId) {
    r in db.rides && Active(db.rides[r].status) && db.rides[r].driver == Some(d)
  }

  /** An index entry other than ride r's own already occupies driver d's slot. */
  ghost predicate SlotTaken(db: Db, r: RideId, d: DriverId) {
    exists o :: o != r && Names(db, o, d)
  }

  ghost predicate KeyUsed(db: Db, k: Key) { exists r :: r in db.rides && db.rides[r].key == Some(k) }

  /** `ux_rides_one_active_ride_per_driver`. */
  ghost predicate OneActiveRidePerDriver(db: Db) {
    forall r, o, d :: Names(db, r, d) && Names(db, o, d) ==> r == o
  }

  /** `uq_rides_idempotency_key`. */
  ghost predicate OneRidePerKey(db: Db) {
    forall r, o | r in db.rides && o in db.rides && db.rides[r].key.Some? ::
      db.rides[r].key == db.rides[o].key ==> r == o
  }

  /** Rides and drivers tell the same story. */
  ghost predicate Agreement(db: Db) {
    && OneActiveRidePerDriver(db)
    && (forall r :: r in db.rides ==> RideShape(db.rides[r]))
    && (forall r, d :: Names(db, r, d) ==> d in db.drivers && db.drivers[d].status == Busy)
    && (forall d :: d in db.drivers ==> db.drivers[d].status != Offline)
    && (forall d :: d in db.drivers && db.drivers[d].status == Busy ==> exists r :: Names(db, r, d))
  }

  /** A driver is recorded exactly on rides that were matched at some time. */
  predicate RideShape(ride: Ride) {
    && ride.status != InProgress
    && (ride.status == Requested ==> ride.driver.None?)
    && (ride.status == Matched || ride.status == Completed ==> ride.driver.Some?)
  }

  /** The two operations that end a ride. */
  datatype Ending = Cancel | Complete

  predicate EndsFrom(kind: Ending, s: RideStatus) {
    match kind
    case Cancel => Active(s)
    case Complete => Engaged(s)
  }

  function EndStatus(kind: Ending): RideStatus {
    match kind
    case Cancel => Cancelled
    case Complete => Completed
  }

  // What each commit does to the tables.

  function Insert(db: Db, r: RideId, row: Ride): Db {
    db.(rides := db.rides[r := row])
  }

  function Assign(db: Db, r: RideId, d: DriverId): Db
    requires r in db.rides && d in db.drivers
  {
    Db(db.rides[r := db.rides[r].(status := Matched, driver := Some(d))],
       db.drivers[d := db.drivers[d].(status := Busy)])
  }

  function End(db: Db, r: RideId, kind: Ending, freed: Option<DriverId>): Db
    requires r in db.rides && (freed.Some? ==> freed.value in db.drivers)
  {
    Db(db.rides[r := db.rides[r].(status := EndStatus(kind))],
       if freed.None? then db.drivers
       else db.drivers[freed.value := db.drivers[freed.value].(status := Available)])
  }

  /** The ORM writes only the columns that differ from what it loaded. */
  function Merge(row: Place, loaded: Place, asked: Place): Place {
    Place(if asked.lat == loaded.lat then row.lat else asked.lat,
          if asked.lng == loaded.lng then row.lng else asked.lng,
          if asked.cell == loaded.cell then row.cell else asked.cell,
          if asked.zone == loaded.zone then row.zone else asked.zone)
  }

  function Move(db: Db, d: DriverId, loaded: Place, asked: Place): Db
    requires d in db.drivers
  {
    db.(drivers := db.drivers[d := db.drivers[d].(place := Merge(db.drivers[d].place, loaded, asked))])
  }

  function Register(db: Db, d: DriverId, place: Place): Db {
    db.(drivers := db.drivers[d := Driver(Available, place)])
  }

  // How the commits treat the agreement between the tables.

  lemma InsertAgrees(db: Db, r: RideId, row: Ride)
    requires Agreement(db) && r !in db.rides && row.status == Requested && row.driver.None?
    ensures Agreement(Insert(db, r, row))
  {
    var db' := Insert(db, r, row);
    forall d | d in db'.drivers && db'.drivers[d].status == Busy ensures exists o :: Names(db', o, d) {
      var o :| Names(db, o, d);
      assert Names(db', o, d);
    }
    forall o, d | Names(db', o, d) ensures Names(db, o, d) {}
  }

  lemma AssignAgrees(db: Db, r: RideId, d: DriverId)
    requires Agreement(db) && r in db.rides && d in db.drivers
    requires db.rides[r].status == Requested && !SlotTaken(db, r, d)
    ensures Agreement(Assign(db, r, d))
  {
    var db' := Assign(db, r, d);
    assert Names(db', r, d);
    forall o: RideId, e: DriverId | Names(db', o, e) && o != r ensures Names(db, o, e) && e != d {
      assert Names(db, o, e);
    }
    forall e | e in db'.drivers && db'.drivers[e].status == Busy ensures exists o :: Names(db', o, e) {
      if e != d {
        var o :| Names(db, o, e);
        assert Names(db', o, e);
      }
    }
  }

  lemma EndAgrees(db: Db, r: RideId, kind: Ending)
    requires Agreement(db) && r in db.rides && EndsFrom(kind, db.rides[r].status)
    ensures db.rides[r].driver.Some? ==> db.rides[r].driver.value in db.drivers
    ensures Agreement(End(db, r, kind, db.rides[r].driver))
  {
    var od := db.rides[r].driver;
    assert od.Some? ==> Names(db, r, od.value);
    var db' := End(db, r, kind, od);
    forall o: RideId, e: DriverId | Names(db', o, e) ensures Names(db, o, e) && o != r && od != Some(e) {
      assert Names(db, o, e);
    }
    forall e | e in db'.drivers && db'.drivers[e].status == Busy ensures exists o :: Names(db', o, e) {
      var o :| Names(db, o, e);
      assert Names(db', o, e);
    }
  }

  lemma PlaceAgrees(db: Db, db': Db)
    requires Agreement(db) && db'.rides == db.rides && db.drivers.Keys <= db'.drivers.Keys
    requires forall d :: d in db.drivers ==> db'.drivers[d].status == db.drivers[d].status
    requires forall d :: d in db'.drivers && d !in db.drivers ==> db'.drivers[d].status == Available
    ensures Agreement(db')
  {
    forall o, d ensures Names(db', o, d) <==> Names(db, o, d) {}
    forall d | d in db'.drivers && db'.drivers[d].status == Busy ensures exists o :: Names(db', o, d) {
      var o :| Names(db, o, d);
      assert Names(db', o, d);
    }
  }
}
