/** Surge pricing: a clamped ratio of recent active rides to AVAILABLE drivers in a zone, and how the
    commits of the protocol move it. Floats are modelled as reals. */
module Surge {
  import opened Domain
  import opened Protocol
  import opened Safety
  import opened Counting
  import opened RealArithmetic

  datatype Pricing = Pricing(sensitivity: real, cap: real, window: nat)

  predicate Sensible(p: Pricing) { p.sensitivity >= 0.0 && p.cap >= 1.0 }

  function AtLeastOne(n: nat): (m: nat)
    ensures m >= 1 && m >= n && (m == n || m == 1)
  {
    if n > 1 then n else 1
  }

  /** `surge_multiplier`. */
  function Multiplier(p: Pricing, demand: nat, supply: nat): real {
    Price(p, Ratio(demand, supply))
  }

  function Ratio(demand: nat, supply: nat): real { demand as real / AtLeastOne(supply) as real }

  function Price(p: Pricing, ratio: real): real { Clamp(1.0 + p.sensitivity * ratio, p.cap) }

  /** `min(max(raw, 1.0), cap)`. */
  function Clamp(raw: real, cap: real): real {
    var floored := if raw > 1.0 then raw else 1.0;
    if floored < cap then floored else cap
  }

  /** More rides per driver is a larger ratio. */
  lemma RatioMonotone(d: nat, s: nat, d': nat, s': nat)
    requires d <= d' && s >= s' >= 1
    ensures 0.0 <= d as real / s as real <= d' as real / s' as real
  {
    var p, q := d as real / s as real, d' as real / s' as real;
    assert p * s as real == d as real && q * s' as real == d' as real;
    ScalesBack(s as real, 0.0, p);
    ScalesBack(s' as real, 0.0, q);
    Scales(q, s' as real, s as real);
    ScalesBack(s as real, p, q);
  }

  lemma PriceMonotone(p: Pricing, a: real, b: real)
    requires Sensible(p) && a <= b
    ensures Price(p, a) <= Price(p, b)
  {
    Scales(p.sensitivity, a, b);
  }

  /** The price never falls when demand rises or supply shrinks. */
  lemma MultiplierMonotone(p: Pricing, d: nat, s: nat, d': nat, s': nat)
    requires Sensible(p) && d <= d' && s >= s'
    ensures Multiplier(p, d, s) <= Multiplier(p, d', s')
  {
    assert AtLeastOne(s) >= AtLeastOne(s');
    RatioMonotone(d, AtLeastOne(s), d', AtLeastOne(s'));
    PriceMonotone(p, Ratio(d, s), Ratio(d', s'));
  }

  /** The multiplier lies between 1 and the cap, is 1 without demand, and reaches the cap exactly when
      the weighted demand covers the cap's share of the floored supply. */
  lemma MultiplierRange(p: Pricing, d: nat, s: nat)
    requires Sensible(p)
    ensures 1.0 <= Multiplier(p, d, s) <= p.cap
    ensures d == 0 ==> Multiplier(p, d, s) == 1.0
    ensures Multiplier(p, d, s) == p.cap <==> p.sensitivity * d as real >= (p.cap - 1.0) * AtLeastOne(s) as real
  {
    PriceIsExact(p, d, s);
    var n := AtLeastOne(s) as real;
    Scales(p.sensitivity, 0.0, d as real);
    var m := Multiplier(p, d, s) - 1.0;
    if p.sensitivity * d as real <= (p.cap - 1.0) * n {
      ScalesBack(n, 0.0, m);
      ScalesBack(n, m, p.cap - 1.0);
      ScalesBack(n, p.cap - 1.0, m);
    }
  }

  /** Each driver, or the one that is always counted, carries its share of the demand: below the cap the
      surcharge times the floored supply is the weighted demand, and beyond it the price is the cap. */
  lemma PriceIsExact(p: Pricing, d: nat, s: nat)
    requires Sensible(p)
    ensures var n := if s == 0 then 1 else s;
      if p.sensitivity * d as real <= (p.cap - 1.0) * n as real
      then (Multiplier(p, d, s) - 1.0) * n as real == p.sensitivity * d as real
      else Multiplier(p, d, s) == p.cap
  {
    var n, ratio := AtLeastOne(s) as real, Ratio(d, s);
    assert ratio * n == d as real && ratio >= 0.0;
    var x := p.sensitivity * ratio;
    Scales(p.sensitivity, 0.0, ratio);
    assert x * n == p.sensitivity * (ratio * n);
    ScalesBack(n, x, p.cap - 1.0);
    ScalesBack(n, p.cap - 1.0, x);
    assert Multiplier(p, d, s) == Clamp(1.0 + x, p.cap);
  }

  function RecentActive(db: Db, zone: Zone, since: int): set<RideId> {
    set r | r in db.rides && db.rides[r].zone == Some(zone) && db.rides[r].createdAt >= since
            && Active(db.rides[r].status)
  }

  function FreeIn(db: Db, zone: Zone): set<DriverId> {
    set d | d in db.drivers && db.drivers[d].status == Available && db.drivers[d].place.zone == zone
  }

  datatype SurgeResult = SurgeResult(zone: Zone, demand: nat, supply: nat, multiplier: real)

  /** `zone_surge`, with the two counts taken on one snapshot and a given start of the window. */
  function ZoneSurge(p: Pricing, db: Db, zone: Zone, since: int): SurgeResult {
    var demand, supply := |RecentActive(db, zone, since)|, |FreeIn(db, zone)|;
    SurgeResult(zone, demand, supply, Multiplier(p, demand, supply))
  }

  /** Squeezing a zone (more recent active rides, fewer free drivers) never lowers its price. */
  lemma SqueezeRaises(p: Pricing, db: Db, db': Db, zone: Zone, since: int)
    requires Sensible(p)
    requires RecentActive(db, zone, since) <= RecentActive(db', zone, since) && FreeIn(db', zone) <= FreeIn(db, zone)
    ensures ZoneSurge(p, db, zone, since).multiplier <= ZoneSurge(p, db', zone, since).multiplier
  {
    SubsetSize(RecentActive(db, zone, since), RecentActive(db', zone, since));
    SubsetSize(FreeIn(db', zone), FreeIn(db, zone));
    MultiplierMonotone(p, |RecentActive(db, zone, since)|, |FreeIn(db, zone)|,
                       |RecentActive(db', zone, since)|, |FreeIn(db', zone)|);
  }

  predicate Commits(pc: Pc) { pc.CCommit? || pc.MCommit? || pc.ECommit? || pc.LCommit? }

  /** For a fixed start of the window: committing a new ride or a match never lowers any zone's price,
      committing a cancel or complete and registering a driver never raise one, and, location updates
      apart, no other step of the system changes one. */
  lemma SurgeFollowsLifecycle(p: Pricing, c: Config, g: State, a: Action, g': State, zone: Zone, since: int)
    requires Sensible(p) && Reachable(c, g) && Next(c, g, a) == Some(g')
    ensures var was, now := ZoneSurge(p, g.db, zone, since).multiplier, ZoneSurge(p, g'.db, zone, since).multiplier;
      && (a.Work? && (g.workers[a.worker].CCommit? || g.workers[a.worker].MCommit?) ==> was <= now)
      && ((a.Work? && g.workers[a.worker].ECommit?) || a.NewDriver? ==> now <= was)
      && (g'.db == g.db || a.NewDriver? || (a.Work? && Commits(g.workers[a.worker])))
  {
    ReachableInv(c, g);
    SurgeOfStep(p, c, g, a, g', zone, since);
  }

  lemma SurgeOfStep(p: Pricing, c: Config, g: State, a: Action, g': State, zone: Zone, since: int)
    requires Sensible(p) && Next(c, g, a) == Some(g')
    requires a.Work? ==> PcInv(c, g.db, g.workers[a.worker])
    ensures var was, now := ZoneSurge(p, g.db, zone, since).multiplier, ZoneSurge(p, g'.db, zone, since).multiplier;
      && (a.Work? && (g.workers[a.worker].CCommit? || g.workers[a.worker].MCommit?) ==> was <= now)
      && ((a.Work? && g.workers[a.worker].ECommit?) || a.NewDriver? ==> now <= was)
      && (g'.db == g.db || a.NewDriver? || (a.Work? && Commits(g.workers[a.worker])))
  {
    hide Multiplier, Local;
    if a.Work? {
      CommitForms(c, g, a.worker, a.choice, Local(c, g, a.worker, a.choice).value);
      var pc := g.workers[a.worker];
      if pc.CCommit? || pc.MCommit? { SqueezeRaises(p, g.db, g'.db, zone, since); }
      else if pc.ECommit? { SqueezeRaises(p, g'.db, g.db, zone, since); }
    } else if a.NewDriver? {
      SqueezeRaises(p, g'.db, g.db, zone, since);
    }
  }

  // Exactly what each commit changes.

  lemma InsertCounts(db: Db, r: RideId, row: Ride, zone: Zone, since: int)
    requires r !in db.rides && row.status == Requested
    ensures |RecentActive(Insert(db, r, row), zone, since)|
         == |RecentActive(db, zone, since)| + (if row.zone == Some(zone) && row.createdAt >= since then 1 else 0)
    ensures FreeIn(Insert(db, r, row), zone) == FreeIn(db, zone)
  {
    var more := RecentActive(Insert(db, r, row), zone, since);
    if row.zone == Some(zone) && row.createdAt >= since { assert more == RecentActive(db, zone, since) + {r}; }
    else { assert more == RecentActive(db, zone, since); }
  }

  lemma AssignCounts(db: Db, r: RideId, d: DriverId, zone: Zone, since: int)
    requires r in db.rides && db.rides[r].status == Requested && d in db.drivers && db.drivers[d].status == Available
    ensures RecentActive(Assign(db, r, d), zone, since) == RecentActive(db, zone, since)
    ensures |FreeIn(db, zone)|
         == |FreeIn(Assign(db, r, d), zone)| + (if db.drivers[d].place.zone == zone then 1 else 0)
  {
    var less := FreeIn(Assign(db, r, d), zone);
    if db.drivers[d].place.zone == zone { assert FreeIn(db, zone) == less + {d}; }
    else { assert FreeIn(db, zone) == less; }
  }

  lemma EndDemand(db: Db, r: RideId, kind: Ending, d: Option<DriverId>, zone: Zone, since: int)
    requires r in db.rides && Active(db.rides[r].status) && (d.Some? ==> d.value in db.drivers)
    ensures |RecentActive(db, zone, since)|
         == |RecentActive(End(db, r, kind, d), zone, since)|
            + (if db.rides[r].zone == Some(zone) && db.rides[r].createdAt >= since then 1 else 0)
  {
    var all, less := RecentActive(db, zone, since), RecentActive(End(db, r, kind, d), zone, since);
    assert r !in less && less == all - {r};
    if r in all { assert all == less + {r}; }
  }

  lemma SupplyGrows(db: Db, db': Db, d: DriverId, zone: Zone)
    requires d in db'.drivers && db'.drivers[d].status == Available && d !in FreeIn(db, zone)
    requires db'.drivers.Keys == db.drivers.Keys + {d}
    requires forall x :: x in db.drivers && x != d ==> db'.drivers[x] == db.drivers[x]
    ensures |FreeIn(db', zone)| == |FreeIn(db, zone)| + (if db'.drivers[d].place.zone == zone then 1 else 0)
  {
    var some, more := FreeIn(db, zone), FreeIn(db', zone);
    if db'.drivers[d].place.zone == zone { assert more == some + {d}; } else { assert more == some; }
  }

  lemma EndSupply(db: Db, r: RideId, kind: Ending, d: Option<DriverId>, zone: Zone)
    requires r in db.rides && (d.Some? ==> d.value in db.drivers && db.drivers[d.value].status == Busy)
    ensures |FreeIn(End(db, r, kind, d), zone)|
         == |FreeIn(db, zone)| + (if d.Some? && db.drivers[d.value].place.zone == zone then 1 else 0)
  {
    if d.Some? { SupplyGrows(db, End(db, r, kind, d), d.value, zone); }
  }

  /** A new ride is one more demand in its own zone, if it is recent, and nothing elsewhere; a match is one
      free driver less in the driver's zone; the end of a ride is one demand less in the ride's zone, if it
      is recent, and one free driver more in its driver's; a registration is one free driver more. */
  lemma CommitsMoveCounts(p: Pricing, c: Config, g: State, a: Action, g': State, zone: Zone, since: int)
    requires Reachable(c, g) && Next(c, g, a) == Some(g')
    ensures var was, now := ZoneSurge(p, g.db, zone, since), ZoneSurge(p, g'.db, zone, since);
      && (a.NewDriver? ==>
            now.demand == was.demand && now.supply == was.supply + (if a.place.zone == zone then 1 else 0))
      && (a.Work? ==>
            var pc := g.workers[a.worker];
            match pc
            case CCommit(r, row) =>
              && now.supply == was.supply
              && now.demand == was.demand + (if row.zone == Some(zone) && row.createdAt >= since then 1 else 0)
            case MCommit(r, _, d, _) =>
              && now.demand == was.demand && d in g.db.drivers
              && was.supply == now.supply + (if g.db.drivers[d].place.zone == zone then 1 else 0)
            case ECommit(r, _, d) =>
              && r in g.db.rides && (d.Some? ==> d.value in g.db.drivers)
              && was.demand == now.demand
                + (if g.db.rides[r].zone == Some(zone) && g.db.rides[r].createdAt >= since then 1 else 0)
              && now.supply == was.supply
                + (if d.Some? && g.db.drivers[d.value].place.zone == zone then 1 else 0)
            case _ => true)
  {
    hide Multiplier, Local;
    ReachableInv(c, g);
    if a.NewDriver? {
      SupplyGrows(g.db, g'.db, a.driver, zone);
      assert RecentActive(g'.db, zone, since) == RecentActive(g.db, zone, since);
    }
    if a.Work? {
      var w, pc := a.worker, g.workers[a.worker];
      InvKnows(c, g, w);
      CommitForms(c, g, w, a.choice, Local(c, g, w, a.choice).value);
      if pc.CCommit? { InsertCounts(g.db, pc.ride, pc.row, zone, since); }
      if pc.ECommit? {
        EndKnows(c, g.db, pc);
        EndDemand(g.db, pc.ride, pc.kind, pc.freed, zone, since);
        EndSupply(g.db, pc.ride, pc.kind, pc.freed, zone);
      }
      if pc.MCommit? { MatchCommits(c, g, a, g'); AssignCounts(g.db, pc.ride, pc.driver, zone, since); }
    }
  }

  lemma EndKnows(c: Config, db: Db, pc: Pc)
    requires Agreement(db) && pc.ECommit? && PcInv(c, db, pc)
    ensures pc.ride in db.rides && Active(db.rides[pc.ride].status)
    ensures pc.freed.Some? ==> pc.freed.value in db.drivers && db.drivers[pc.freed.value].status == Busy
  {
    if pc.freed.Some? { assert Names(db, pc.ride, pc.freed.value); }
  }

  /** The commit of a match always goes through, and its driver was AVAILABLE. */
  lemma MatchCommits(c: Config, g: State, a: Action, g': State)
    requires Reachable(c, g) && a.Work? && Next(c, g, a) == Some(g') && g.workers[a.worker].MCommit?
    ensures var pc := g.workers[a.worker];
      && pc.ride in g.db.rides && g.db.rides[pc.ride].status == Requested
      && pc.driver in g.db.drivers && g.db.drivers[pc.driver].status == Available
      && g'.db == Assign(g.db, pc.ride, pc.driver)
  {
    var pc := g.workers[a.worker];
    ReachableInv(c, g);
    InvKnows(c, g, a.worker);
    CommitNeverRejected(c, g, a.worker);
    DriversMatchRides(c, g, pc.driver);
    assert forall o :: Names(g.db, o, pc.driver) ==> o == pc.ride || SlotTaken(g.db, pc.ride, pc.driver);
  }

  // All zones at once.

  /** `list_recent_zone_ids`: whatever the rides' status. */
  function RecentZones(db: Db, since: int): set<Zone> {
    set r | r in db.rides && db.rides[r].zone.Some? && db.rides[r].createdAt >= since :: db.rides[r].zone.value
  }

  /** `surge_by_zone`. */
  function SurgeByZone(p: Pricing, db: Db, since: int): map<Zone, SurgeResult> {
    map z | z in RecentZones(db, since) :: ZoneSurge(p, db, z, since)
  }

  ghost function TotalDemand(m: map<Zone, SurgeResult>): nat
    decreases |m|
  {
    if m == map[] then 0
    else
      var z :| z in m;
      m[z].demand + TotalDemand(m - {z})
  }

  function RecentActiveAnywhere(db: Db, since: int): set<RideId> {
    set r | r in db.rides && db.rides[r].zone.Some? && db.rides[r].createdAt >= since && Active(db.rides[r].status)
  }

  function RidesIn(db: Db, since: int, zones: set<Zone>): set<RideId> {
    set r | r in RecentActiveAnywhere(db, since) && db.rides[r].zone.value in zones
  }

  lemma PeelZone(db: Db, since: int, zones: set<Zone>, z: Zone)
    requires z in zones
    ensures |RidesIn(db, since, zones)| == |RecentActive(db, z, since)| + |RidesIn(db, since, zones - {z})|
  {
    assert RidesIn(db, since, zones) == RecentActive(db, z, since) + RidesIn(db, since, zones - {z});
    assert RecentActive(db, z, since) !! RidesIn(db, since, zones - {z});
  }

  /** The zones of a report split the rides they count. */
  lemma {:induction false} DemandsSplit(db: Db, since: int, m: map<Zone, SurgeResult>)
    requires forall z :: z in m ==> m[z].demand == |RecentActive(db, z, since)|
    ensures TotalDemand(m) == |RidesIn(db, since, m.Keys)|
    decreases |m|
  {
    if m == map[] {
      assert RidesIn(db, since, m.Keys) == {};
    } else {
      var z :| z in m && TotalDemand(m) == m[z].demand + TotalDemand(m - {z});
      DemandsSplit(db, since, m - {z});
      PeelZone(db, since, m.Keys, z);
      assert (m - {z}).Keys == m.Keys - {z};
    }
  }

  /** On one snapshot the demands reported over all zones add up to the recent active rides that have
      a zone: none is missed and none is counted twice. The zones are those of all recent rides, ended
      ones included. */
  lemma DemandsAddUp(p: Pricing, db: Db, since: int)
    ensures SurgeByZone(p, db, since).Keys
         == set r | r in db.rides && db.rides[r].zone.Some? && db.rides[r].createdAt >= since :: db.rides[r].zone.value
    ensures forall z, x | z in SurgeByZone(p, db, since) && x == SurgeByZone(p, db, since)[z] ::
      && x.zone == z && x.demand == |RecentActive(db, z, since)| && x.supply == |FreeIn(db, z)|
      && x.multiplier == Multiplier(p, x.demand, x.supply)
    ensures TotalDemand(SurgeByZone(p, db, since)) == |RecentActiveAnywhere(db, since)|
  {
    var m := SurgeByZone(p, db, since);
    assert RidesIn(db, since, m.Keys) == RecentActiveAnywhere(db, since);
    DemandsSplit(db, since, m);
  }
}
