/** What candidate discovery is meant to find: AVAILABLE drivers in the smallest disk that holds the
    target number of them, or in the full disk if none does. */
module Candidates {
  import opened Domain
  import opened Geo

  function Centre(c: Config, req: Request): Cell { c.cellAt(req.lat, req.lng) }

  function Within(c: Config, db: Db, req: Request, k: nat): set<DriverId> {
    set d | d in db.drivers && db.drivers[d].status == Available
            && db.drivers[d].place.cell in c.disk(Centre(c, req), k)
  }

  predicate StopsAt(c: Config, db: Db, req: Request, k: nat) {
    && k <= c.maxRing && (|Within(c, db, req, k)| >= c.target || k == c.maxRing)
    && forall j: nat :: j < k ==> |Within(c, db, req, j)| < c.target
  }

  /** Place p is at most as far from the pickup point as place q. */
  predicate NoFarther(c: Config, req: Request, p: Place, q: Place) {
    c.distance(req.lat, req.lng, p.lat, p.lng) <= c.distance(req.lat, req.lng, q.lat, q.lng)
  }

  predicate NearestWithin(c: Config, db: Db, req: Request, k: nat, d: DriverId) {
    && d in Within(c, db, req, k)
    && forall o :: o in Within(c, db, req, k) ==> NoFarther(c, req, db.drivers[d].place, db.drivers[o].place)
  }

  /** The driver an undisturbed match assigns. */
  ghost predicate Chosen(c: Config, db: Db, req: Request, d: DriverId) {
    exists k :: StopsAt(c, db, req, k) && NearestWithin(c, db, req, k, d)
  }

  lemma WithinGrows(c: Config, db: Db, req: Request, j: nat, k: nat)
    requires GeoAssumptions(c) && j <= k
    ensures Within(c, db, req, j) <= Within(c, db, req, k)
  {
    assert DisksNest(c, Centre(c, req), j, k);
  }

  /** Adding one ring's drivers to the drivers of the inner disk gives the drivers of the disk. */
  lemma RingCompletesDisk(c: Config, db: Db, req: Request, k: nat, d: DriverId)
    requires GeoAssumptions(c) && d in db.drivers && db.drivers[d].status == Available
    ensures d in Within(c, db, req, k) <==>
      (db.drivers[d].place.cell in Ring(c, Centre(c, req), k) || (k > 0 && d in Within(c, db, req, k - 1)))
  {
    RingStep(c, Centre(c, req), k);
  }

  /** The stopping radius is unique. */
  lemma StopUnique(c: Config, db: Db, req: Request, j: nat, k: nat)
    requires StopsAt(c, db, req, j) && StopsAt(c, db, req, k)
    ensures j == k
  {}

  /** The search always stops somewhere. */
  lemma {:induction false} StopExists(c: Config, db: Db, req: Request, from: nat) returns (k: nat)
    requires from <= c.maxRing && forall j: nat :: j < from ==> |Within(c, db, req, j)| < c.target
    ensures StopsAt(c, db, req, k)
    decreases c.maxRing - from
  {
    if |Within(c, db, req, from)| >= c.target || from == c.maxRing { k := from; }
    else { k := StopExists(c, db, req, from + 1); }
  }

  lemma {:induction false} LeastExists(f: map<DriverId, real>) returns (d: DriverId)
    requires f.Keys != {}
    ensures d in f && forall o :: o in f ==> f[d] <= f[o]
    decreases f.Keys
  {
    var x :| x in f;
    var rest := f - {x};
    d := x;
    if rest.Keys != {} {
      var e := LeastExists(rest);
      if f[e] < f[x] { d := e; }
    }
    forall o | o in f ensures f[d] <= f[o] { assert o == x || o in rest; }
  }

  /** Being chosen depends on one radius only, so it is a matter of the drivers and the target. */
  lemma ChosenExactly(c: Config, db: Db, req: Request, k: nat, d: DriverId)
    requires StopsAt(c, db, req, k)
    ensures Chosen(c, db, req, d) <==> NearestWithin(c, db, req, k, d)
  {
    if Chosen(c, db, req, d) {
      var j :| StopsAt(c, db, req, j) && NearestWithin(c, db, req, j, d);
      StopUnique(c, db, req, j, k);
    }
  }

  /** The chosen driver, in full: AVAILABLE in the smallest disk around the pickup cell that holds the target
      number of AVAILABLE drivers, or in the largest disk, and no AVAILABLE driver of that disk is nearer to
      the pickup point. */
  lemma ChosenMeans(c: Config, db: Db, req: Request, d: DriverId) returns (k: nat)
    requires Chosen(c, db, req, d)
    ensures k <= c.maxRing && StopsAt(c, db, req, k)
    ensures d in db.drivers && db.drivers[d].status == Available
    ensures db.drivers[d].place.cell in c.disk(c.cellAt(req.lat, req.lng), k)
    ensures forall o | o in db.drivers && db.drivers[o].status == Available
                       && db.drivers[o].place.cell in c.disk(c.cellAt(req.lat, req.lng), k) ::
      c.distance(req.lat, req.lng, db.drivers[d].place.lat, db.drivers[d].place.lng)
      <= c.distance(req.lat, req.lng, db.drivers[o].place.lat, db.drivers[o].place.lng)
    ensures k == c.maxRing || c.target <= |set o | o in db.drivers && db.drivers[o].status == Available
                                            && db.drivers[o].place.cell in c.disk(c.cellAt(req.lat, req.lng), k)|
    ensures forall j: nat | j < k ::
      |set o | o in db.drivers && db.drivers[o].status == Available
               && db.drivers[o].place.cell in c.disk(c.cellAt(req.lat, req.lng), j)| < c.target
  {
    k :| StopsAt(c, db, req, k) && NearestWithin(c, db, req, k, d);
    forall o | o in db.drivers && db.drivers[o].status == Available
               && db.drivers[o].place.cell in c.disk(c.cellAt(req.lat, req.lng), k)
      ensures NoFarther(c, req, db.drivers[d].place, db.drivers[o].place)
    {
      assert o in Within(c, db, req, k);
    }
    forall j: nat
      ensures Within(c, db, req, j) == set o | o in db.drivers && db.drivers[o].status == Available
                                               && db.drivers[o].place.cell in c.disk(c.cellAt(req.lat, req.lng), j)
    {}
  }

  /** There is a driver to choose exactly when one is AVAILABLE within the largest disk. */
  lemma ChosenExists(c: Config, db: Db, req: Request)
    requires GeoAssumptions(c) && c.target >= 1
    ensures (exists d :: Chosen(c, db, req, d)) <==> Within(c, db, req, c.maxRing) != {}
  {
    hide GeoAssumptions;
    var k := StopExists(c, db, req, 0);
    var near := Within(c, db, req, k);
    WithinGrows(c, db, req, k, c.maxRing);
    if near != {} {
      var f := map d | d in near ::
        c.distance(req.lat, req.lng, db.drivers[d].place.lat, db.drivers[d].place.lng);
      var d := LeastExists(f);
      assert forall o :: o in near ==> o in f;
      assert NearestWithin(c, db, req, k, d) && Chosen(c, db, req, d);
    } else {
      assert k == c.maxRing;
      forall d ensures !Chosen(c, db, req, d) { ChosenExactly(c, db, req, k, d); }
    }
  }
}
