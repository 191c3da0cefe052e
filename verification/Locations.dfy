/** Overlapping location updates of one driver. Each writes only the columns in which its target differs
    from the row it loaded, so cell and zone can end up out of step with the coordinates. */
module Locations {
  import opened Domain
  import opened Protocol
  import opened Safety

  /** Cell and zone are those of the coordinates. */
  predicate InStep(c: Config, p: Place) {
    p.cell == c.cellAt(p.lat, p.lng) && p.zone == c.zoneAt(p.lat, p.lng)
  }

  // One write.

  /** Another update changed a column that this one does not write, to something it did not ask for. */
  predicate Overlooked(row: Place, loaded: Place, asked: Place) {
    || (asked.lat == loaded.lat != row.lat)
    || (asked.lng == loaded.lng != row.lng)
    || (asked.cell == loaded.cell != row.cell)
    || (asked.zone == loaded.zone != row.zone)
  }

  /** An update puts the driver exactly where it was asked to, unless it overlooks a column that another
      update has changed since it loaded the row. It never touches a status. */
  lemma UpdateLands(db: Db, d: DriverId, loaded: Place, asked: Place)
    requires d in db.drivers
    ensures Move(db, d, loaded, asked).drivers[d].place == asked <==> !Overlooked(db.drivers[d].place, loaded, asked)
    ensures forall x :: x in db.drivers ==>
      Move(db, d, loaded, asked).drivers[x].status == db.drivers[x].status
  {}

  /** The row before the write, the row as loaded and the target are all in step. */
  predicate AllInStep(c: Config, row: Place, loaded: Place, asked: Place) {
    InStep(c, row) && InStep(c, loaded) && InStep(c, asked)
  }

  /** The same grid, except that one point lies in another cell and zone. */
  function Redrawn(c: Config, lat: real, lng: real, cell: Cell, zone: Zone): Config {
    var cells: (real, real) -> Cell, zones: (real, real) -> Zone := c.cellAt, c.zoneAt;
    c.(cellAt := (a: real, b: real) => if a == lat && b == lng then cell else cells(a, b),
       zoneAt := (a: real, b: real) => if a == lat && b == lng then zone else zones(a, b))
  }

  /** The write leaves cell and zone in step with the coordinates, whatever the grid, if and only if the
      row it leaves is the one it found, the one it loaded or the one it was asked for. */
  lemma StaysInStepExactly(known: Config, row: Place, loaded: Place, asked: Place)
    requires AllInStep(known, row, loaded, asked)
    ensures (forall c: Config :: AllInStep(c, row, loaded, asked) ==> InStep(c, Merge(row, loaded, asked)))
       <==> Merge(row, loaded, asked) in {row, loaded, asked}
  {
    var m := Merge(row, loaded, asked);
    if m !in {row, loaded, asked} {
      var c := MixedPlaceFails(known, row, loaded, asked);
      assert AllInStep(c, row, loaded, asked) && !InStep(c, m);
    }
  }

  lemma MixedPlaceFails(known: Config, row: Place, loaded: Place, asked: Place) returns (c: Config)
    requires AllInStep(known, row, loaded, asked) && Merge(row, loaded, asked) !in {row, loaded, asked}
    ensures AllInStep(c, row, loaded, asked) && !InStep(c, Merge(row, loaded, asked))
  {
    var m := Merge(row, loaded, asked);
    c := if InStep(known, m) then Redrawn(known, m.lat, m.lng, m.cell + 1, m.zone) else known;
  }

  // Whole runs.

  /** Drivers are registered, and locations asked for, in step. */
  predicate Tidy(c: Config, a: Action) {
    && (a.NewDriver? ==> InStep(c, a.place))
    && (a.Arrive? && a.call.LGet? ==> InStep(c, a.call.asked))
  }

  ghost predicate TidyRun(c: Config, ss: seq<State>, acts: seq<Action>) {
    Run(c, ss, acts) && Init(ss[0]) && forall i :: 0 <= i < |acts| ==> Tidy(c, acts[i])
  }

  /** The update of driver d has loaded the row and not yet committed. */
  predicate Updating(pc: Pc, d: DriverId) { (pc.LFlush? || pc.LCommit?) && pc.driver == d }

  /** No driver has two such updates at a time. */
  ghost predicate Serial(g: State) {
    forall v, w, d | v in g.workers && w in g.workers && Updating(g.workers[v], d) && Updating(g.workers[w], d) ::
      v == w
  }

  /** What an update knows of its driver while no other one overlaps it. */
  predicate Knows(c: Config, db: Db, pc: Pc) {
    && (pc.LGet? ==> InStep(c, pc.asked))
    && (pc.LFlush? || pc.LCommit? ==>
          InStep(c, pc.asked) && pc.driver in db.drivers && db.drivers[pc.driver].place == pc.loaded)
  }

  ghost predicate PlacesInStep(c: Config, db: Db) { forall d :: d in db.drivers ==> InStep(c, db.drivers[d].place) }

  ghost predicate Tracked(c: Config, g: State) {
    PlacesInStep(c, g.db) && forall w :: w in g.workers ==> Knows(c, g.db, g.workers[w])
  }

  /** A statement moves a driver only at the commit of its location update, to where it was asked. */
  lemma WorkMoves(c: Config, g: State, w: WorkerId, ch: Choice, e: Effect)
    requires w in g.workers && PcInv(c, g.db, g.workers[w]) && Worked(c, g, w, ch, e) && Knows(c, g.db, g.workers[w])
    ensures e.db.drivers.Keys == g.db.drivers.Keys
    ensures forall d :: d in g.db.drivers && e.db.drivers[d].place != g.db.drivers[d].place ==>
      Updating(g.workers[w], d) && e.db.drivers[d].place == g.workers[w].asked
  {
    hide Local;
    CommitForms(c, g, w, ch, e);
  }

  lemma WorkerKnowsPlace(c: Config, g: State, w: WorkerId, ch: Choice, e: Effect)
    requires w in g.workers && Worked(c, g, w, ch, e) && Knows(c, g.db, g.workers[w])
    ensures Knows(c, e.db, e.pc)
  {
    if Creating(g.workers[w]) { assert !e.pc.LGet? && !e.pc.LFlush? && !e.pc.LCommit?; }
    else if Matching(g.workers[w]) { MatchersMoveNobody(c, g, w, ch, e); }
    else if EndingRide(g.workers[w]) { assert !e.pc.LGet? && !e.pc.LFlush? && !e.pc.LCommit?; }
  }

  lemma MatchersMoveNobody(c: Config, g: State, w: WorkerId, ch: Choice, e: Effect)
    requires w in g.workers && MatchStep(c, g, w, ch) == Some(e)
    ensures !e.pc.LGet? && !e.pc.LFlush? && !e.pc.LCommit?
  {}

  lemma StepKeepsTracked(c: Config, g: State, a: Action, g': State)
    requires Inv(c, g) && Next(c, g, a) == Some(g') && Tidy(c, a) && Serial(g) && Tracked(c, g)
    ensures Tracked(c, g')
  {
    hide Local, Inv;
    if a.Work? {
      var w, e := a.worker, Local(c, g, a.worker, a.choice).value;
      InvKnows(c, g, w);
      WorkMoves(c, g, w, a.choice, e);
      WorkerKnowsPlace(c, g, w, a.choice, e);
    }
  }

  /** While no two updates of one driver overlap, every driver's cell and zone stay in step with its
      coordinates, whatever else runs. */
  lemma {:induction false} SerialUpdatesStayInStep(c: Config, ss: seq<State>, acts: seq<Action>, i: nat)
    requires TidyRun(c, ss, acts) && i < |ss| && forall k :: 0 <= k < i ==> Serial(ss[k])
    ensures Tracked(c, ss[i])
  {
    hide Next, Tidy, Tracked, Serial, Inv, Init;
    if i == 0 { TrackedAtFirst(c, ss[0]); }
    else {
      SerialUpdatesStayInStep(c, ss, acts, i - 1);
      InvAtFirst(c, ss[0]);
      RunKeepsInv(c, ss, acts, i - 1);
      StepKeepsTracked(c, ss[i - 1], acts[i - 1], ss[i]);
    }
  }

  /** And while none overlap, every update puts its driver exactly where it was asked to. */
  lemma SerialUpdateLands(c: Config, ss: seq<State>, acts: seq<Action>, i: nat, w: WorkerId)
    requires TidyRun(c, ss, acts) && i < |acts| && forall k :: 0 <= k < i ==> Serial(ss[k])
    requires acts[i].Work? && acts[i].worker == w && w in ss[i].workers && ss[i].workers[w].LCommit?
    ensures var pc := ss[i].workers[w];
      && pc.driver in ss[i + 1].db.drivers && ss[i + 1].db.drivers[pc.driver].place == pc.asked
      && w in ss[i + 1].workers && ss[i + 1].workers[w] == Done(Located(pc.driver))
  {
    hide Init, Tidy, Serial;
    SerialUpdatesStayInStep(c, ss, acts, i);
    var pc := ss[i].workers[w];
    assert Next(c, ss[i], acts[i]) == Some(ss[i + 1]) && Knows(c, ss[i].db, pc);
    UpdateLands(ss[i].db, pc.driver, pc.loaded, pc.asked);
  }

  /** An update of an unknown driver is answered so, one to where the driver is returns at once, and any other
      goes on with the row as loaded. */
  lemma UpdateStarts(c: Config, g: State, w: WorkerId, ch: Choice, e: Effect)
    requires Worked(c, g, w, ch, e) && g.workers[w].LGet?
    ensures var d, asked := g.workers[w].driver, g.workers[w].asked;
      && e.db == g.db
      && (d !in g.db.drivers <==> e.pc == Done(NotFound))
      && (d in g.db.drivers ==>
            e.pc == if g.db.drivers[d].place == asked then Done(Located(d))
                    else LFlush(d, g.db.drivers[d].place, asked))
  {}

  lemma TrackedAtFirst(c: Config, g: State)
    requires Init(g)
    ensures Tracked(c, g)
  {}

  lemma InvAtFirst(c: Config, g: State)
    requires Init(g)
    ensures Inv(c, g)
  {}

  // A run in which two updates overlap.

  /** Cell 1 and zone 1 east of the origin on the equator, cell 0 and zone 0 elsewhere. */
  function East(lat: real, lng: real): nat { if lat > 0.0 && lng == 0.0 then 1 else 0 }

  const GRID := Config((x: Cell, k: nat) => {x}, East, East, (a: real, b: real, x: real, y: real) => 0.0, 5, 3, 5000)

  const ANY := Choice(0, 1.0, 0, true, [], Honest, false)
  const ORIGIN := Place(0.0, 0.0, 0, 0)
  const ONE := Place(1.0, 0.0, 1, 1)
  const TWO := Place(0.0, 5.0, 0, 0)

  ghost predicate TidilyReachable(g: State) {
    exists ss, acts :: TidyRun(GRID, ss, acts) && ss[|acts|] == g
  }

  lemma TidyNext(g: State, a: Action, g': State)
    requires TidilyReachable(g) && Next(GRID, g, a) == Some(g') && Tidy(GRID, a)
    ensures TidilyReachable(g')
  {
    hide Next, Init;
    var ss, acts :| TidyRun(GRID, ss, acts) && ss[|acts|] == g;
    assert TidyRun(GRID, ss + [g'], acts + [a]);
    assert (ss + [g'])[|acts + [a]|] == g';
  }

  lemma TidyWork(g: State, w: WorkerId, e: Effect) returns (g': State)
    requires TidilyReachable(g) && Worked(GRID, g, w, ANY, e)
    ensures TidilyReachable(g') && g' == After(g, w, e)
  {
    g' := After(g, w, e);
    TidyNext(g, Work(w, ANY), g');
  }

  /** Driver 1 at the origin and two updates that have loaded that row. */
  lemma BothLoad() returns (g: State)
    ensures TidilyReachable(g) && g.db == Db(map[], map[1 := Driver(Available, ORIGIN)])
    ensures g.workers == map[1 := LFlush(1, ORIGIN, ONE), 2 := LFlush(1, ORIGIN, TWO)]
  {
    hide TidilyReachable, CreateStep, MatchStep, EndStep;
    g := AtOrigin();
    TidyNext(g, Arrive(1, LGet(1, ONE)), g.(workers := g.workers[1 := LGet(1, ONE)]));
    g := g.(workers := g.workers[1 := LGet(1, ONE)]);
    TidyNext(g, Arrive(2, LGet(1, TWO)), g.(workers := g.workers[2 := LGet(1, TWO)]));
    g := g.(workers := g.workers[2 := LGet(1, TWO)]);
    g := TidyWork(g, 1, Go(g, LFlush(1, ORIGIN, ONE)));
    g := TidyWork(g, 2, Go(g, LFlush(1, ORIGIN, TWO)));
  }

  lemma AtOrigin() returns (g: State)
    ensures TidilyReachable(g) && g.workers == map[] && g.db == Db(map[], map[1 := Driver(Available, ORIGIN)])
  {
    var g0 := State(Db(map[], map[]), map[], 0, 0, map[], []);
    assert TidyRun(GRID, [g0], []);
    g := g0.(db := Register(g0.db, 1, ORIGIN));
    TidyNext(g0, NewDriver(1, ORIGIN), g);
  }

  lemma Lands(g: State, w: WorkerId, asked: Place) returns (g': State)
    requires TidilyReachable(g) && w in g.workers && g.workers[w] == LFlush(1, ORIGIN, asked) && !DriverRowHeld(g, w, 1)
    requires 1 in g.db.drivers
    ensures TidilyReachable(g') && g'.db == Move(g.db, 1, ORIGIN, asked)
    ensures g'.workers == g.workers[w := Done(Located(1))]
  {
    hide TidilyReachable, CreateStep, MatchStep, EndStep;
    g' := TidyWork(g, w, Go(g, LCommit(1, ORIGIN, asked)));
    g' := TidyWork(g', w, Effect(Done(Located(1)), Move(g'.db, 1, ORIGIN, asked), g'.locks, []));
  }

  /** "Cell and zone are those of the coordinates" is false: drivers are registered and locations asked for
      in step, both updates return, and neither the cell nor the zone of the driver is right. */
  lemma OverlapLeavesOutOfStep() returns (g: State)
    ensures TidilyReachable(g) && g.workers == map[1 := Done(Located(1)), 2 := Done(Located(1))]
    ensures 1 in g.db.drivers && var p := g.db.drivers[1].place;
      p.cell != GRID.cellAt(p.lat, p.lng) && p.zone != GRID.zoneAt(p.lat, p.lng)
  {
    hide TidilyReachable;
    g := BothLoad();
    g := Lands(g, 1, ONE);
    g := Lands(g, 2, TWO);
    assert g.db.drivers[1].place == Place(1.0, 5.0, 1, 1);
  }
}
