/** The inductive invariant of the protocol. Nothing in it mentions the lock table: it is kept by
    every step, whatever the lock grants, whenever leases expire and whichever workers crash. */
module Safety {
  import opened Domain
  import opened Protocol

  /** What a worker's program counter knows about the committed tables. */
  ghost predicate PcInv(c: Config, db: Db, pc: Pc) {
    match pc
    case CCommit(r, row) =>
      && r !in db.rides && row.status == Requested && row.driver.None?
      && (row.key.Some? ==> !KeyUsed(db, row.key.value))
    case CEmit(r, row) => r in db.rides && db.rides[r].key == row.key && db.rides[r].request == row.request
    case MCheck(r) => r in db.rides
    case MSearch(r, k, found) => r in db.rides && k <= c.maxRing && found.Keys <= db.drivers.Keys
    case MLoop(r, _) => r in db.rides
    case MRecheck(r, _, _, _) => r in db.rides
    case MUpdate(r, _, d, _) => r in db.rides && d in db.drivers
    case MSlot(r, _, d, _) => r in db.rides && db.rides[r].status == Requested && d in db.drivers
    case MFlush(r, _, d, _) => Claims(db, r, d)
    case MCommit(r, _, d, _) => Claims(db, r, d)
    case MEmit(r, _, d, _) => r in db.rides && db.rides[r].driver == Some(d)
    case MRelease(r, _, d, _, exit) =>
      r in db.rides && (exit.None? || exit.value == InvalidState(r) || exit.value == IntegrityEscaped
                        || (exit.value == Assigned(r, d) && db.rides[r].driver == Some(d)))
    case EUpdate(r, _) => r in db.rides
    case ERefresh(r, kind) => Ends(db, r, kind)
    case EDriver(r, kind, d) => Ends(db, r, kind) && db.rides[r].driver == Some(d)
    case EFlush(r, kind, d) => Ends(db, r, kind) && db.rides[r].driver == Some(d)
    case ECommit(r, kind, freed) => Ends(db, r, kind) && db.rides[r].driver == freed
    case EEmit(r, kind) => r in db.rides && db.rides[r].status == EndStatus(kind)
    case LFlush(d, _, _) => d in db.drivers
    case LCommit(d, _, _) => d in db.drivers
    case _ => true
  }

  /** The uncommitted match of r to d would be admitted by the index. */
  ghost predicate Claims(db: Db, r: RideId, d: DriverId) {
    r in db.rides && db.rides[r].status == Requested && d in db.drivers && !SlotTaken(db, r, d)
  }

  predicate Ends(db: Db, r: RideId, kind: Ending) {
    r in db.rides && EndsFrom(kind, db.rides[r].status)
  }

  predicate Clash<T(==)>(a: Option<T>, b: Option<T>) { a.Some? && a == b }

  /** Two transactions hold nothing in common. */
  predicate Compatible(db: Db, p: Pc, q: Pc) {
    && !Clash(RideRow(p), RideRow(q))
    && !Clash(Slot(db, p), Slot(db, q))
    && !Clash(DriverRow(p), DriverRow(q))
    && !Clash(KeySlot(p), KeySlot(q))
    && !(p.CCommit? && q.CCommit? && p.ride == q.ride)
  }

  ghost predicate Inv(c: Config, g: State) {
    && Agreement(g.db)
    && OneRidePerKey(g.db)
    && (forall w :: w in g.workers ==> PcInv(c, g.db, g.workers[w]))
    && (forall v, w :: v in g.workers && w in g.workers && v != w ==>
          Compatible(g.db, g.workers[v], g.workers[w]))
  }

  ghost predicate Worked(c: Config, g: State, w: WorkerId, ch: Choice, e: Effect) {
    w in g.workers && Local(c, g, w, ch) == Some(e)
  }

  // The stepping worker knows at its next statement what that statement relies on.

  lemma CreatorKnows(c: Config, g: State, w: WorkerId, ch: Choice, e: Effect)
    requires w in g.workers && PcInv(c, g.db, g.workers[w]) && CreateStep(c, g, w, ch) == Some(e)
    ensures PcInv(c, e.db, e.pc)
  {}

  lemma SearcherKnows(c: Config, g: State, w: WorkerId, ch: Choice, e: Effect)
    requires w in g.workers && PcInv(c, g.db, g.workers[w]) && MatchStep(c, g, w, ch) == Some(e)
    requires g.workers[w].MSearch?
    ensures PcInv(c, e.db, e.pc)
  {}

  lemma MatcherKnows(c: Config, g: State, w: WorkerId, ch: Choice, e: Effect)
    requires w in g.workers && PcInv(c, g.db, g.workers[w]) && MatchStep(c, g, w, ch) == Some(e)
    ensures PcInv(c, e.db, e.pc)
  {
    hide Discover, RideRowHeld, SlotHeld, DriverRowHeld, OneActiveRidePerDriver;
    if g.workers[w].MSearch? { SearcherKnows(c, g, w, ch, e); }
  }

  lemma EnderKnows(c: Config, g: State, w: WorkerId, ch: Choice, e: Effect)
    requires w in g.workers && PcInv(c, g.db, g.workers[w]) && EndStep(c, g, w, ch) == Some(e)
    requires forall r, d :: Names(g.db, r, d) ==> d in g.db.drivers && g.db.drivers[d].status == Busy
    ensures PcInv(c, e.db, e.pc)
  {
    var pc := g.workers[w];
    if pc.EDriver? { assert Names(g.db, pc.ride, pc.driver); }
  }

  lemma LocatorKnows(c: Config, g: State, w: WorkerId, ch: Choice, e: Effect)
    requires w in g.workers && PcInv(c, g.db, g.workers[w]) && LocateStep(c, g, w, ch) == Some(e)
    ensures PcInv(c, e.db, e.pc)
  {}

  lemma WorkerKnows(c: Config, g: State, w: WorkerId, ch: Choice, e: Effect)
    requires w in g.workers && PcInv(c, g.db, g.workers[w]) && Worked(c, g, w, ch, e) && Agreement(g.db)
    ensures PcInv(c, e.db, e.pc)
  {
    if Creating(g.workers[w]) { CreatorKnows(c, g, w, ch, e); }
    else if Matching(g.workers[w]) { MatcherKnows(c, g, w, ch, e); }
    else if EndingRide(g.workers[w]) { EnderKnows(c, g, w, ch, e); }
    else { LocatorKnows(c, g, w, ch, e); }
  }

  // A commit leaves what the other workers know, and the index entries they hold, alone.

  lemma InsertLeavesAlone(c: Config, db: Db, r: RideId, row: Ride, pc: Pc)
    requires PcInv(c, db, pc) && r !in db.rides && row.driver.None?
    requires !(pc.CCommit? && pc.ride == r) && !Clash(row.key, KeySlot(pc))
    ensures PcInv(c, Insert(db, r, row), pc) && Slot(Insert(db, r, row), pc) == Slot(db, pc)
  {
    forall o, d ensures Names(Insert(db, r, row), o, d) <==> Names(db, o, d) {}
  }

  lemma AssignLeavesAlone(c: Config, db: Db, r: RideId, d: DriverId, pc: Pc)
    requires PcInv(c, db, pc) && Claims(db, r, d) && db.rides[r].driver.None?
    requires RideRow(pc) != Some(r) && Slot(db, pc) != Some(d)
    ensures PcInv(c, Assign(db, r, d), pc) && Slot(Assign(db, r, d), pc) == Slot(db, pc)
  {
    forall o, x | Names(Assign(db, r, d), o, x) && o != r ensures Names(db, o, x) {}
  }

  lemma EndLeavesAlone(c: Config, db: Db, r: RideId, kind: Ending, freed: Option<DriverId>, pc: Pc)
    requires PcInv(c, db, pc) && Ends(db, r, kind) && (freed.Some? ==> freed.value in db.drivers)
    requires RideRow(pc) != Some(r)
    ensures PcInv(c, End(db, r, kind, freed), pc) && Slot(End(db, r, kind, freed), pc) == Slot(db, pc)
  {
    forall o, x | Names(End(db, r, kind, freed), o, x) ensures Names(db, o, x) {}
  }

  lemma PlaceLeavesAlone(c: Config, db: Db, db': Db, pc: Pc)
    requires PcInv(c, db, pc) && db'.rides == db.rides && db.drivers.Keys <= db'.drivers.Keys
    ensures PcInv(c, db', pc) && Slot(db', pc) == Slot(db, pc)
  {
    forall o, x ensures Names(db', o, x) <==> Names(db, o, x) {}
  }

  /** The four statements that commit something, with what they commit. */
  lemma CommitForms(c: Config, g: State, w: WorkerId, ch: Choice, e: Effect)
    requires w in g.workers && PcInv(c, g.db, g.workers[w]) && Worked(c, g, w, ch, e)
    ensures var pc := g.workers[w];
      || (e.db == g.db && !pc.CCommit? && !pc.ECommit?)
      || (pc.CCommit? && e.db == Insert(g.db, pc.ride, pc.row) && e.pc == CEmit(pc.ride, pc.row))
      || (pc.MCommit? && e.db == Assign(g.db, pc.ride, pc.driver)
          && e.pc == MEmit(pc.ride, pc.rest, pc.driver, pc.token))
      || (pc.ECommit? && (pc.freed.Some? ==> pc.freed.value in g.db.drivers)
          && e.db == End(g.db, pc.ride, pc.kind, pc.freed) && e.pc == EEmit(pc.ride, pc.kind))
      || (pc.LCommit? && e.db == Move(g.db, pc.driver, pc.loaded, pc.asked) && e.pc == Done(Located(pc.driver)))
  {}

  lemma OthersUndisturbed(c: Config, g: State, w: WorkerId, ch: Choice, e: Effect, v: WorkerId)
    requires w in g.workers && v in g.workers && Worked(c, g, w, ch, e)
    requires PcInv(c, g.db, g.workers[w]) && PcInv(c, g.db, g.workers[v]) && Agreement(g.db)
    requires Compatible(g.db, g.workers[w], g.workers[v])
    ensures PcInv(c, e.db, g.workers[v]) && Slot(e.db, g.workers[v]) == Slot(g.db, g.workers[v])
  {
    hide Local;
    var pc, other := g.workers[w], g.workers[v];
    CommitForms(c, g, w, ch, e);
    if e.db != g.db {
      if pc.CCommit? { InsertLeavesAlone(c, g.db, pc.ride, pc.row, other); }
      else if pc.MCommit? { AssignLeavesAlone(c, g.db, pc.ride, pc.driver, other); }
      else if pc.ECommit? { EndLeavesAlone(c, g.db, pc.ride, pc.kind, pc.freed, other); }
      else { PlaceLeavesAlone(c, g.db, e.db, other); }
    }
  }

  lemma InsertKeepsKeysUnique(db: Db, r: RideId, row: Ride)
    requires OneRidePerKey(db) && r !in db.rides && (row.key.Some? ==> !KeyUsed(db, row.key.value))
    ensures OneRidePerKey(Insert(db, r, row))
  {}

  /** Every commit keeps the tables in agreement and the keys unique. */
  lemma TablesKept(c: Config, g: State, w: WorkerId, ch: Choice, e: Effect)
    requires w in g.workers && PcInv(c, g.db, g.workers[w]) && Worked(c, g, w, ch, e)
    requires Agreement(g.db) && OneRidePerKey(g.db)
    ensures Agreement(e.db) && OneRidePerKey(e.db)
  {
    hide Local;
    var pc := g.workers[w];
    CommitForms(c, g, w, ch, e);
    if e.db != g.db {
      if pc.CCommit? { InsertAgrees(g.db, pc.ride, pc.row); InsertKeepsKeysUnique(g.db, pc.ride, pc.row); }
      else if pc.MCommit? { AssignAgrees(g.db, pc.ride, pc.driver); }
      else if pc.ECommit? { EndAgrees(g.db, pc.ride, pc.kind); }
      else { PlaceAgrees(g.db, e.db); }
    }
  }

  // A row, index entry or key is taken only when no other transaction holds it.

  ghost predicate TakesFree(g: State, w: WorkerId, e: Effect)
    requires w in g.workers
  {
    var pc := g.workers[w];
    && (RideRow(e.pc).Some? ==> RideRow(e.pc) == RideRow(pc) || !RideRowHeld(g, w, RideRow(e.pc).value))
    && (Slot(e.db, e.pc).Some? ==> Slot(e.db, e.pc) == Slot(g.db, pc) || !SlotHeld(g, w, Slot(e.db, e.pc).value))
    && (DriverRow(e.pc).Some? ==> DriverRow(e.pc) == DriverRow(pc) || !DriverRowHeld(g, w, DriverRow(e.pc).value))
    && (KeySlot(e.pc).Some? ==> !KeySlotHeld(g, w, KeySlot(e.pc)))
    && (e.pc.CCommit? ==> !IdInUse(g, e.pc.ride))
  }

  lemma CreatorTakesFree(c: Config, g: State, w: WorkerId, ch: Choice, e: Effect)
    requires w in g.workers && CreateStep(c, g, w, ch) == Some(e)
    ensures TakesFree(g, w, e)
  {}

  lemma MatcherTakesFree(c: Config, g: State, w: WorkerId, ch: Choice, e: Effect)
    requires w in g.workers && MatchStep(c, g, w, ch) == Some(e)
    ensures TakesFree(g, w, e)
  {}

  lemma LocatorTakesFree(c: Config, g: State, w: WorkerId, ch: Choice, e: Effect)
    requires w in g.workers && LocateStep(c, g, w, ch) == Some(e)
    ensures TakesFree(g, w, e)
  {}

  /** Whoever locks an active ride's row finds its driver's index entry free as well. */
  lemma RowGuardsSlot(c: Config, g: State, w: WorkerId, r: RideId, d: DriverId)
    requires Inv(c, g) && Names(g.db, r, d) && !RideRowHeld(g, w, r)
    ensures !SlotHeld(g, w, d)
  {
    if SlotHeld(g, w, d) {
      var v :| v in g.workers && v != w && Slot(g.db, g.workers[v]) == Some(d);
      var pc := g.workers[v];
      assert PcInv(c, g.db, pc);
      if pc.MFlush? || pc.MCommit? { assert SlotTaken(g.db, pc.ride, d); }
      else { assert Names(g.db, pc.ride, d); }
    }
  }

  lemma EnderTakesFree(c: Config, g: State, w: WorkerId, ch: Choice, e: Effect)
    requires Inv(c, g) && w in g.workers && EndStep(c, g, w, ch) == Some(e)
    ensures TakesFree(g, w, e)
  {
    var pc := g.workers[w];
    if e.pc.ERefresh? && g.db.rides[pc.ride].driver.Some? && Active(g.db.rides[pc.ride].status) {
      RowGuardsSlot(c, g, w, pc.ride, g.db.rides[pc.ride].driver.value);
    }
  }

  lemma WorkerTakesFree(c: Config, g: State, w: WorkerId, ch: Choice, e: Effect)
    requires Inv(c, g) && Worked(c, g, w, ch, e)
    ensures TakesFree(g, w, e)
  {
    if Creating(g.workers[w]) { CreatorTakesFree(c, g, w, ch, e); }
    else if Matching(g.workers[w]) { MatcherTakesFree(c, g, w, ch, e); }
    else if EndingRide(g.workers[w]) { EnderTakesFree(c, g, w, ch, e); }
    else { LocatorTakesFree(c, g, w, ch, e); }
  }

  lemma NothingShared(g: State, w: WorkerId, e: Effect, v: WorkerId)
    requires w in g.workers && v in g.workers && v != w && TakesFree(g, w, e)
    requires Compatible(g.db, g.workers[w], g.workers[v])
    requires Slot(e.db, g.workers[v]) == Slot(g.db, g.workers[v])
    ensures Compatible(e.db, e.pc, g.workers[v])
  {}

  lemma CompatibleSymmetric(db: Db, p: Pc, q: Pc)
    requires Compatible(db, p, q)
    ensures Compatible(db, q, p)
  {}

  lemma CompatibleFrame(db: Db, db': Db, p: Pc, q: Pc)
    requires Compatible(db, p, q) && Slot(db', p) == Slot(db, p) && Slot(db', q) == Slot(db, q)
    ensures Compatible(db', p, q)
  {}

  lemma WorkKeepsInv(c: Config, g: State, w: WorkerId, ch: Choice, e: Effect)
    requires Inv(c, g) && Worked(c, g, w, ch, e)
    ensures Inv(c, After(g, w, e))
  {
    hide Local, PcInv, Compatible, TakesFree, Agreement, OneRidePerKey, Slot;
    WorkerKnows(c, g, w, ch, e);
    TablesKept(c, g, w, ch, e);
    WorkerTakesFree(c, g, w, ch, e);
    var g' := After(g, w, e);
    forall v | v in g.workers && v != w
      ensures PcInv(c, e.db, g.workers[v]) && Slot(e.db, g.workers[v]) == Slot(g.db, g.workers[v])
    {
      OthersUndisturbed(c, g, w, ch, e, v);
    }
    forall u, v | u in g'.workers && v in g'.workers && u != v
      ensures Compatible(g'.db, g'.workers[u], g'.workers[v])
    {
      if u == w { NothingShared(g, w, e, v); }
      else if v == w { NothingShared(g, w, e, u); CompatibleSymmetric(e.db, e.pc, g.workers[u]); }
      else { CompatibleFrame(g.db, e.db, g.workers[u], g.workers[v]); }
    }
  }

  lemma NewDriverKeepsInv(c: Config, g: State, d: DriverId, place: Place)
    requires Inv(c, g) && d !in g.db.drivers
    ensures Inv(c, g.(db := Register(g.db, d, place)))
  {
    var db' := Register(g.db, d, place);
    PlaceAgrees(g.db, db');
    forall w | w in g.workers
      ensures PcInv(c, db', g.workers[w]) && Slot(db', g.workers[w]) == Slot(g.db, g.workers[w])
    {
      PlaceLeavesAlone(c, g.db, db', g.workers[w]);
    }
    forall v, w | v in g.workers && w in g.workers && v != w
      ensures Compatible(db', g.workers[v], g.workers[w])
    {
      CompatibleFrame(g.db, db', g.workers[v], g.workers[w]);
    }
  }

  /** A worker that holds nothing and knows nothing special may appear or replace another. */
  lemma IdleKeepsInv(c: Config, g: State, w: WorkerId, pc: Pc)
    requires Inv(c, g) && (pc.Crashed? || IsCall(g.db, pc))
    ensures Inv(c, g.(workers := g.workers[w := pc]))
  {
    hide Agreement, OneRidePerKey, PcInv, Compatible, IsCall;
    IdleKnows(c, g.db, pc);
    forall v | v in g.workers ensures Compatible(g.db, pc, g.workers[v]) && Compatible(g.db, g.workers[v], pc) {
      IdleSharesNothing(g.db, pc, g.workers[v]);
    }
  }

  lemma IdleKnows(c: Config, db: Db, pc: Pc)
    requires pc.Crashed? || IsCall(db, pc)
    ensures PcInv(c, db, pc)
  {}

  lemma IdleSharesNothing(db: Db, pc: Pc, other: Pc)
    requires pc.Crashed? || IsCall(db, pc)
    ensures Compatible(db, pc, other) && Compatible(db, other, pc)
  {
    hide RideRow, Slot, DriverRow, KeySlot, IsCall, Clash;
    IdleHoldsNothing(db, pc);
    NothingClashes(RideRow(other));
    NothingClashes(Slot(db, other));
    NothingClashes(DriverRow(other));
    NothingClashes(KeySlot(other));
  }

  lemma NothingClashes<T>(x: Option<T>)
    ensures !Clash(None, x) && !Clash(x, None)
  {}

  lemma IdleHoldsNothing(db: Db, pc: Pc)
    requires pc.Crashed? || IsCall(db, pc)
    ensures RideRow(pc).None? && Slot(db, pc).None? && DriverRow(pc).None? && KeySlot(pc).None? && !pc.CCommit?
  {}

  lemma InvKnows(c: Config, g: State, w: WorkerId)
    requires Inv(c, g) && w in g.workers
    ensures PcInv(c, g.db, g.workers[w])
  {}

  /** Every step of every kind keeps the invariant. */
  lemma StepKeepsInv(c: Config, g: State, a: Action, g': State)
    requires Inv(c, g) && Next(c, g, a) == Some(g')
    ensures Inv(c, g')
  {
    match a
    case Work(w, ch) =>
      var e := Local(c, g, w, ch).value;
      WorkKeepsInv(c, g, w, ch, e);
    case NewDriver(d, place) => NewDriverKeepsInv(c, g, d, place);
    case Crash(w) => IdleKeepsInv(c, g, w, Crashed);
    case Tick(dt) =>
    case Arrive(w, call) => IdleKeepsInv(c, g, w, call);
  }

  lemma {:induction false} RunKeepsInv(c: Config, ss: seq<State>, acts: seq<Action>, i: nat)
    requires Run(c, ss, acts) && Inv(c, ss[0]) && i < |ss|
    ensures Inv(c, ss[i])
  {
    if i > 0 {
      RunKeepsInv(c, ss, acts, i - 1);
      StepKeepsInv(c, ss[i - 1], acts[i - 1], ss[i]);
    }
  }

  /** Reachability is closed under steps. */
  lemma ReachesNext(c: Config, g: State, a: Action, g': State)
    requires Reachable(c, g) && Next(c, g, a) == Some(g')
    ensures Reachable(c, g')
  {
    var ss, acts :| Run(c, ss, acts) && Init(ss[0]) && ss[|acts|] == g;
    assert Run(c, ss + [g'], acts + [a]);
    assert (ss + [g'])[|acts + [a]|] == g';
  }

  lemma ReachesWork(c: Config, g: State, w: WorkerId, ch: Choice, e: Effect)
    requires Reachable(c, g) && Worked(c, g, w, ch, e)
    ensures Reachable(c, After(g, w, e))
  {
    ReachesNext(c, g, Work(w, ch), After(g, w, e));
  }

  lemma ReachesArrival(c: Config, g: State, w: WorkerId, call: Pc)
    requires Reachable(c, g) && w !in g.workers && IsCall(g.db, call)
    ensures Reachable(c, g.(workers := g.workers[w := call]))
  {
    ReachesNext(c, g, Arrive(w, call), g.(workers := g.workers[w := call]));
  }

  lemma ReachesInit(c: Config, g: State)
    requires Init(g)
    ensures Reachable(c, g)
  {
    assert Run(c, [g], []);
  }

  lemma ReachableInv(c: Config, g: State)
    requires Reachable(c, g)
    ensures Inv(c, g)
  {
    var ss, acts :| Run(c, ss, acts) && Init(ss[0]) && ss[|acts|] == g;
    RunKeepsInv(c, ss, acts, |acts|);
  }

  // What a transaction may rely on until it ends.

  /** The row that the transaction has locked is as it was, and nobody else has taken the driver whose index
      entry it is claiming. */
  ghost predicate HoldsRespected(pc: Pc, db: Db, db': Db) {
    && (forall r: RideId :: RideRow(pc) == Some(r) && r in db.rides ==> r in db'.rides && db'.rides[r] == db.rides[r])
    && (pc.MFlush? || pc.MCommit? ==> forall o: RideId :: Names(db', o, pc.driver) ==> Names(db, o, pc.driver))
  }

  lemma WorkRespectsHolds(c: Config, g: State, w: WorkerId, ch: Choice, e: Effect, v: WorkerId)
    requires w in g.workers && v in g.workers && Worked(c, g, w, ch, e) && PcInv(c, g.db, g.workers[w])
    requires Compatible(g.db, g.workers[w], g.workers[v])
    ensures HoldsRespected(g.workers[v], g.db, e.db)
    ensures g.db.rides.Keys <= e.db.rides.Keys && g.db.drivers.Keys <= e.db.drivers.Keys
  {
    hide Local;
    CommitForms(c, g, w, ch, e);
  }

  /** While a transaction is open no step of anyone else touches the ride row it has locked or takes the
      driver it is claiming, and every step keeps the tables in agreement and deletes nothing. This is
      what the sequential methods assume of the other clients. */
  lemma OthersRespectHolds(c: Config, g: State, a: Action, g': State, v: WorkerId)
    requires Inv(c, g) && Next(c, g, a) == Some(g') && v in g.workers && (a.Work? ==> a.worker != v)
    ensures HoldsRespected(g.workers[v], g.db, g'.db)
    ensures Agreement(g'.db) && OneRidePerKey(g'.db)
    ensures g.db.rides.Keys <= g'.db.rides.Keys && g.db.drivers.Keys <= g'.db.drivers.Keys
  {
    hide Local, Agreement, OneRidePerKey, PcInv, Compatible, HoldsRespected;
    StepKeepsInv(c, g, a, g');
    if a.Work? { WorkRespectsHolds(c, g, a.worker, a.choice, Local(c, g, a.worker, a.choice).value, v); }
    else { SameRidesRespectHolds(g.workers[v], g.db, g'.db); }
  }

  lemma SameRidesRespectHolds(pc: Pc, db: Db, db': Db)
    requires db'.rides == db.rides
    ensures HoldsRespected(pc, db, db')
  {}

  // The main claims.

  /** A driver is BUSY exactly when one active ride names it, and AVAILABLE exactly when none does. */
  lemma DriversMatchRides(c: Config, g: State, d: DriverId)
    requires Reachable(c, g) && d in g.db.drivers
    ensures g.db.drivers[d].status == Busy <==> exists r :: Names(g.db, r, d)
    ensures g.db.drivers[d].status == Available <==> !exists r :: Names(g.db, r, d)
    ensures forall r :: Names(g.db, r, d) <==>
      r in g.db.rides && g.db.rides[r].driver == Some(d) && g.db.rides[r].status !in {Completed, Cancelled}
    ensures forall r, o :: Names(g.db, r, d) && Names(g.db, o, d) ==> r == o
  {
    ReachableInv(c, g);
  }

  /** The `except IntegrityError` around the matcher's commit is never taken: the index was already
      checked by the UPDATE, and the driver write it adds cannot violate it. */
  lemma CommitNeverRejected(c: Config, g: State, w: WorkerId)
    requires Reachable(c, g) && w in g.workers && g.workers[w].MCommit?
    ensures var pc := g.workers[w];
      && pc.ride in g.db.rides && pc.driver in g.db.drivers
      && OneActiveRidePerDriver(Assign(g.db, pc.ride, pc.driver))
  {
    ReachableInv(c, g);
    assert PcInv(c, g.db, g.workers[w]);
    AssignAgrees(g.db, g.workers[w].ride, g.workers[w].driver);
  }

  /** Cancelling or completing always finds the assigned driver BUSY, so the write that frees it
      is really sent. */
  lemma EndingFindsDriverBusy(c: Config, g: State, w: WorkerId)
    requires Reachable(c, g) && w in g.workers && g.workers[w].EDriver?
    ensures g.workers[w].driver in g.db.drivers && g.db.drivers[g.workers[w].driver].status == Busy
  {
    ReachableInv(c, g);
    assert PcInv(c, g.db, g.workers[w]);
    assert Names(g.db, g.workers[w].ride, g.workers[w].driver);
  }
}
