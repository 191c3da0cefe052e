/** The assignment protocol: any number of request workers running `request_ride`, `match_ride`,
    `cancel_ride`, `complete_ride` and driver location updates against one PostgreSQL database at
    READ COMMITTED and one Redis lock table, interleaved statement by statement.

    A worker's program counter carries its locals and its open transaction, so the row locks and
    index slots a transaction holds are functions of it. A statement that would have to wait for
    another transaction is disabled (`None`) and is evaluated against the newest rows once enabled. */
module Protocol {
  import opened Domain
  import opened Leases
  import opened Geo
  import Ranking

  type WorkerId = nat

  datatype Outcome =
    | Assigned(ride: RideId, driver: DriverId)      // match_ride returned
    | NoDriver(ride: RideId)                        // NoAvailableDriverError
    | NotRequested(ride: RideId)                    // nothing left to match
    | InvalidState(ride: RideId)                    // InvalidRideStateError
    | LockingDown(ride: RideId)                     // LockingUnavailableError
    | IntegrityEscaped                              // an IntegrityError left the call
    | KeyConflict(key: Key, ride: RideId, request: Request)
    | Ended(ride: RideId, kind: Ending)             // cancel_ride or complete_ride returned
    | NotFound
    | Located(driver: DriverId)                     // location update returned

  /** C: create_ride, M: match_ride, E: cancel_ride and complete_ride, L: location update. */
  datatype Pc =
    | CLookup(request: Request, key: Option<Key>)
    | CInsert(request: Request, key: Option<Key>)
    | CCommit(ride: RideId, row: Ride)
    | CEmit(ride: RideId, row: Ride)
    | CReread(request: Request, key: Option<Key>)
    | MCheck(ride: RideId)
    | MSearch(ride: RideId, k: nat, found: map<DriverId, Place>)
    | MLoop(ride: RideId, rest: seq<DriverId>)
    | MRecheck(ride: RideId, rest: seq<DriverId>, driver: DriverId, token: Token)
    | MUpdate(ride: RideId, rest: seq<DriverId>, driver: DriverId, token: Token)
    | MSlot(ride: RideId, rest: seq<DriverId>, driver: DriverId, token: Token)
    | MFlush(ride: RideId, rest: seq<DriverId>, driver: DriverId, token: Token)
    | MCommit(ride: RideId, rest: seq<DriverId>, driver: DriverId, token: Token)
    | MEmit(ride: RideId, rest: seq<DriverId>, driver: DriverId, token: Token)
    | MRelease(ride: RideId, rest: seq<DriverId>, driver: DriverId, token: Token, exit: Option<Outcome>)
    | EGet(ride: RideId, kind: Ending)
    | EUpdate(ride: RideId, kind: Ending)
    | ERefresh(ride: RideId, kind: Ending)
    | EDriver(ride: RideId, kind: Ending, driver: DriverId)
    | EFlush(ride: RideId, kind: Ending, driver: DriverId)
    | ECommit(ride: RideId, kind: Ending, freed: Option<DriverId>)
    | EEmit(ride: RideId, kind: Ending)
    | LGet(driver: DriverId, asked: Place)
    | LFlush(driver: DriverId, loaded: Place, asked: Place)
    | LCommit(driver: DriverId, loaded: Place, asked: Place)
    | Done(outcome: Outcome)
    | Crashed

  /** The event log and the record of what calls returned and which leases they took. */
  datatype Entry =
    | RideRequested(ride: RideId)
    | DriverAssigned(ride: RideId, driver: DriverId)
    | RideEnded(ride: RideId, kind: Ending)
    | KeyReturned(worker: WorkerId, key: Key, ride: RideId, request: Request, sawRow: bool)
    | LeaseTaken(worker: WorkerId, driver: DriverId, token: Token)
    | LeaseReturned(worker: WorkerId, driver: DriverId, token: Token)

  datatype State = State(db: Db, locks: Table<DriverId>, clock: int, minted: Token,
                         workers: map<WorkerId, Pc>, log: seq<Entry>)

  // What a worker's open transaction holds.

  function RideRow(pc: Pc): Option<RideId> {
    match pc
    case MSlot(r, _, _, _) => Some(r)
    case MFlush(r, _, _, _) => Some(r)
    case MCommit(r, _, _, _) => Some(r)
    case ERefresh(r, _) => Some(r)
    case EDriver(r, _, _) => Some(r)
    case EFlush(r, _, _) => Some(r)
    case ECommit(r, _, _) => Some(r)
    case _ => None
  }

  /** The entry of the partial unique index that the transaction is inserting or retiring. */
  function Slot(db: Db, pc: Pc): Option<DriverId> {
    match pc
    case MFlush(_, _, d, _) => Some(d)
    case MCommit(_, _, d, _) => Some(d)
    case ERefresh(r, _) => if r in db.rides then db.rides[r].driver else None
    case EDriver(r, _, _) => if r in db.rides then db.rides[r].driver else None
    case EFlush(r, _, _) => if r in db.rides then db.rides[r].driver else None
    case ECommit(r, _, _) => if r in db.rides then db.rides[r].driver else None
    case _ => None
  }

  function DriverRow(pc: Pc): Option<DriverId> {
    match pc
    case MCommit(_, _, d, _) => Some(d)
    case ECommit(_, _, freed) => freed
    case LCommit(d, _, _) => Some(d)
    case _ => None
  }

  function KeySlot(pc: Pc): Option<Key> {
    if pc.CCommit? then pc.row.key else None
  }

  ghost predicate RideRowHeld(g: State, w: WorkerId, r: RideId) {
    exists v :: v in g.workers && v != w && RideRow(g.workers[v]) == Some(r)
  }

  ghost predicate SlotHeld(g: State, w: WorkerId, d: DriverId) {
    exists v :: v in g.workers && v != w && Slot(g.db, g.workers[v]) == Some(d)
  }

  ghost predicate DriverRowHeld(g: State, w: WorkerId, d: DriverId) {
    exists v :: v in g.workers && v != w && DriverRow(g.workers[v]) == Some(d)
  }

  ghost predicate KeySlotHeld(g: State, w: WorkerId, key: Option<Key>) {
    exists v :: v in g.workers && v != w && key.Some? && KeySlot(g.workers[v]) == key
  }

  /** Another open insert uses this id; never the case for fresh UUIDs. */
  ghost predicate IdInUse(g: State, r: RideId) {
    r in g.db.rides || exists v :: v in g.workers && g.workers[v].CCommit? && g.workers[v].ride == r
  }

  // Scheduling choices: everything the environment decides about one statement.

  datatype Acquisition = Honest | Down | RogueGrant | RogueDeny

  datatype Choice = Choice(newRide: RideId, quote: real, at: int, riderKnown: bool,
                           order: seq<DriverId>, acq: Acquisition, stale: bool)

  datatype Action =
    | Work(worker: WorkerId, choice: Choice)
    | Crash(worker: WorkerId)
    | Tick(elapsed: nat)
    | Arrive(worker: WorkerId, call: Pc)
    | NewDriver(driver: DriverId, place: Place)

  /** One statement of one worker: its next program counter, the tables and leases after it, and
      what it adds to the log. */
  datatype Effect = Effect(pc: Pc, db: Db, locks: Table<DriverId>, said: seq<Entry>)

  function Go(g: State, pc: Pc): Effect { Effect(pc, g.db, g.locks, []) }

  predicate Matches(row: Ride, req: Request) { row.request == req }

  /** `get_by_idempotency_key`. */
  ghost function RideWithKey(db: Db, key: Key): Option<RideId> {
    if r :| r in db.rides && db.rides[r].key == Some(key) then Some(r) else None
  }

  ghost function CreateStep(c: Config, g: State, w: WorkerId, ch: Choice): Option<Effect>
    requires w in g.workers
  {
    match g.workers[w]
    case CLookup(req, key) =>
      var hit := if key.None? then None else RideWithKey(g.db, key.value);
      if hit.None? then Some(Go(g, CInsert(req, key)))
      else if !Matches(g.db.rides[hit.value], req) then
        Some(Go(g, Done(KeyConflict(key.value, hit.value, req))))
      else
        Some(Effect(MCheck(hit.value), g.db, g.locks, [KeyReturned(w, key.value, hit.value, req, true)]))
    case CInsert(req, key) =>
      if IdInUse(g, ch.newRide) || KeySlotHeld(g, w, key) then None
      else if (key.Some? && KeyUsed(g.db, key.value)) || !ch.riderKnown then
        Some(Go(g, CReread(req, key)))
      else
        Some(Go(g, CCommit(ch.newRide, Ride(req, Requested, None, key, Some(c.zoneAt(req.lat, req.lng)),
                                          ch.quote, ch.at))))
    case CCommit(r, row) => Some(Effect(CEmit(r, row), Insert(g.db, r, row), g.locks, []))
    case CEmit(r, row) =>
      Some(Effect(MCheck(r), g.db, g.locks,
                  [RideRequested(r)] +
                  if row.key.Some? then [KeyReturned(w, row.key.value, r, row.request, false)] else []))
    case CReread(req, key) =>
      var winner := if key.None? then None else RideWithKey(g.db, key.value);
      if winner.None? then Some(Go(g, Done(IntegrityEscaped)))
      else
        Some(Effect(MCheck(winner.value), g.db, g.locks,
                    [KeyReturned(w, key.value, winner.value, req, false)]))
    case _ => None
  }

  /** `list_available_in_cells` over ring k; a driver already loaded keeps its loaded place. */
  function Discover(c: Config, db: Db, req: Request, k: nat, found: map<DriverId, Place>): map<DriverId, Place> {
    var ring := Ring(c, c.cellAt(req.lat, req.lng), k);
    (map d | d in db.drivers && db.drivers[d].status == Available && db.drivers[d].place.cell in ring
       :: db.drivers[d].place) + found
  }

  ghost function MatchStep(c: Config, g: State, w: WorkerId, ch: Choice): Option<Effect>
    requires w in g.workers
  {
    match g.workers[w]
    case MCheck(r) =>
      // The status is the session's copy, which may be REQUESTED when the row no longer is.
      if r !in g.db.rides || (g.db.rides[r].status != Requested && !ch.stale) then Some(Go(g, Done(NotRequested(r))))
      else Some(Go(g, MSearch(r, 0, map[])))
    case MSearch(r, k, found) =>
      if r !in g.db.rides then None
      else
        var req := g.db.rides[r].request;
        var found' := Discover(c, g.db, req, k, found);
        if |found'| >= c.target || k >= c.maxRing then
          if Ranking.RankedOrder(c, req, found', ch.order) then Some(Go(g, MLoop(r, ch.order))) else None
        else Some(Go(g, MSearch(r, k + 1, found')))
    case MLoop(r, rest) =>
      if rest == [] then Some(Go(g, Done(NoDriver(r))))
      else
        var d := rest[0];
        if ch.acq == Down then Some(Go(g, Done(LockingDown(r))))
        else if ch.acq == RogueDeny || (ch.acq == Honest && d in g.locks) then Some(Go(g, MLoop(r, rest[1..])))
        else
          Some(Effect(MRecheck(r, rest[1..], d, g.minted), g.db,
                      Grant(g.locks, d, g.minted, g.clock, c.ttl), [LeaseTaken(w, d, g.minted)]))
    case MRecheck(r, rest, d, tok) =>
      if d !in g.db.drivers || g.db.drivers[d].status != Available then
        Some(Go(g, MRelease(r, rest, d, tok, None)))
      else Some(Go(g, MUpdate(r, rest, d, tok)))      // BUSY is buffered only: autoflush is off
    case MUpdate(r, rest, d, tok) =>
      if r !in g.db.rides || g.db.rides[r].status != Requested then
        Some(Go(g, MRelease(r, rest, d, tok, Some(InvalidState(r)))))
      else if RideRowHeld(g, w, r) then None
      else Some(Go(g, MSlot(r, rest, d, tok)))
    case MSlot(r, rest, d, tok) =>                    // the index check of the same UPDATE
      if SlotHeld(g, w, d) then None
      else if SlotTaken(g.db, r, d) then Some(Go(g, MRelease(r, rest, d, tok, Some(IntegrityEscaped))))
      else Some(Go(g, MFlush(r, rest, d, tok)))
    case MFlush(r, rest, d, tok) =>
      if DriverRowHeld(g, w, d) then None else Some(Go(g, MCommit(r, rest, d, tok)))
    case MCommit(r, rest, d, tok) =>
      if r !in g.db.rides || d !in g.db.drivers then None
      else if !OneActiveRidePerDriver(Assign(g.db, r, d)) then
        Some(Go(g, MRelease(r, rest, d, tok, None)))  // except IntegrityError: roll back, next candidate
      else Some(Effect(MEmit(r, rest, d, tok), Assign(g.db, r, d), g.locks, []))
    case MEmit(r, rest, d, tok) =>
      Some(Effect(MRelease(r, rest, d, tok, Some(Assigned(r, d))), g.db, g.locks, [DriverAssigned(r, d)]))
    case MRelease(r, rest, d, tok, exit) =>
      Some(Effect(if exit.Some? then Done(exit.value) else MLoop(r, rest), g.db,
                  Release(g.locks, d, tok), [LeaseReturned(w, d, tok)]))
    case _ => None
  }

  ghost function EndStep(c: Config, g: State, w: WorkerId, ch: Choice): Option<Effect>
    requires w in g.workers
  {
    match g.workers[w]
    case EGet(r, kind) =>
      Some(Go(g, if r in g.db.rides then EUpdate(r, kind) else Done(NotFound)))
    case EUpdate(r, kind) =>
      if r !in g.db.rides || !EndsFrom(kind, g.db.rides[r].status) then Some(Go(g, Done(InvalidState(r))))
      else if RideRowHeld(g, w, r) then None
      else Some(Go(g, ERefresh(r, kind)))
    case ERefresh(r, kind) =>
      if r !in g.db.rides then None
      else if g.db.rides[r].driver.None? then Some(Go(g, ECommit(r, kind, None)))
      else Some(Go(g, EDriver(r, kind, g.db.rides[r].driver.value)))
    case EDriver(r, kind, d) =>
      // A driver already AVAILABLE leaves nothing to flush.
      if d !in g.db.drivers || g.db.drivers[d].status == Available then Some(Go(g, ECommit(r, kind, None)))
      else Some(Go(g, EFlush(r, kind, d)))
    case EFlush(r, kind, d) =>
      if DriverRowHeld(g, w, d) then None else Some(Go(g, ECommit(r, kind, Some(d))))
    case ECommit(r, kind, freed) =>
      if r !in g.db.rides || (freed.Some? && freed.value !in g.db.drivers) then None
      else Some(Effect(EEmit(r, kind), End(g.db, r, kind, freed), g.locks, []))
    case EEmit(r, kind) =>
      Some(Effect(Done(Ended(r, kind)), g.db, g.locks, [RideEnded(r, kind)]))
    case _ => None
  }

  ghost function LocateStep(c: Config, g: State, w: WorkerId, ch: Choice): Option<Effect>
    requires w in g.workers
  {
    match g.workers[w]
    case LGet(d, asked) =>
      if d !in g.db.drivers then Some(Go(g, Done(NotFound)))
      else if asked == g.db.drivers[d].place then Some(Go(g, Done(Located(d))))
      else Some(Go(g, LFlush(d, g.db.drivers[d].place, asked)))
    case LFlush(d, loaded, asked) =>
      if DriverRowHeld(g, w, d) then None else Some(Go(g, LCommit(d, loaded, asked)))
    case LCommit(d, loaded, asked) =>
      if d !in g.db.drivers then None
      else Some(Effect(Done(Located(d)), Move(g.db, d, loaded, asked), g.locks, []))
    case _ => None
  }

  /** The next statement of worker w; None when it waits on another transaction, has finished, or
      the scheduling choice does not fit. */
  ghost function Local(c: Config, g: State, w: WorkerId, ch: Choice): Option<Effect>
    requires w in g.workers
  {
    if Creating(g.workers[w]) then CreateStep(c, g, w, ch)
    else if Matching(g.workers[w]) then MatchStep(c, g, w, ch)
    else if EndingRide(g.workers[w]) then EndStep(c, g, w, ch)
    else LocateStep(c, g, w, ch)
  }

  predicate Creating(pc: Pc) { pc.CLookup? || pc.CInsert? || pc.CCommit? || pc.CEmit? || pc.CReread? }

  predicate Matching(pc: Pc) {
    || pc.MCheck? || pc.MSearch? || pc.MLoop? || pc.MRecheck? || pc.MUpdate? || pc.MSlot? || pc.MFlush?
    || pc.MCommit? || pc.MEmit? || pc.MRelease?
  }

  predicate EndingRide(pc: Pc) {
    pc.EGet? || pc.EUpdate? || pc.ERefresh? || pc.EDriver? || pc.EFlush? || pc.ECommit? || pc.EEmit?
  }

  function After(g: State, w: WorkerId, e: Effect): State {
    State(e.db, e.locks, g.clock, g.minted + 1, g.workers[w := e.pc], g.log + e.said)
  }

  predicate Finished(pc: Pc) { pc.Done? || pc.Crashed? }

  /** The first program counter of a call a client can make; match_ride is handed an existing ride. */
  predicate IsCall(db: Db, pc: Pc) {
    pc.CLookup? || (pc.MCheck? && pc.ride in db.rides) || pc.EGet? || pc.LGet?
  }

  ghost function Next(c: Config, g: State, a: Action): Option<State> {
    match a
    case Work(w, ch) =>
      if w !in g.workers then None
      else
        var e := Local(c, g, w, ch);
        if e.None? then None else Some(After(g, w, e.value))
    case Crash(w) =>       // the transaction aborts, the lease stays
      if w !in g.workers || Finished(g.workers[w]) then None
      else Some(g.(workers := g.workers[w := Crashed]))
    case Tick(dt) => Some(g.(clock := g.clock + dt, locks := Expire(g.locks, g.clock + dt)))
    case Arrive(w, call) =>
      if w in g.workers || !IsCall(g.db, call) then None else Some(g.(workers := g.workers[w := call]))
    case NewDriver(d, place) =>
      if d in g.db.drivers then None else Some(g.(db := Register(g.db, d, place)))
  }

  // Runs.

  ghost predicate Run(c: Config, ss: seq<State>, acts: seq<Action>) {
    && |ss| == |acts| + 1
    && forall i :: 0 <= i < |acts| ==> Next(c, ss[i], acts[i]) == Some(ss[i + 1])
  }

  ghost predicate Init(g: State) {
    g.db == Db(map[], map[]) && g.locks == map[] && g.workers == map[] && g.log == []
  }

  ghost predicate Reachable(c: Config, g: State) {
    exists ss, acts :: Run(c, ss, acts) && Init(ss[0]) && ss[|acts|] == g
  }
}
