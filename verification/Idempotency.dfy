/** Idempotent creation behaves like a write-once map from key to ride. */
module Idempotency {
  import opened Domain
  import opened Protocol
  import opened Safety
  import opened Lifecycle

  predicate Backs(db: Db, k: Key, r: RideId) { r in db.rides && db.rides[r].key == Some(k) }

  predicate EntryHolds(db: Db, x: Entry) {
    x.KeyReturned? ==> Backs(db, x.key, x.ride) && (x.sawRow ==> db.rides[x.ride].request == x.request)
  }

  predicate ConflictHolds(db: Db, pc: Pc) {
    pc.Done? && pc.outcome.KeyConflict? ==>
      var o := pc.outcome;
      Backs(db, o.key, o.ride) && db.rides[o.ride].request != o.request
  }

  /** Everything create_ride ever answered about a key is still true of the rides table. */
  ghost predicate AnswersHold(g: State) {
    && (forall x :: x in g.log ==> EntryHolds(g.db, x))
    && (forall w :: w in g.workers ==> ConflictHolds(g.db, g.workers[w]))
  }

  lemma CreatorAnswers(c: Config, g: State, w: WorkerId, ch: Choice, e: Effect, x: Entry)
    requires w in g.workers && PcInv(c, g.db, g.workers[w]) && CreateStep(c, g, w, ch) == Some(e)
    ensures x in e.said ==> EntryHolds(g.db, x)
    ensures ConflictHolds(g.db, e.pc)
  {}

  lemma MatcherAnswersNothing(c: Config, g: State, w: WorkerId, ch: Choice, e: Effect, x: Entry)
    requires w in g.workers && PcInv(c, g.db, g.workers[w]) && MatchStep(c, g, w, ch) == Some(e)
    ensures x in e.said ==> !x.KeyReturned?
    ensures !(e.pc.Done? && e.pc.outcome.KeyConflict?)
  {}

  lemma OthersAnswerNothing(c: Config, g: State, w: WorkerId, ch: Choice, e: Effect, x: Entry)
    requires w in g.workers && (EndStep(c, g, w, ch) == Some(e) || LocateStep(c, g, w, ch) == Some(e))
    ensures x in e.said ==> !x.KeyReturned?
    ensures !(e.pc.Done? && e.pc.outcome.KeyConflict?)
  {}

  lemma WorkerAnswers(c: Config, g: State, w: WorkerId, ch: Choice, e: Effect, x: Entry)
    requires w in g.workers && PcInv(c, g.db, g.workers[w]) && Worked(c, g, w, ch, e)
    ensures x in e.said ==> EntryHolds(g.db, x)
    ensures ConflictHolds(g.db, e.pc)
  {
    if Creating(g.workers[w]) { CreatorAnswers(c, g, w, ch, e, x); }
    else if Matching(g.workers[w]) { MatcherAnswersNothing(c, g, w, ch, e, x); }
    else { OthersAnswerNothing(c, g, w, ch, e, x); }
  }

  lemma AnswersOutlive(db: Db, db': Db, x: Entry, pc: Pc)
    requires forall r :: r in db.rides ==> r in db'.rides && RideStep(db.rides[r], db'.rides[r])
    ensures EntryHolds(db, x) ==> EntryHolds(db', x)
    ensures ConflictHolds(db, pc) ==> ConflictHolds(db', pc)
  {}

  lemma StepKeepsAnswers(c: Config, g: State, a: Action, g': State)
    requires Inv(c, g) && Next(c, g, a) == Some(g') && AnswersHold(g)
    ensures AnswersHold(g')
  {
    forall r | r in g.db.rides ensures r in g'.db.rides && RideStep(g.db.rides[r], g'.db.rides[r]) {
      StepAdvances(c, g, a, g', r);
    }
    forall x | x in g'.log ensures EntryHolds(g'.db, x) {
      AnswersOutlive(g.db, g'.db, x, Crashed);
      if x !in g.log { WorkerAnswers(c, g, a.worker, a.choice, Local(c, g, a.worker, a.choice).value, x); }
    }
    forall w | w in g'.workers ensures ConflictHolds(g'.db, g'.workers[w]) {
      AnswersOutlive(g.db, g'.db, RideRequested(0), g'.workers[w]);
      if a.Work? && a.worker == w {
        WorkerAnswers(c, g, w, a.choice, Local(c, g, w, a.choice).value, RideRequested(0));
      }
    }
  }

  lemma {:induction false} AnswersAlwaysHold(c: Config, ss: seq<State>, acts: seq<Action>, i: nat)
    requires Run(c, ss, acts) && Init(ss[0]) && i < |ss|
    ensures AnswersHold(ss[i])
  {
    if i > 0 {
      AnswersAlwaysHold(c, ss, acts, i - 1);
      RunKeepsInv(c, ss, acts, i - 1);
      StepKeepsAnswers(c, ss[i - 1], acts[i - 1], ss[i]);
    }
  }

  lemma ReachableAnswers(c: Config, g: State)
    requires Reachable(c, g)
    ensures Inv(c, g) && AnswersHold(g)
  {
    var ss, acts :| Run(c, ss, acts) && Init(ss[0]) && ss[|acts|] == g;
    AnswersAlwaysHold(c, ss, acts, |acts|);
    RunKeepsInv(c, ss, acts, |acts|);
  }

  // The main claims.

  /** All normal returns for a key give the same ride, which is the one committed ride the key backs. */
  lemma OneRideForEveryReturn(c: Config, g: State, x: Entry, y: Entry)
    requires Reachable(c, g) && x in g.log && y in g.log && x.KeyReturned? && y.KeyReturned? && x.key == y.key
    ensures x.ride == y.ride
    ensures forall r :: Backs(g.db, x.key, r) <==> r == x.ride
  {
    ReachableAnswers(c, g);
    assert EntryHolds(g.db, x) && EntryHolds(g.db, y);
  }

  /** Once a key backs a ride it backs that ride, and no other, for the rest of the run. */
  lemma KeysAreWriteOnce(c: Config, ss: seq<State>, acts: seq<Action>, i: nat, j: nat, k: Key, r: RideId)
    requires Run(c, ss, acts) && Inv(c, ss[0]) && i <= j < |ss| && Backs(ss[i].db, k, r)
    ensures forall o :: Backs(ss[j].db, k, o) <==> o == r
  {
    RidesOnlyAdvance(c, ss, acts, i, j, r);
    RunKeepsInv(c, ss, acts, j);
  }

  /** A call is refused for its key exactly when its own first lookup finds the key's ride with other
      parameters; a lookup that finds it with equal parameters returns it. */
  lemma ConflictExactly(c: Config, g: State, w: WorkerId, ch: Choice, e: Effect, k: Key, req: Request)
    requires Reachable(c, g) && Worked(c, g, w, ch, e)
    ensures (exists r :: e.pc == Done(KeyConflict(k, r, req)))
       <==> g.workers[w] == CLookup(req, Some(k)) && exists r :: Backs(g.db, k, r) && g.db.rides[r].request != req
    ensures forall r | Backs(g.db, k, r) && g.db.rides[r].request == req ::
      g.workers[w] == CLookup(req, Some(k)) ==> e.pc == MCheck(r) && e.said == [KeyReturned(w, k, r, req, true)]
  {
    ReachableInv(c, g);
    assert PcInv(c, g.db, g.workers[w]);
    ConflictOfStep(c, g, w, ch, e, k, req);
  }

  lemma ConflictOfStep(c: Config, g: State, w: WorkerId, ch: Choice, e: Effect, k: Key, req: Request)
    requires w in g.workers && PcInv(c, g.db, g.workers[w]) && OneRidePerKey(g.db) && Worked(c, g, w, ch, e)
    ensures (exists r :: e.pc == Done(KeyConflict(k, r, req)))
       <==> g.workers[w] == CLookup(req, Some(k)) && exists r :: Backs(g.db, k, r) && g.db.rides[r].request != req
    ensures forall r | Backs(g.db, k, r) && g.db.rides[r].request == req ::
      g.workers[w] == CLookup(req, Some(k)) ==> e.pc == MCheck(r) && e.said == [KeyReturned(w, k, r, req, true)]
  {
    if Matching(g.workers[w]) { MatcherAnswersNothing(c, g, w, ch, e, RideRequested(0)); }
    else if !Creating(g.workers[w]) { OthersAnswerNothing(c, g, w, ch, e, RideRequested(0)); }
    else if g.workers[w].CLookup? && g.workers[w].key == Some(k) {
      var hit := RideWithKey(g.db, k);
      if hit.Some? {
        assert Backs(g.db, k, hit.value);
        assert forall r :: Backs(g.db, k, r) ==> r == hit.value;
      }
    }
  }

  /** A known rider's INSERT is refused exactly when its key already backs a ride. */
  lemma RefusedForItsKey(c: Config, g: State, w: WorkerId, ch: Choice, e: Effect, k: Key, req: Request)
    requires w in g.workers && Worked(c, g, w, ch, e) && ch.riderKnown && g.workers[w] == CInsert(req, Some(k))
    ensures e.db == g.db && (e.pc == CReread(req, Some(k)) <==> exists r :: Backs(g.db, k, r))
    ensures e.pc == CReread(req, Some(k)) || e.pc.CCommit?
  {
    if KeyUsed(g.db, k) {
      var r :| r in g.db.rides && g.db.rides[r].key == Some(k);
      assert Backs(g.db, k, r);
    }
    assert forall r :: Backs(g.db, k, r) ==> KeyUsed(g.db, k);
  }

  lemma RereadFinds(c: Config, g: State, w: WorkerId, ch: Choice, e: Effect, k: Key, req: Request)
    requires w in g.workers && Worked(c, g, w, ch, e) && g.workers[w] == CReread(req, Some(k))
    ensures (exists r :: Backs(g.db, k, r)) ==>
      exists r :: Backs(g.db, k, r) && e.pc == MCheck(r) && e.said == [KeyReturned(w, k, r, req, false)]
    ensures (forall r :: !Backs(g.db, k, r)) ==> e.pc == Done(IntegrityEscaped)
  {
    var winner := RideWithKey(g.db, k);
    if winner.Some? { assert Backs(g.db, k, winner.value); }
    assert forall r :: Backs(g.db, k, r) ==> winner.Some?;
  }

  /** The loser of a race for a key always gets the winner: when a known rider's INSERT has been refused and
      the call reads again, at whatever later point, it is answered with the ride that its key backs and
      never with the IntegrityError. */
  lemma RaceLoserGetsWinner(c: Config, ss: seq<State>, acts: seq<Action>, i: nat, j: nat, w: WorkerId, k: Key,
                            req: Request)
    requires Run(c, ss, acts) && Reachable(c, ss[0]) && i < j < |acts|
    requires w in ss[i].workers && ss[i].workers[w] == CInsert(req, Some(k))
    requires acts[i].Work? && acts[i].worker == w && acts[i].choice.riderKnown
    requires acts[j].Work? && acts[j].worker == w && w in ss[j].workers && ss[j].workers[w] == CReread(req, Some(k))
    requires w in ss[i + 1].workers && ss[i + 1].workers[w] == CReread(req, Some(k))
    ensures exists r ::
      && Backs(ss[i].db, k, r) && Backs(ss[j + 1].db, k, r) && w in ss[j + 1].workers
      && ss[j + 1].workers[w] == MCheck(r) && KeyReturned(w, k, r, req, false) in ss[j + 1].log
  {
    hide Local, Inv, Reachable;
    assert Next(c, ss[i], acts[i]) == Some(ss[i + 1]) && Next(c, ss[j], acts[j]) == Some(ss[j + 1]);
    RefusedForItsKey(c, ss[i], w, acts[i].choice, Local(c, ss[i], w, acts[i].choice).value, k, req);
    var r :| Backs(ss[i].db, k, r);
    ReachableInv(c, ss[0]);
    KeysAreWriteOnce(c, ss, acts, i, j, k, r);
    KeysAreWriteOnce(c, ss, acts, i, j + 1, k, r);
    assert Backs(ss[j].db, k, r) && Backs(ss[j + 1].db, k, r);
    RereadFinds(c, ss[j], w, acts[j].choice, Local(c, ss[j], w, acts[j].choice).value, k, req);
  }

  function Flat(target: int, maxRing: nat, ttl: nat): Config {
    Config((x: Cell, k: nat) => {x}, (a: real, b: real) => 0, (a: real, b: real) => 0,
           (a: real, b: real, x: real, y: real) => 0.0, target, maxRing, ttl)
  }

  lemma BothMissTheKey(c: Config, one: Request, two: Request, ch: Choice) returns (g: State)
    ensures Reachable(c, g) && g.db == Db(map[], map[])
    ensures g.workers == map[1 := CInsert(one, Some(9)), 2 := CInsert(two, Some(9))]
  {
    g := State(Db(map[], map[]), map[], 0, 0, map[], []);
    ReachesInit(c, g);
    ReachesArrival(c, g, 1, CLookup(one, Some(9)));
    g := g.(workers := g.workers[1 := CLookup(one, Some(9))]);
    ReachesArrival(c, g, 2, CLookup(two, Some(9)));
    g := g.(workers := g.workers[2 := CLookup(two, Some(9))]);
    ReachesWork(c, g, 1, ch, Go(g, CInsert(one, Some(9))));
    g := After(g, 1, Go(g, CInsert(one, Some(9))));
    ReachesWork(c, g, 2, ch, Go(g, CInsert(two, Some(9))));
    g := After(g, 2, Go(g, CInsert(two, Some(9))));
  }

  lemma FirstInserts(c: Config, g4: State, one: Request, two: Request, ch: Choice) returns (g: State)
    requires Reachable(c, g4) && g4.db == Db(map[], map[]) && ch.newRide == 7 && ch.riderKnown
    requires g4.workers == map[1 := CInsert(one, Some(9)), 2 := CInsert(two, Some(9))]
    ensures Reachable(c, g) && g.db.rides.Keys == {7} && g.db.rides[7].key == Some(9) && g.db.rides[7].request == one
    ensures 1 in g.workers && g.workers[1].CEmit? && g.workers == map[1 := g.workers[1], 2 := CInsert(two, Some(9))]
  {
    var row := Ride(one, Requested, None, Some(9), Some(c.zoneAt(one.lat, one.lng)), ch.quote, ch.at);
    ReachesWork(c, g4, 1, ch, Go(g4, CCommit(7, row)));
    var g5 := After(g4, 1, Go(g4, CCommit(7, row)));
    var e := Effect(CEmit(7, row), Insert(g5.db, 7, row), g5.locks, []);
    ReachesWork(c, g5, 1, ch, e);
    g := After(g5, 1, e);
  }

  /** "A reused key with different parameters always conflicts" is false: a caller that loses the
      insert race is handed the winner's ride without a comparison. */
  lemma RaceLoserIsNotCompared() returns (c: Config, g: State, x: Entry)
    ensures Reachable(c, g) && x in g.log && x.KeyReturned?
    ensures x.ride in g.db.rides && g.db.rides[x.ride].request != x.request
  {
    c := Flat(5, 3, 5000);
    var one, two := Request(1, 0.0, 0.0), Request(2, 1.0, 1.0);
    var ch := Choice(7, 1.0, 0, true, [], Honest, false);
    var g4 := BothMissTheKey(c, one, two, ch);
    var g6 := FirstInserts(c, g4, one, two, ch);
    assert Backs(g6.db, 9, 7);
    ReachesWork(c, g6, 2, ch.(newRide := 8), Go(g6, CReread(two, Some(9))));
    var g7 := After(g6, 2, Go(g6, CReread(two, Some(9))));
    x := KeyReturned(2, 9, 7, two, false);
    assert RideWithKey(g7.db, 9) == Some(7);
    ReachesWork(c, g7, 2, ch, Effect(MCheck(7), g7.db, g7.locks, [x]));
    g := After(g7, 2, Effect(MCheck(7), g7.db, g7.locks, [x]));
  }
}
