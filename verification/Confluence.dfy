/** Who wins on one ride. One cancel_ride racing any number of match_ride calls always ends the ride
    CANCELLED; one complete_ride of a MATCHED ride always ends it COMPLETED; nobody is left BUSY for it.
    Everything else in the system may go on around them, with crashing matchers and a lock that grants
    anything. */
module Confluence {
  import opened Domain
  import opened Protocol
  import opened Safety

  /** No worker other than the one ending it tries to end ride r. */
  predicate LeavesAlone(pc: Pc, r: RideId) { EndingRide(pc) ==> pc.ride != r }

  predicate Has(db: Db, r: RideId, s: RideStatus) { r in db.rides && db.rides[r].status == s }

  /** The rides that each ending is for. */
  predicate Open(db: Db, r: RideId, kind: Ending) {
    match kind
    case Cancel => Has(db, r, Requested) || Has(db, r, Matched)
    case Complete => Has(db, r, Matched)
  }

  predicate Over(db: Db, r: RideId, kind: Ending) {
    match kind
    case Cancel => Has(db, r, Cancelled)
    case Complete => Has(db, r, Completed)
  }

  /** The ending has not committed and the ride is open to it, or it has and the ride is over. */
  predicate EndStage(db: Db, r: RideId, kind: Ending, pc: Pc) {
    || (EndingRide(pc) && !pc.EEmit? && pc.ride == r && pc.kind == kind && Open(db, r, kind))
    || ((pc == EEmit(r, kind) || pc == Done(Ended(r, kind))) && Over(db, r, kind))
  }

  ghost predicate Racing(g: State, r: RideId, kind: Ending, ender: WorkerId) {
    && ender in g.workers && EndStage(g.db, r, kind, g.workers[ender])
    && (forall w :: w in g.workers && w != ender ==> LeavesAlone(g.workers[w], r))
  }

  /** The ender does not crash and nobody else asks to cancel or complete the ride. */
  predicate Undisputed(a: Action, r: RideId, ender: WorkerId) {
    && (a.Crash? ==> a.worker != ender)
    && (a.Arrive? ==> LeavesAlone(a.call, r))
  }

  lemma EnderAdvances(c: Config, g: State, w: WorkerId, ch: Choice, e: Effect, r: RideId, kind: Ending)
    requires w in g.workers && Worked(c, g, w, ch, e) && EndStage(g.db, r, kind, g.workers[w])
    ensures EndStage(e.db, r, kind, e.pc)
  {
    hide CreateStep, MatchStep, RideRowHeld, DriverRowHeld;
  }

  lemma OthersOnlyMatch(c: Config, g: State, w: WorkerId, ch: Choice, e: Effect, r: RideId, kind: Ending)
    requires w in g.workers && Worked(c, g, w, ch, e) && PcInv(c, g.db, g.workers[w])
    requires r in g.db.rides && LeavesAlone(g.workers[w], r)
    ensures LeavesAlone(e.pc, r)
    ensures (Open(g.db, r, kind) ==> Open(e.db, r, kind)) && (Over(g.db, r, kind) ==> Over(e.db, r, kind))
  {
    hide Local;
    CommitForms(c, g, w, ch, e);
    if EndingRide(e.pc) { SameEnding(c, g, w, ch, e); }
  }

  /** A worker ends the ride it was called for and no other. */
  lemma SameEnding(c: Config, g: State, w: WorkerId, ch: Choice, e: Effect)
    requires w in g.workers && Worked(c, g, w, ch, e) && EndingRide(e.pc)
    ensures EndingRide(g.workers[w]) && e.pc.ride == g.workers[w].ride
  {
    hide RideRowHeld, SlotHeld, DriverRowHeld, KeySlotHeld, SlotTaken, OneActiveRidePerDriver, Discover;
  }

  lemma StepKeepsRacing(c: Config, g: State, a: Action, g': State, r: RideId, kind: Ending, ender: WorkerId)
    requires Inv(c, g) && Next(c, g, a) == Some(g') && Racing(g, r, kind, ender) && Undisputed(a, r, ender)
    ensures Racing(g', r, kind, ender)
  {
    if a.Work? {
      var e := Local(c, g, a.worker, a.choice).value;
      assert PcInv(c, g.db, g.workers[a.worker]);
      if a.worker == ender { EnderAdvances(c, g, ender, a.choice, e, r, kind); }
      else { OthersOnlyMatch(c, g, a.worker, a.choice, e, r, kind); }
    }
  }

  lemma {:induction false} RacingHolds(c: Config, ss: seq<State>, acts: seq<Action>, i: nat, r: RideId, kind: Ending,
                                       ender: WorkerId)
    requires Run(c, ss, acts) && Inv(c, ss[0]) && Racing(ss[0], r, kind, ender) && i < |ss|
    requires forall k :: 0 <= k < |acts| ==> Undisputed(acts[k], r, ender)
    ensures Inv(c, ss[i]) && Racing(ss[i], r, kind, ender)
  {
    hide Next, Inv, Racing, Undisputed;
    if i > 0 {
      RacingHolds(c, ss, acts, i - 1, r, kind, ender);
      StepKeepsInv(c, ss[i - 1], acts[i - 1], ss[i]);
      StepKeepsRacing(c, ss[i - 1], acts[i - 1], ss[i], r, kind, ender);
    }
  }

  /** A ride that is over keeps nobody BUSY. */
  lemma NobodyBusyFor(c: Config, db: Db, r: RideId, kind: Ending)
    requires Agreement(db) && Over(db, r, kind)
    ensures forall d | d in db.drivers && db.drivers[d].status == Busy :: exists o :: o != r && Names(db, o, d)
  {
    forall d | d in db.drivers && db.drivers[d].status == Busy ensures exists o :: o != r && Names(db, o, d) {
      var o: RideId :| Names(db, o, d);
      assert o != r;
    }
  }

  /** Whenever the undisputed ending has returned, it returned normally and the ride is over from then on. */
  lemma EndingWins(c: Config, ss: seq<State>, acts: seq<Action>, r: RideId, kind: Ending, ender: WorkerId)
    requires Run(c, ss, acts) && Reachable(c, ss[0])
    requires Open(ss[0].db, r, kind) && ender in ss[0].workers && ss[0].workers[ender] == EGet(r, kind)
    requires forall w :: w in ss[0].workers && w != ender ==> LeavesAlone(ss[0].workers[w], r)
    requires forall k :: 0 <= k < |acts| ==> Undisputed(acts[k], r, ender)
    ensures var g := ss[|acts|];
      ender in g.workers && (Finished(g.workers[ender]) ==>
        g.workers[ender] == Done(Ended(r, kind)) && Over(g.db, r, kind) && Agreement(g.db))
  {
    hide Next, Inv, Reachable, Undisputed, Open, Over;
    ReachableInv(c, ss[0]);
    RacingHolds(c, ss, acts, |acts|, r, kind, ender);
    InvAgrees(c, ss[|acts|]);
  }

  lemma InvAgrees(c: Config, g: State)
    requires Inv(c, g)
    ensures Agreement(g.db)
  {}

  /** One cancel against any number of matches: whenever it has returned, it returned normally, the ride is
      CANCELLED from then on, and every BUSY driver is busy for some other ride. */
  lemma CancelAlwaysWins(c: Config, ss: seq<State>, acts: seq<Action>, r: RideId, canceller: WorkerId)
    requires Run(c, ss, acts) && Reachable(c, ss[0])
    requires r in ss[0].db.rides && ss[0].db.rides[r].status in {Requested, Matched}
    requires canceller in ss[0].workers && ss[0].workers[canceller] == EGet(r, Cancel)
    requires forall w :: w in ss[0].workers && w != canceller ==> LeavesAlone(ss[0].workers[w], r)
    requires forall k :: 0 <= k < |acts| ==> Undisputed(acts[k], r, canceller)
    ensures var g := ss[|acts|];
      canceller in g.workers && (Finished(g.workers[canceller]) ==>
        && g.workers[canceller] == Done(Ended(r, Cancel))
        && r in g.db.rides && g.db.rides[r].status == Cancelled
        && (forall d | d in g.db.drivers && g.db.drivers[d].status == Busy ::
              exists o :: o != r && Names(g.db, o, d)))
  {
    hide Next, Reachable, Undisputed, Agreement;
    EndingWins(c, ss, acts, r, Cancel, canceller);
    if Finished(ss[|acts|].workers[canceller]) { NobodyBusyFor(c, ss[|acts|].db, r, Cancel); }
  }

  /** One complete of a MATCHED ride: whenever it has returned, it returned normally, the ride is COMPLETED
      from then on, and every BUSY driver is busy for some other ride. */
  lemma CompleteAlwaysWins(c: Config, ss: seq<State>, acts: seq<Action>, r: RideId, completer: WorkerId)
    requires Run(c, ss, acts) && Reachable(c, ss[0])
    requires r in ss[0].db.rides && ss[0].db.rides[r].status == Matched
    requires completer in ss[0].workers && ss[0].workers[completer] == EGet(r, Complete)
    requires forall w :: w in ss[0].workers && w != completer ==> LeavesAlone(ss[0].workers[w], r)
    requires forall k :: 0 <= k < |acts| ==> Undisputed(acts[k], r, completer)
    ensures var g := ss[|acts|];
      completer in g.workers && (Finished(g.workers[completer]) ==>
        && g.workers[completer] == Done(Ended(r, Complete))
        && r in g.db.rides && g.db.rides[r].status == Completed
        && (forall d | d in g.db.drivers && g.db.drivers[d].status == Busy ::
              exists o :: o != r && Names(g.db, o, d)))
  {
    hide Next, Reachable, Undisputed, Agreement;
    EndingWins(c, ss, acts, r, Complete, completer);
    if Finished(ss[|acts|].workers[completer]) { NobodyBusyFor(c, ss[|acts|].db, r, Complete); }
  }

  // Rides that cannot be ended.

  /** An ending of a ride that does not exist is answered so at once; of one that does, it goes on. */
  lemma UnknownRideIsNotFound(c: Config, g: State, w: WorkerId, ch: Choice, e: Effect)
    requires Worked(c, g, w, ch, e) && g.workers[w].EGet?
    ensures e.db == g.db && e.pc == if g.workers[w].ride in g.db.rides
                                    then EUpdate(g.workers[w].ride, g.workers[w].kind) else Done(NotFound)
  {}

  /** An ending answers by the row its UPDATE sees: it goes on if the ride is open to it, and fails, changing
      nothing, if the ride is REQUESTED and was to be completed, or is over. */
  lemma EndingAnswers(c: Config, g: State, w: WorkerId, ch: Choice, e: Effect)
    requires Reachable(c, g) && Worked(c, g, w, ch, e) && g.workers[w].EUpdate?
    ensures var r, kind := g.workers[w].ride, g.workers[w].kind;
      && e.db == g.db && r in g.db.rides
      && (e.pc == ERefresh(r, kind) <==>
            g.db.rides[r].status == Matched || (kind == Cancel && g.db.rides[r].status == Requested))
      && (e.pc == Done(InvalidState(r)) <==>
            g.db.rides[r].status in {Completed, Cancelled} || (kind == Complete && g.db.rides[r].status == Requested))
  {
    ReachableInv(c, g);
    InvKnows(c, g, w);
  }
}
