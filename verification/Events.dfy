/** The event log never repeats a milestone of a ride and never reports one that did not happen.
    An event is written after its commit, in a later step, so a crash may lose it. */
module Events {
  import opened Domain
  import opened Protocol
  import opened Safety
  import opened Lifecycle

  datatype Stage = Asked | Given | Over
  datatype Milestone = Milestone(ride: RideId, stage: Stage)

  function Mark(x: Entry): Option<Milestone> {
    match x
    case RideRequested(r) => Some(Milestone(r, Asked))
    case DriverAssigned(r, _) => Some(Milestone(r, Given))
    case RideEnded(r, _) => Some(Milestone(r, Over))
    case _ => None
  }

  /** The milestone a worker has committed and not yet written to the log. */
  function Owed(pc: Pc): Option<Milestone> {
    match pc
    case CEmit(r, _) => Some(Milestone(r, Asked))
    case MEmit(r, _, _, _) => Some(Milestone(r, Given))
    case EEmit(r, _) => Some(Milestone(r, Over))
    case _ => None
  }

  /** The rides table shows that this milestone was committed. */
  predicate Happened(db: Db, m: Milestone) {
    m.ride in db.rides &&
    match m.stage
    case Asked => true
    case Given => db.rides[m.ride].driver.Some?
    case Over => Terminal(db.rides[m.ride].status)
  }

  /** The transition an event reports is the one the rides table records. */
  predicate Backed(db: Db, x: Entry) {
    match x
    case RideRequested(r) => r in db.rides
    case DriverAssigned(r, d) => r in db.rides && db.rides[r].driver == Some(d)
    case RideEnded(r, kind) => r in db.rides && db.rides[r].status == EndStatus(kind)
    case _ => true
  }

  ghost predicate EventsSound(g: State) {
    && (forall x :: x in g.log ==> Backed(g.db, x))
    && (forall i, j :: 0 <= i < j < |g.log| && Mark(g.log[i]).Some? ==> Mark(g.log[i]) != Mark(g.log[j]))
    && (forall w, x :: w in g.workers && x in g.log && Mark(x).Some? ==> Mark(x) != Owed(g.workers[w]))
    && (forall v, w :: v in g.workers && w in g.workers && v != w && Owed(g.workers[v]).Some? ==>
          Owed(g.workers[v]) != Owed(g.workers[w]))
  }

  lemma OwedHappened(c: Config, db: Db, pc: Pc)
    requires PcInv(c, db, pc) && Owed(pc).Some?
    ensures Happened(db, Owed(pc).value)
  {}

  lemma BackedHappened(db: Db, x: Entry)
    requires Backed(db, x) && Mark(x).Some?
    ensures Happened(db, Mark(x).value)
  {}

  lemma BackedOutlives(db: Db, db': Db, x: Entry)
    requires forall r | r in db.rides ::
      RideShape(db.rides[r]) && r in db'.rides && RideStep(db.rides[r], db'.rides[r])
    requires Backed(db, x)
    ensures Backed(db', x)
  {}

  /** What one statement adds: at most the event its worker owed; and it owes a new one only for a
      milestone its own commit has just made true. */
  ghost predicate Accounts(g: State, pc: Pc, e: Effect) {
    && (Owed(e.pc).Some? ==> !Happened(g.db, Owed(e.pc).value))
    && (forall i :: 0 <= i < |e.said| ==>
          Backed(g.db, e.said[i]) && (Mark(e.said[i]).Some? ==> i == 0 && Mark(e.said[i]) == Owed(pc)))
  }

  lemma CreatorAccounts(c: Config, g: State, w: WorkerId, ch: Choice, e: Effect)
    requires w in g.workers && PcInv(c, g.db, g.workers[w]) && CreateStep(c, g, w, ch) == Some(e)
    ensures Accounts(g, g.workers[w], e)
  {}

  lemma MatcherAccounts(c: Config, g: State, w: WorkerId, ch: Choice, e: Effect)
    requires w in g.workers && PcInv(c, g.db, g.workers[w]) && MatchStep(c, g, w, ch) == Some(e)
    requires forall r :: r in g.db.rides ==> RideShape(g.db.rides[r])
    ensures Accounts(g, g.workers[w], e)
  {}

  lemma EnderAccounts(c: Config, g: State, w: WorkerId, ch: Choice, e: Effect)
    requires w in g.workers && PcInv(c, g.db, g.workers[w])
    requires EndStep(c, g, w, ch) == Some(e) || LocateStep(c, g, w, ch) == Some(e)
    ensures Accounts(g, g.workers[w], e)
  {}

  lemma WorkerAccounts(c: Config, g: State, w: WorkerId, ch: Choice, e: Effect)
    requires w in g.workers && PcInv(c, g.db, g.workers[w]) && Worked(c, g, w, ch, e)
    requires forall r :: r in g.db.rides ==> RideShape(g.db.rides[r])
    ensures Accounts(g, g.workers[w], e)
  {
    if Creating(g.workers[w]) { CreatorAccounts(c, g, w, ch, e); }
    else if Matching(g.workers[w]) { MatcherAccounts(c, g, w, ch, e); }
    else { EnderAccounts(c, g, w, ch, e); }
  }

  lemma WorkKeepsEvents(c: Config, g: State, w: WorkerId, ch: Choice, e: Effect)
    requires Inv(c, g) && Worked(c, g, w, ch, e) && EventsSound(g) && Accounts(g, g.workers[w], e)
    requires forall r :: r in g.db.rides ==> r in e.db.rides && RideStep(g.db.rides[r], e.db.rides[r])
    ensures EventsSound(After(g, w, e))
  {
    var g' := After(g, w, e);
    forall x | x in g.log || x in e.said ensures Backed(g.db, x) && Backed(g'.db, x) {
      BackedOutlives(g.db, g'.db, x);
    }
    forall x | x in g.log && Mark(x).Some? ensures Mark(x) != Owed(e.pc) { BackedHappened(g.db, x); }
    forall v | v in g.workers && v != w && Owed(g.workers[v]).Some? ensures Owed(g.workers[v]) != Owed(e.pc) {
      assert PcInv(c, g.db, g.workers[v]);
      OwedHappened(c, g.db, g.workers[v]);
    }
    forall x | x in e.said && Mark(x).Some? ensures Mark(x) == Owed(g.workers[w]) && Mark(x) != Owed(e.pc) {
      assert PcInv(c, g.db, g.workers[w]);
      OwedHappened(c, g.db, g.workers[w]);
    }
    forall i, j | 0 <= i < j < |g'.log| && Mark(g'.log[i]).Some? ensures Mark(g'.log[i]) != Mark(g'.log[j]) {
      if j >= |g.log| {
        assert g'.log[j] == e.said[j - |g.log|];
        if i < |g.log| { assert g'.log[i] in g.log; }
      }
    }
  }

  lemma OthersKeepEvents(c: Config, g: State, a: Action, g': State)
    requires !a.Work? && Next(c, g, a) == Some(g') && EventsSound(g)
    ensures EventsSound(g')
  {}

  lemma StepKeepsEvents(c: Config, g: State, a: Action, g': State)
    requires Inv(c, g) && Next(c, g, a) == Some(g') && EventsSound(g)
    ensures EventsSound(g')
  {
    hide Local, PcInv, EventsSound, Accounts, RideStep;
    forall r | r in g.db.rides ensures r in g'.db.rides && RideStep(g.db.rides[r], g'.db.rides[r]) {
      StepAdvances(c, g, a, g', r);
    }
    if a.Work? {
      var w, ch := a.worker, a.choice;
      var e := Local(c, g, w, ch).value;
      WorkerAccounts(c, g, w, ch, e);
      WorkKeepsEvents(c, g, w, ch, e);
    } else {
      OthersKeepEvents(c, g, a, g');
    }
  }

  lemma {:induction false} EventsAlwaysSound(c: Config, ss: seq<State>, acts: seq<Action>, i: nat)
    requires Run(c, ss, acts) && Init(ss[0]) && i < |ss|
    ensures EventsSound(ss[i])
  {
    if i > 0 {
      EventsAlwaysSound(c, ss, acts, i - 1);
      RunKeepsInv(c, ss, acts, i - 1);
      StepKeepsEvents(c, ss[i - 1], acts[i - 1], ss[i]);
    }
  }

  /** Per ride: at most one RIDE_REQUESTED, at most one DRIVER_ASSIGNED, and at most one of
      RIDE_CANCELLED and RIDE_COMPLETED in total; each reports the transition that was committed. */
  lemma EventLogSound(c: Config, g: State, i: nat, j: nat)
    requires Reachable(c, g) && i < |g.log| && j < |g.log|
    ensures Backed(g.db, g.log[i])
    ensures g.log[i].RideRequested? && g.log[j].RideRequested? && g.log[i].ride == g.log[j].ride ==> i == j
    ensures g.log[i].DriverAssigned? && g.log[j].DriverAssigned? && g.log[i].ride == g.log[j].ride ==> i == j
    ensures g.log[i].RideEnded? && g.log[j].RideEnded? && g.log[i].ride == g.log[j].ride ==> i == j
  {
    var ss, acts :| Run(c, ss, acts) && Init(ss[0]) && ss[|acts|] == g;
    EventsAlwaysSound(c, ss, acts, |acts|);
    assert g.log[i] in g.log;
  }

  // Nothing is left out of the log.

  ghost predicate Logged(log: seq<Entry>, m: Milestone) { exists x :: x in log && Mark(x) == Some(m) }

  /** Some worker has yet to write this milestone, or crashed and may have been the one. */
  ghost predicate Pending(workers: map<WorkerId, Pc>, m: Milestone) {
    exists w :: w in workers && (workers[w].Crashed? || Owed(workers[w]) == Some(m))
  }

  ghost predicate EventsComplete(g: State) {
    forall m :: Happened(g.db, m) ==> Logged(g.log, m) || Pending(g.workers, m)
  }

  /** A milestone that a statement makes true is one its worker then owes to the log. */
  lemma NewlyHappened(c: Config, g: State, w: WorkerId, ch: Choice, e: Effect, m: Milestone)
    requires w in g.workers && PcInv(c, g.db, g.workers[w]) && Worked(c, g, w, ch, e)
    requires Happened(e.db, m) && !Happened(g.db, m)
    ensures Owed(e.pc) == Some(m)
  {
    hide Local;
    CommitForms(c, g, w, ch, e);
  }

  /** A worker stops owing a milestone only by writing it. */
  lemma DebtIsPaid(c: Config, g: State, w: WorkerId, ch: Choice, e: Effect, m: Milestone)
    requires w in g.workers && Worked(c, g, w, ch, e) && Owed(g.workers[w]) == Some(m)
    ensures exists x :: x in e.said && Mark(x) == Some(m)
  {
    hide RideRowHeld, SlotHeld, DriverRowHeld, KeySlotHeld, Discover;
    var x := match g.workers[w]
      case CEmit(r, _) => RideRequested(r)
      case MEmit(r, _, d, _) => DriverAssigned(r, d)
      case EEmit(r, kind) => RideEnded(r, kind);
    assert x in e.said;
  }

  lemma WorkKeepsComplete(c: Config, g: State, w: WorkerId, ch: Choice, e: Effect, m: Milestone)
    requires w in g.workers && PcInv(c, g.db, g.workers[w]) && Worked(c, g, w, ch, e) && !g.workers[w].Crashed?
    requires EventsComplete(g) && Happened(e.db, m)
    ensures Logged(g.log + e.said, m) || Pending(g.workers[w := e.pc], m)
  {
    hide Local, Happened, Mark, Owed, PcInv;
    var now := g.workers[w := e.pc];
    if !Happened(g.db, m) {
      NewlyHappened(c, g, w, ch, e, m);
      assert w in now && Owed(now[w]) == Some(m);
    } else if Logged(g.log, m) {
      var x :| x in g.log && Mark(x) == Some(m);
      assert x in g.log + e.said;
    } else {
      var v :| v in g.workers && (g.workers[v].Crashed? || Owed(g.workers[v]) == Some(m));
      if v == w {
        DebtIsPaid(c, g, w, ch, e, m);
        var x :| x in e.said && Mark(x) == Some(m);
        assert x in g.log + e.said;
      } else {
        assert v in now && now[v] == g.workers[v];
      }
    }
  }

  lemma CrashedIsDone(c: Config, g: State, w: WorkerId, ch: Choice)
    requires w in g.workers && Local(c, g, w, ch).Some?
    ensures !g.workers[w].Crashed?
  {}

  lemma SameRidesSameMilestones(db: Db, db': Db, m: Milestone)
    requires db'.rides == db.rides
    ensures Happened(db', m) ==> Happened(db, m)
  {}

  lemma OthersKeepComplete(c: Config, g: State, a: Action, g': State, m: Milestone)
    requires !a.Work? && Next(c, g, a) == Some(g') && EventsComplete(g) && Happened(g'.db, m)
    ensures Logged(g'.log, m) || Pending(g'.workers, m)
  {
    hide Happened, Mark, Owed;
    SameRidesSameMilestones(g.db, g'.db, m);
    if !Logged(g.log, m) {
      var v :| v in g.workers && (g.workers[v].Crashed? || Owed(g.workers[v]) == Some(m));
      assert v in g'.workers && (g'.workers[v] == g.workers[v] || g'.workers[v].Crashed?);
    }
  }

  lemma StepKeepsComplete(c: Config, g: State, a: Action, g': State)
    requires Inv(c, g) && Next(c, g, a) == Some(g') && EventsComplete(g)
    ensures EventsComplete(g')
  {
    hide Local, Inv, PcInv, Happened, Logged, Pending;
    forall m | Happened(g'.db, m) ensures Logged(g'.log, m) || Pending(g'.workers, m) {
      if a.Work? {
        InvKnows(c, g, a.worker);
        CrashedIsDone(c, g, a.worker, a.choice);
        WorkKeepsComplete(c, g, a.worker, a.choice, Local(c, g, a.worker, a.choice).value, m);
      } else {
        OthersKeepComplete(c, g, a, g', m);
      }
    }
  }

  lemma {:induction false} EventsAlwaysComplete(c: Config, ss: seq<State>, acts: seq<Action>, i: nat)
    requires Run(c, ss, acts) && Init(ss[0]) && i < |ss|
    ensures EventsComplete(ss[i])
  {
    if i > 0 {
      EventsAlwaysComplete(c, ss, acts, i - 1);
      RunKeepsInv(c, ss, acts, i - 1);
      StepKeepsComplete(c, ss[i - 1], acts[i - 1], ss[i]);
    }
  }

  /** Once every call has returned and none has crashed, the log reports everything: each ride's request, each
      driver it was given, and how it ended. */
  lemma EventLogComplete(c: Config, g: State, r: RideId)
    requires Reachable(c, g) && r in g.db.rides && forall w :: w in g.workers ==> g.workers[w].Done?
    ensures RideRequested(r) in g.log
    ensures g.db.rides[r].driver.Some? ==> DriverAssigned(r, g.db.rides[r].driver.value) in g.log
    ensures g.db.rides[r].status == Cancelled ==> RideEnded(r, Cancel) in g.log
    ensures g.db.rides[r].status == Completed ==> RideEnded(r, Complete) in g.log
  {
    var ss, acts :| Run(c, ss, acts) && Init(ss[0]) && ss[|acts|] == g;
    EventsAlwaysComplete(c, ss, acts, |acts|);
    EventsAlwaysSound(c, ss, acts, |acts|);
    forall stage: Stage | Happened(g.db, Milestone(r, stage)) ensures Logged(g.log, Milestone(r, stage)) {}
    LoggedAsBacked(g, r);
  }

  /** An entry for a milestone of r says what the table says. */
  lemma LoggedAsBacked(g: State, r: RideId)
    requires EventsSound(g) && r in g.db.rides
    ensures Logged(g.log, Milestone(r, Asked)) ==> RideRequested(r) in g.log
    ensures Logged(g.log, Milestone(r, Given)) && g.db.rides[r].driver.Some? ==>
      DriverAssigned(r, g.db.rides[r].driver.value) in g.log
    ensures Logged(g.log, Milestone(r, Over)) ==>
      && (g.db.rides[r].status == Cancelled ==> RideEnded(r, Cancel) in g.log)
      && (g.db.rides[r].status == Completed ==> RideEnded(r, Complete) in g.log)
  {
    forall x | x in g.log && Mark(x).Some? && Mark(x).value.ride == r
      ensures match Mark(x).value.stage
              case Asked => x == RideRequested(r)
              case Given => g.db.rides[r].driver.Some? && x == DriverAssigned(r, g.db.rides[r].driver.value)
              case Over => exists kind :: x == RideEnded(r, kind) && g.db.rides[r].status == EndStatus(kind)
    {
      if x.RideEnded? { assert x == RideEnded(r, x.kind); }
    }
  }
}
