/** While the lock service is honest and no lease expires under an open transaction, the lock alone
    keeps matchers apart: the unique index never rejects a matcher and never makes one wait. */
module Exclusion {
  import opened Domain
  import opened Leases
  import opened Protocol
  import opened Safety
  import opened LeaseSafety

  /** Between taking the lease and the end of the commit. */
  predicate InTransaction(pc: Pc) { pc.MRecheck? || Assigning(pc) }

  /** After the fresh re-check found the driver AVAILABLE. */
  predicate Assigning(pc: Pc) { pc.MUpdate? || pc.MSlot? || pc.MFlush? || pc.MCommit? }

  ghost predicate Polite(g: State, a: Action, g': State) {
    && (a.Work? ==> a.choice.acq == Honest || a.choice.acq == Down)
    && (a.Tick? ==> forall w | w in g.workers && InTransaction(g.workers[w]) ::
          Owns(g, Held(g.workers[w]).value) ==> Owns(g', Held(g.workers[w]).value))
  }

  ghost predicate PoliteRun(c: Config, ss: seq<State>, acts: seq<Action>) {
    Run(c, ss, acts) && forall i :: 0 <= i < |acts| ==> Polite(ss[i], acts[i], ss[i + 1])
  }

  /** An open matcher's lease is still its own and, once re-checked, its driver is still AVAILABLE. */
  predicate Undisturbed(db: Db, locks: Table<DriverId>, pc: Pc) {
    && (InTransaction(pc) ==> var h := Held(pc).value; h.driver in locks && locks[h.driver].token == h.token)
    && (Assigning(pc) ==> pc.driver in db.drivers && db.drivers[pc.driver].status == Available)
  }

  ghost predicate Exclusive(g: State) {
    forall w :: w in g.workers ==> Undisturbed(g.db, g.locks, g.workers[w])
  }

  /** Two matchers with open transactions never work on the same driver. */
  lemma OwnersDiffer(c: Config, g: State, v: WorkerId, w: WorkerId)
    requires TokensSound(c, g) && Exclusive(g) && v in g.workers && w in g.workers && v != w
    requires InTransaction(g.workers[v]) && InTransaction(g.workers[w])
    ensures g.workers[v].driver != g.workers[w].driver
  {}

  lemma OwnStepUndisturbed(c: Config, g: State, w: WorkerId, ch: Choice, e: Effect)
    requires w in g.workers && MatchStep(c, g, w, ch) == Some(e) && ch.acq != RogueGrant
    requires Undisturbed(g.db, g.locks, g.workers[w])
    ensures Undisturbed(e.db, e.locks, e.pc)
  {
    hide Discover, RideRowHeld, SlotHeld, DriverRowHeld, SlotTaken, OneActiveRidePerDriver;
  }

  lemma LeaseKeptByOthers(c: Config, g: State, w: WorkerId, ch: Choice, e: Effect, h: Hold)
    requires w in g.workers && Worked(c, g, w, ch, e) && ch.acq != RogueGrant && Owns(g, h)
    requires Held(g.workers[w]).Some? ==> Held(g.workers[w]).value.token != h.token
    ensures h.driver in e.locks && e.locks[h.driver].token == h.token
  {}

  /** Another worker's statement leaves an open matcher its lease and its driver AVAILABLE. */
  lemma OthersStepUndisturbed(c: Config, g: State, w: WorkerId, ch: Choice, e: Effect, v: WorkerId)
    requires TokensSound(c, g) && Exclusive(g) && w in g.workers && Worked(c, g, w, ch, e)
    requires PcInv(c, g.db, g.workers[w]) && ch.acq != RogueGrant
    requires v in g.workers && v != w
    ensures Undisturbed(e.db, e.locks, g.workers[v])
  {
    hide Local;
    if InTransaction(g.workers[v]) {
      LeaseKeptByOthers(c, g, w, ch, e, Held(g.workers[v]).value);
      CommitForms(c, g, w, ch, e);
      if g.workers[w].MCommit? { OwnersDiffer(c, g, v, w); }
    }
  }

  lemma SelfUndisturbed(c: Config, g: State, w: WorkerId, ch: Choice, e: Effect)
    requires w in g.workers && Worked(c, g, w, ch, e) && ch.acq != RogueGrant
    requires Undisturbed(g.db, g.locks, g.workers[w])
    ensures Undisturbed(e.db, e.locks, e.pc)
  {
    if Matching(g.workers[w]) { OwnStepUndisturbed(c, g, w, ch, e); }
    else { OthersTouchNoLease(c, g, w, ch, e); }
  }

  lemma WorkKeepsExclusive(c: Config, g: State, w: WorkerId, ch: Choice, e: Effect)
    requires TokensSound(c, g) && Exclusive(g) && w in g.workers && Worked(c, g, w, ch, e)
    requires PcInv(c, g.db, g.workers[w]) && ch.acq != RogueGrant
    ensures Exclusive(After(g, w, e))
  {
    SelfUndisturbed(c, g, w, ch, e);
    forall v | v in g.workers && v != w ensures Undisturbed(e.db, e.locks, g.workers[v]) {
      OthersStepUndisturbed(c, g, w, ch, e, v);
    }
  }

  lemma EnvironmentKeepsExclusive(c: Config, g: State, a: Action, g': State)
    requires Exclusive(g) && Next(c, g, a) == Some(g') && Polite(g, a, g') && !a.Work?
    ensures Exclusive(g')
  {}

  lemma StepKeepsExclusive(c: Config, g: State, a: Action, g': State)
    requires Inv(c, g) && TokensSound(c, g) && Exclusive(g) && Next(c, g, a) == Some(g') && Polite(g, a, g')
    ensures Exclusive(g')
  {
    if a.Work? {
      assert PcInv(c, g.db, g.workers[a.worker]);
      WorkKeepsExclusive(c, g, a.worker, a.choice, Local(c, g, a.worker, a.choice).value);
    } else {
      EnvironmentKeepsExclusive(c, g, a, g');
    }
  }

  lemma {:induction false} PoliteRunsExclude(c: Config, ss: seq<State>, acts: seq<Action>, i: nat)
    requires PoliteRun(c, ss, acts) && i < |ss|
    requires Inv(c, ss[0]) && TokensSound(c, ss[0]) && Exclusive(ss[0])
    ensures Inv(c, ss[i]) && TokensSound(c, ss[i]) && Exclusive(ss[i])
  {
    if i > 0 {
      PoliteRunsExclude(c, ss, acts, i - 1);
      StepKeepsInv(c, ss[i - 1], acts[i - 1], ss[i]);
      StepKeepsTokens(c, ss[i - 1], acts[i - 1], ss[i]);
      StepKeepsExclusive(c, ss[i - 1], acts[i - 1], ss[i]);
    }
  }

  lemma SlotIsFree(c: Config, g: State, w: WorkerId)
    requires Inv(c, g) && TokensSound(c, g) && Exclusive(g) && w in g.workers && Assigning(g.workers[w])
    ensures !SlotHeld(g, w, g.workers[w].driver)
    ensures forall r :: !Names(g.db, r, g.workers[w].driver)
  {
    var d := g.workers[w].driver;
    assert forall r :: !Names(g.db, r, d);
    if SlotHeld(g, w, d) {
      var v :| v in g.workers && v != w && Slot(g.db, g.workers[v]) == Some(d);
      assert PcInv(c, g.db, g.workers[v]);
      if g.workers[v].MFlush? || g.workers[v].MCommit? { OwnersDiffer(c, g, v, w); }
      else { assert Names(g.db, g.workers[v].ride, d); }
    }
  }

  /** The index check of a matcher's UPDATE passes at once, with every kind of traffic and any
      number of crashes around it. */
  lemma IndexNeverRejectsOrBlocks(c: Config, ss: seq<State>, acts: seq<Action>, i: nat, w: WorkerId, ch: Choice)
    requires PoliteRun(c, ss, acts) && Init(ss[0]) && i < |ss| && w in ss[i].workers && ss[i].workers[w].MSlot?
    ensures var pc := ss[i].workers[w];
      Local(c, ss[i], w, ch) == Some(Go(ss[i], MFlush(pc.ride, pc.rest, pc.driver, pc.token)))
  {
    PoliteRunsExclude(c, ss, acts, i);
    SlotIsFree(c, ss[i], w);
  }
}
