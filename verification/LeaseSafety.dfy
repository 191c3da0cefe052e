/** What the Redis lock does and does not guarantee: who may remove a lease, that every lease taken
    is given back exactly once, and what mutual exclusion buys while leases outlive transactions. */
module LeaseSafety {
  import opened Domain
  import opened Leases
  import opened Protocol
  import opened Safety

  datatype Hold = Hold(driver: DriverId, token: Token)

  /** The lease a matcher has taken and not yet tried to release. */
  function Held(pc: Pc): Option<Hold> {
    match pc
    case MRecheck(_, _, d, t) => Some(Hold(d, t))
    case MUpdate(_, _, d, t) => Some(Hold(d, t))
    case MSlot(_, _, d, t) => Some(Hold(d, t))
    case MFlush(_, _, d, t) => Some(Hold(d, t))
    case MCommit(_, _, d, t) => Some(Hold(d, t))
    case MEmit(_, _, d, t) => Some(Hold(d, t))
    case MRelease(_, _, d, t, _) => Some(Hold(d, t))
    case _ => None
  }

  predicate Owns(g: State, h: Hold) { h.driver in g.locks && g.locks[h.driver].token == h.token }

  /** Tokens are never reused and no lease outlasts the TTL. */
  ghost predicate TokensSound(c: Config, g: State) {
    && (forall d :: d in g.locks ==> g.locks[d].token < g.minted && g.locks[d].expiry <= g.clock + c.ttl)
    && (forall w :: w in g.workers && Held(g.workers[w]).Some? ==> Held(g.workers[w]).value.token < g.minted)
    && (forall v, w | v in g.workers && w in g.workers && v != w
                      && Held(g.workers[v]).Some? && Held(g.workers[w]).Some? ::
          Held(g.workers[v]).value.token != Held(g.workers[w]).value.token)
    && (forall w, d | w in g.workers && Held(g.workers[w]).Some? && d in g.locks ::
          g.locks[d].token == Held(g.workers[w]).value.token ==> d == Held(g.workers[w]).value.driver)
  }

  /** One statement touches the lock table only by taking a lease under a new token or by releasing
      the lease its worker holds. */
  lemma MatcherTouchesOwnLease(c: Config, g: State, w: WorkerId, ch: Choice, e: Effect)
    requires w in g.workers && MatchStep(c, g, w, ch) == Some(e)
    ensures var pc := g.workers[w];
      || (e.locks == g.locks && Held(e.pc) == Held(pc)
          && e.said == (if pc.MEmit? then [DriverAssigned(pc.ride, pc.driver)] else []))
      || (pc.MLoop? && pc.rest != [] && Held(pc).None?
          && Held(e.pc) == Some(Hold(pc.rest[0], g.minted)) && e.pc.MRecheck?
          && e.locks == Grant(g.locks, pc.rest[0], g.minted, g.clock, c.ttl)
          && e.said == [LeaseTaken(w, pc.rest[0], g.minted)]
          && (ch.acq == Honest ==> pc.rest[0] !in g.locks))
      || (pc.MRelease? && Held(e.pc).None? && e.locks == Release(g.locks, pc.driver, pc.token)
          && e.said == [LeaseReturned(w, pc.driver, pc.token)])
  {}

  lemma OthersTouchNoLease(c: Config, g: State, w: WorkerId, ch: Choice, e: Effect)
    requires w in g.workers && Worked(c, g, w, ch, e) && !Matching(g.workers[w])
    ensures e.locks == g.locks && Held(g.workers[w]).None? && Held(e.pc).None?
    ensures forall x :: x in e.said ==> !x.LeaseTaken? && !x.LeaseReturned?
  {}

  /** Gathers the two: what a step of any worker does to leases. */
  ghost predicate TouchesOwnLease(c: Config, g: State, w: WorkerId, e: Effect, honest: bool)
    requires w in g.workers
  {
    var h, h' := Held(g.workers[w]), Held(e.pc);
    || (e.locks == g.locks && h' == h && (forall x :: x in e.said ==> !x.LeaseTaken? && !x.LeaseReturned?))
    || (h.None? && h'.Some? && h'.value.token == g.minted
        && e.locks == Grant(g.locks, h'.value.driver, g.minted, g.clock, c.ttl)
        && e.said == [LeaseTaken(w, h'.value.driver, g.minted)]
        && (honest ==> h'.value.driver !in g.locks))
    || (g.workers[w].MRelease? && h.Some? && h'.None?
        && e.locks == Release(g.locks, h.value.driver, h.value.token)
        && e.said == [LeaseReturned(w, h.value.driver, h.value.token)])
  }

  lemma WorkerTouchesOwnLease(c: Config, g: State, w: WorkerId, ch: Choice, e: Effect)
    requires w in g.workers && Worked(c, g, w, ch, e)
    ensures TouchesOwnLease(c, g, w, e, ch.acq == Honest)
  {
    if Matching(g.workers[w]) { MatcherTouchesOwnLease(c, g, w, ch, e); }
    else { OthersTouchNoLease(c, g, w, ch, e); }
  }

  lemma WorkKeepsTokens(c: Config, g: State, w: WorkerId, e: Effect, honest: bool)
    requires TokensSound(c, g) && w in g.workers && TouchesOwnLease(c, g, w, e, honest)
    ensures TokensSound(c, After(g, w, e))
  {}

  lemma IdleKeepsTokens(c: Config, g: State, w: WorkerId, pc: Pc)
    requires TokensSound(c, g) && Held(pc).None?
    ensures TokensSound(c, g.(workers := g.workers[w := pc]))
  {}

  lemma StepKeepsTokens(c: Config, g: State, a: Action, g': State)
    requires TokensSound(c, g) && Next(c, g, a) == Some(g')
    ensures TokensSound(c, g')
  {
    if a.Work? {
      var e := Local(c, g, a.worker, a.choice).value;
      WorkerTouchesOwnLease(c, g, a.worker, a.choice, e);
      WorkKeepsTokens(c, g, a.worker, e, a.choice.acq == Honest);
    } else if a.Crash? {
      IdleKeepsTokens(c, g, a.worker, Crashed);
    } else if a.Arrive? {
      IdleKeepsTokens(c, g, a.worker, a.call);
    }
  }

  lemma {:induction false} TokensAlwaysSound(c: Config, ss: seq<State>, acts: seq<Action>, i: nat)
    requires Run(c, ss, acts) && TokensSound(c, ss[0]) && i < |ss|
    ensures TokensSound(c, ss[i])
  {
    if i > 0 {
      TokensAlwaysSound(c, ss, acts, i - 1);
      StepKeepsTokens(c, ss[i - 1], acts[i - 1], ss[i]);
    }
  }

  lemma ReachableTokens(c: Config, g: State)
    requires Reachable(c, g)
    ensures TokensSound(c, g)
  {
    var ss, acts :| Run(c, ss, acts) && Init(ss[0]) && ss[|acts|] == g;
    TokensAlwaysSound(c, ss, acts, |acts|);
  }

  /** A bound lease disappears only because its own owner released it or because its time had come
      (unless the lock service misbehaves and grants the key twice): a stale holder's release never
      frees its successor. */
  lemma LeaseRemovedOnlyByOwnerOrTime(c: Config, g: State, a: Action, g': State, d: DriverId)
    requires Next(c, g, a) == Some(g') && d in g.locks && (a.Work? ==> a.choice.acq != RogueGrant)
    ensures (d in g'.locks && g'.locks[d] == g.locks[d])
         || (d !in g'.locks && a.Tick? && g.locks[d].expiry <= g'.clock)
         || (d !in g'.locks && a.Work? && g.workers[a.worker].MRelease?
             && Held(g.workers[a.worker]) == Some(Hold(d, g.locks[d].token)))
  {
    if a.Work? {
      var e := Local(c, g, a.worker, a.choice).value;
      if Matching(g.workers[a.worker]) { MatcherTouchesOwnLease(c, g, a.worker, a.choice, e); }
      else { OthersTouchNoLease(c, g, a.worker, a.choice, e); }
    }
  }

  // Every lease taken is given back exactly once.

  /** No token is taken twice or returned twice. */
  ghost predicate TokensOnce(log: seq<Entry>, minted: Token) {
    && (forall i :: 0 <= i < |log| && log[i].LeaseTaken? ==> log[i].token < minted)
    && (forall i, j :: 0 <= i < j < |log| && log[i].LeaseTaken? && log[j].LeaseTaken? ==> log[i].token != log[j].token)
    && (forall i, j | 0 <= i < j < |log| && log[i].LeaseReturned? && log[j].LeaseReturned? ::
          log[i].token != log[j].token)
  }

  /** The log and the workers agree on which leases are still held. */
  ghost predicate Ledger(log: seq<Entry>, workers: map<WorkerId, Pc>) {
    && (forall x :: x in log && x.LeaseReturned? ==> LeaseTaken(x.worker, x.driver, x.token) in log)
    && (forall w :: w in workers ==> HeldIsOpen(log, w, workers[w]))
    && (forall x :: x in log && x.LeaseTaken? ==>
          x.worker in workers && TakenIsKept(log, x, workers[x.worker]))
  }

  predicate HeldIsOpen(log: seq<Entry>, w: WorkerId, pc: Pc) {
    Held(pc).Some? ==>
      var h := Held(pc).value;
      LeaseTaken(w, h.driver, h.token) in log && LeaseReturned(w, h.driver, h.token) !in log
  }

  predicate TakenIsKept(log: seq<Entry>, x: Entry, pc: Pc)
    requires x.LeaseTaken?
  {
    pc.Crashed? || Held(pc) == Some(Hold(x.driver, x.token)) || LeaseReturned(x.worker, x.driver, x.token) in log
  }

  ghost predicate AccountsClosed(g: State) {
    TokensOnce(g.log, g.minted) && Ledger(g.log, g.workers)
  }

  lemma QuietWorkKeepsAccounts(log: seq<Entry>, minted: Token, workers: map<WorkerId, Pc>, w: WorkerId, pc: Pc,
                               said: seq<Entry>)
    requires TokensOnce(log, minted) && Ledger(log, workers)
    requires w in workers && !workers[w].Crashed? && Held(pc) == Held(workers[w])
    requires forall x :: x in said ==> !x.LeaseTaken? && !x.LeaseReturned?
    ensures TokensOnce(log + said, minted + 1) && Ledger(log + said, workers[w := pc])
  {}

  lemma TakingKeepsAccounts(log: seq<Entry>, minted: Token, workers: map<WorkerId, Pc>, w: WorkerId, pc: Pc,
                            d: DriverId)
    requires TokensOnce(log, minted) && Ledger(log, workers)
    requires w in workers && !workers[w].Crashed? && Held(workers[w]).None? && Held(pc) == Some(Hold(d, minted))
    ensures TokensOnce(log + [LeaseTaken(w, d, minted)], minted + 1)
    ensures Ledger(log + [LeaseTaken(w, d, minted)], workers[w := pc])
  {
    hide Held;
    assert LeaseReturned(w, d, minted) in log ==> LeaseTaken(w, d, minted) in log;
  }

  lemma ReturningKeepsAccounts(log: seq<Entry>, minted: Token, workers: map<WorkerId, Pc>, w: WorkerId, pc: Pc, h: Hold)
    requires TokensOnce(log, minted) && Ledger(log, workers)
    requires w in workers && Held(workers[w]) == Some(h) && Held(pc).None?
    ensures TokensOnce(log + [LeaseReturned(w, h.driver, h.token)], minted + 1)
    ensures Ledger(log + [LeaseReturned(w, h.driver, h.token)], workers[w := pc])
  {}

  lemma IdleKeepsAccounts(log: seq<Entry>, workers: map<WorkerId, Pc>, w: WorkerId, pc: Pc)
    requires Ledger(log, workers) && Held(pc).None? && (w in workers ==> pc.Crashed?)
    ensures Ledger(log, workers[w := pc])
  {}

  lemma WorkKeepsAccounts(c: Config, g: State, w: WorkerId, e: Effect)
    requires AccountsClosed(g) && w in g.workers && !g.workers[w].Crashed? && TouchesOwnLease(c, g, w, e, false)
    ensures AccountsClosed(After(g, w, e))
  {
    if Held(e.pc) == Held(g.workers[w]) { QuietWorkKeepsAccounts(g.log, g.minted, g.workers, w, e.pc, e.said); }
    else if Held(e.pc).Some? { TakingKeepsAccounts(g.log, g.minted, g.workers, w, e.pc, Held(e.pc).value.driver); }
    else { ReturningKeepsAccounts(g.log, g.minted, g.workers, w, e.pc, Held(g.workers[w]).value); }
  }

  lemma StepKeepsAccounts(c: Config, g: State, a: Action, g': State)
    requires AccountsClosed(g) && Next(c, g, a) == Some(g')
    ensures AccountsClosed(g')
  {
    if a.Work? {
      var e := Local(c, g, a.worker, a.choice).value;
      WorkerTouchesOwnLease(c, g, a.worker, a.choice, e);
      WorkKeepsAccounts(c, g, a.worker, e);
    } else if a.Crash? {
      IdleKeepsAccounts(g.log, g.workers, a.worker, Crashed);
    } else if a.Arrive? {
      IdleKeepsAccounts(g.log, g.workers, a.worker, a.call);
    }
  }

  lemma {:induction false} AccountsAlwaysClosed(c: Config, ss: seq<State>, acts: seq<Action>, i: nat)
    requires Run(c, ss, acts) && Init(ss[0]) && i < |ss|
    ensures AccountsClosed(ss[i])
  {
    if i > 0 {
      AccountsAlwaysClosed(c, ss, acts, i - 1);
      StepKeepsAccounts(c, ss[i - 1], acts[i - 1], ss[i]);
    }
  }

  /** A call that ended without crashing has released every lease it took, with the token it was
      given, exactly once. */
  lemma EveryLeaseReturnedOnce(c: Config, g: State, w: WorkerId, d: DriverId, t: Token)
    requires Reachable(c, g) && LeaseTaken(w, d, t) in g.log
    ensures w in g.workers && (g.workers[w].Done? ==> LeaseReturned(w, d, t) in g.log)
    ensures forall i, j | 0 <= i < |g.log| && 0 <= j < |g.log| ::
      g.log[i] == LeaseReturned(w, d, t) == g.log[j] ==> i == j
  {
    var ss, acts :| Run(c, ss, acts) && Init(ss[0]) && ss[|acts|] == g;
    AccountsAlwaysClosed(c, ss, acts, |acts|);
  }
}
