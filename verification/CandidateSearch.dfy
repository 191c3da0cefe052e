/** Candidate discovery as the matcher runs it: rings are queried outward into a dictionary until it
    holds the target number of drivers, then the dictionary is ranked by distance. */
module CandidateSearch {
  import opened Domain
  import opened Geo
  import opened Candidates
  import opened Persistence
  import opened Ranking
  import opened Counting

  /** The places the ranking measures to: those of the objects the session holds. */
  predicate PlacesSeen(loaded: map<DriverId, Driver>, found: map<DriverId, Place>) {
    forall d :: d in found ==> d in loaded && found[d] == loaded[d].place
  }

  /** Whatever the session holds it held before or has read from the table since. */
  predicate LoadedSince(before: map<DriverId, Driver>, now: map<DriverId, Driver>, table: map<DriverId, Driver>) {
    forall d :: d in now ==> (d in before && now[d] == before[d]) || (d in table && now[d] == table[d])
  }

  /** The candidate's distance is the one from the pickup point to place p. */
  predicate AtDistanceOf(c: Config, req: Request, x: Candidate, p: Place) {
    x.km == c.distance(req.lat, req.lng, p.lat, p.lng)
  }

  /** `rank_candidates` over the values of the dictionary. */
  method RankCandidates(c: Config, req: Request, found: map<DriverId, Place>) returns (ranked: seq<Candidate>)
    ensures Sorted(ranked) && NoDuplicates(Ids(ranked))
    ensures forall x :: x in ranked ==>
      x.driver in found && x.km == c.distance(req.lat, req.lng, found[x.driver].lat, found[x.driver].lng)
    ensures forall d :: d in found ==> Candidate(d, Distance(c, req, found[d])) in ranked
  {
    var pairs: seq<Candidate> := [];
    var rest := found.Keys;
    while rest != {}
      invariant rest <= found.Keys && NoDuplicates(Ids(pairs))
      invariant forall x :: x in pairs ==>
        x.driver in found && x.driver !in rest && x.km == Distance(c, req, found[x.driver])
      invariant forall d :: d in found && d !in rest ==> Candidate(d, Distance(c, req, found[d])) in pairs
      decreases rest
    {
      var d :| d in rest;
      pairs := pairs + [Candidate(d, Distance(c, req, found[d]))];
      rest := rest - {d};
    }
    ranked := StableSort(pairs);
    SortKeepsDistinct(pairs);
    SortedMembers(pairs);
  }

  lemma SortedMembers(s: seq<Candidate>)
    ensures forall x :: x in StableSort(s) <==> x in s
  {
    forall x ensures x in StableSort(s) <==> x in s {
      assert x in StableSort(s) <==> x in multiset(StableSort(s));
    }
  }

  /** The drivers that queries of the rings 0, 1, ... return, each seeing the tables of its own moment. */
  function Gathered(c: Config, req: Request, seen: seq<Db>): set<DriverId> {
    if seen == [] then {}
    else
      var k := |seen| - 1;
      Gathered(c, req, seen[..k]) + AvailableRows(seen[k], Ring(c, Centre(c, req), k))
  }

  /** No ring so far has brought the target number. */
  predicate Seeking(c: Config, req: Request, seen: seq<Db>) {
    forall j :: 0 < j <= |seen| ==> |Gathered(c, req, seen[..j])| < c.target
  }

  /** The last ring brought the target number, which no earlier one had, or is the largest. */
  predicate Stopped(c: Config, req: Request, seen: seq<Db>) {
    && 0 < |seen| <= c.maxRing + 1 && Seeking(c, req, seen[..|seen| - 1])
    && (|Gathered(c, req, seen)| >= c.target || |seen| == c.maxRing + 1)
  }

  predicate AllSame(seen: seq<Db>, db: Db) { forall i :: 0 <= i < |seen| ==> seen[i] == db }

  lemma SameGrows(seen: seq<Db>, db: Db)
    ensures AllSame([], db) && (AllSame(seen, db) ==> AllSame(seen + [db], db))
  {}

  lemma OneMoreRing(c: Config, req: Request, seen: seq<Db>, db: Db)
    ensures Gathered(c, req, seen + [db])
         == Gathered(c, req, seen) + AvailableRows(db, Ring(c, Centre(c, req), |seen|))
  {
    hide AvailableRows, Ring, Centre;
    assert (seen + [db])[..|seen|] == seen;
  }

  lemma SeeksOn(c: Config, req: Request, seen: seq<Db>, db: Db)
    requires Seeking(c, req, seen) && |Gathered(c, req, seen + [db])| < c.target
    ensures Seeking(c, req, seen + [db])
  {
    hide Gathered;
    var more := seen + [db];
    forall j | 0 < j <= |more| ensures |Gathered(c, req, more[..j])| < c.target {
      if j <= |seen| { assert more[..j] == seen[..j]; } else { assert more[..j] == more; }
    }
  }

  lemma RingGathered(c: Config, req: Request, seen: seq<Db>, db: Db)
    requires Seeking(c, req, seen)
    ensures var more := seen + [db];
      && Gathered(c, req, more) == Gathered(c, req, seen) + AvailableRows(db, Ring(c, Centre(c, req), |seen|))
      && (|Gathered(c, req, more)| < c.target ==> Seeking(c, req, more))
      && (|seen| <= c.maxRing && (|Gathered(c, req, more)| >= c.target || |seen| == c.maxRing) ==>
            Stopped(c, req, more))
  {
    hide Gathered, Seeking, AvailableRows, Ring, Centre;
    OneMoreRing(c, req, seen, db);
    if |Gathered(c, req, seen + [db])| < c.target { SeeksOn(c, req, seen, db); }
    assert (seen + [db])[..|seen|] == seen;
  }

  lemma {:induction false} SameGathers(c: Config, req: Request, seen: seq<Db>, db: Db)
    requires GeoAssumptions(c) && AllSame(seen, db)
    ensures Gathered(c, req, seen) == if seen == [] then {} else Within(c, db, req, |seen| - 1)
  {
    hide GeoAssumptions, AvailableRows, Ring, Centre, Within;
    if seen != [] {
      var k := |seen| - 1;
      SameGathers(c, req, seen[..k], db);
      RingCompletes(c, db, req, k);
    }
  }

  /** When the tables stay as they are, ring expansion is a disk filter: it stops at the smallest disk with
      the target number of AVAILABLE drivers, or at the full disk, having gathered exactly those in it. */
  lemma RingsMakeDisk(c: Config, req: Request, seen: seq<Db>, db: Db)
    requires GeoAssumptions(c) && AllSame(seen, db) && Stopped(c, req, seen)
    ensures StopsAt(c, db, req, |seen| - 1) && Gathered(c, req, seen) == Within(c, db, req, |seen| - 1)
  {
    hide GeoAssumptions, Gathered, Within;
    SameGathers(c, req, seen, db);
    forall j: nat | j < |seen| - 1 ensures |Within(c, db, req, j)| < c.target {
      assert seen[..|seen| - 1][..j + 1] == seen[..j + 1];
      SameGathers(c, req, seen[..j + 1], db);
    }
  }

  lemma QueryKeeps(start: map<DriverId, Driver>, before: map<DriverId, Driver>, now: map<DriverId, Driver>,
                   table: map<DriverId, Driver>, found: map<DriverId, Place>, rows: map<DriverId, Place>)
    requires PlacesSeen(before, found) && QueryLoads(table, before, now, rows)
    ensures PlacesSeen(now, found + rows)
    ensures LoadedSince(start, before, table) ==> LoadedSince(start, now, table)
  {}

  /** The ring-expansion loop of `find_ranked_candidates`, with other clients committing between its
      queries; `seen` is what the tables were at each of them. */
  method Discover(s: Session, c: Config, req: Request) returns (candidates: map<DriverId, Place>, ghost seen: seq<Db>)
    requires s.Valid() && Agreement(s.store.db)
    modifies s`loaded, s`asRead, s.store
    ensures s.Valid() && (old(s.NothingPending()) ==> s.NothingPending())
    ensures Agreement(s.store.db) && old(s.store.db).rides.Keys <= s.store.db.rides.Keys
    ensures Stopped(c, req, seen) && candidates.Keys == Gathered(c, req, seen) && PlacesSeen(s.loaded, candidates)
    ensures s.store.quiet ==>
      && s.store.db == old(s.store.db) && AllSame(seen, s.store.db)
      && LoadedSince(old(s.loaded), s.loaded, s.store.db.drivers)
  {
    hide *;
    ghost var db, start, idle := s.store.db, s.loaded, s.NothingPending();
    candidates, seen := map[], [];
    NothingYet(c, req, start, db.drivers);
    SameGrows(seen, db);
    for k := 0 to c.maxRing + 1
      invariant s.Valid() && Agreement(s.store.db) && db.rides.Keys <= s.store.db.rides.Keys
      invariant idle ==> s.NothingPending()
      invariant |seen| == k && candidates.Keys == Gathered(c, req, seen) && PlacesSeen(s.loaded, candidates)
      invariant k <= c.maxRing ==> Seeking(c, req, seen)
      invariant k == c.maxRing + 1 ==> Stopped(c, req, seen)
      invariant s.store.quiet ==>
        s.store.db == db && AllSame(seen, db) && LoadedSince(start, s.loaded, db.drivers)
    {
      s.store.OthersCommit({}, {});
      ghost var before := s.loaded;
      var rows := s.AvailableIn(Ring(c, Centre(c, req), k));
      QueryKeeps(start, before, s.loaded, s.store.db.drivers, candidates, rows);
      RingGathered(c, req, seen, s.store.db);
      SameGrows(seen, s.store.db);
      candidates, seen := candidates + rows, seen + [s.store.db];
      if |candidates.Keys| >= c.target { break; }
    }
  }

  lemma NothingYet(c: Config, req: Request, start: map<DriverId, Driver>, table: map<DriverId, Driver>)
    ensures Gathered(c, req, []) == {} && Seeking(c, req, [])
    ensures PlacesSeen(start, map[]) && LoadedSince(start, start, table)
  {}

  /** `find_ranked_candidates`. */
  method FindRankedCandidates(s: Session, c: Config, req: Request) returns (ranked: seq<Candidate>, ghost seen: seq<Db>)
    requires s.Valid() && Agreement(s.store.db) && GeoAssumptions(c)
    modifies s`loaded, s`asRead, s.store
    ensures s.Valid() && (old(s.NothingPending()) ==> s.NothingPending())
    ensures Agreement(s.store.db) && old(s.store.db).rides.Keys <= s.store.db.rides.Keys
    ensures Stopped(c, req, seen) && forall d :: d in Ids(ranked) <==> d in Gathered(c, req, seen)
    ensures Sorted(ranked) && NoDuplicates(Ids(ranked))
    ensures forall x | x in ranked ::
      x.driver in s.loaded && AtDistanceOf(c, req, x, s.loaded[x.driver].place)
    ensures s.store.quiet ==>
      && s.store.db == old(s.store.db) && LoadedSince(old(s.loaded), s.loaded, s.store.db.drivers)
      && 0 < |seen| && StopsAt(c, s.store.db, req, |seen| - 1)
      && forall d :: d in Ids(ranked) <==> d in Within(c, s.store.db, req, |seen| - 1)
  {
    hide Agreement, Within, Gathered, StopsAt, Stopped, Sorted, NoDuplicates, LoadedSince, GeoAssumptions;
    var candidates;
    candidates, seen := Discover(s, c, req);
    ranked := RankCandidates(c, req, candidates);
    IdsOfRanked(c, req, candidates, ranked);
    if s.store.quiet {
      RingsMakeDisk(c, req, seen, s.store.db);
      StoppedSomewhere(c, req, seen);
    }
  }

  lemma StoppedSomewhere(c: Config, req: Request, seen: seq<Db>)
    requires Stopped(c, req, seen)
    ensures seen != []
  {}

  lemma IdsOfRanked(c: Config, req: Request, found: map<DriverId, Place>, ranked: seq<Candidate>)
    requires forall x :: x in ranked ==> x.driver in found
    requires forall d :: d in found ==> Candidate(d, Distance(c, req, found[d])) in ranked
    ensures forall d :: d in Ids(ranked) <==> d in found
  {}

  lemma RingCompletes(c: Config, db: Db, req: Request, k: nat)
    requires GeoAssumptions(c)
    ensures Within(c, db, req, k) == (if k == 0 then {} else Within(c, db, req, k - 1))
      + AvailableRows(db, Ring(c, Centre(c, req), k))
  {
    forall d | d in db.drivers && db.drivers[d].status == Available
      ensures d in Within(c, db, req, k) <==>
        (db.drivers[d].place.cell in Ring(c, Centre(c, req), k) || (k > 0 && d in Within(c, db, req, k - 1)))
    {
      RingCompletesDisk(c, db, req, k, d);
    }
  }
}
