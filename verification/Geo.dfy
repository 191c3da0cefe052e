/** Ring k around a cell as a difference of two filled disks. */
module Geo {
  import opened Domain

  /** `cells_within_ring`. */
  function Ring(c: Config, centre: Cell, k: nat): set<Cell> {
    if k == 0 then c.disk(centre, 0) else c.disk(centre, k) - c.disk(centre, k - 1)
  }

  /** The rings up to k are disjoint and together make the disk of radius k. */
  lemma {:induction false} RingsPartitionDisk(c: Config, centre: Cell, k: nat, x: Cell)
    requires GeoAssumptions(c)
    ensures x in c.disk(centre, k) <==> exists j: nat :: j <= k && x in Ring(c, centre, j)
    ensures forall i: nat, j: nat :: i < j <= k ==> Ring(c, centre, i) !! Ring(c, centre, j)
  {
    if k > 0 {
      RingsPartitionDisk(c, centre, k - 1, x);
      assert DisksNest(c, centre, k - 1, k);
      forall i: nat | i < k ensures Ring(c, centre, i) !! Ring(c, centre, k) {
        assert DisksNest(c, centre, i, k - 1);
      }
    }
    assert x in Ring(c, centre, k) ==> x in c.disk(centre, k);
  }

  /** One more ring is one more unit of radius. */
  lemma RingStep(c: Config, centre: Cell, k: nat)
    requires GeoAssumptions(c)
    ensures c.disk(centre, k) == Ring(c, centre, k) + (if k == 0 then {} else c.disk(centre, k - 1))
  {
    if k > 0 { assert DisksNest(c, centre, k - 1, k); }
  }
}
