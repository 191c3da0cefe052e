/** The expiring lock table: `SET key token NX PX ttl` and the compare-and-delete release. */
module Leases {
  type Token = nat
  datatype Lease = Lease(token: Token, expiry: int)
  type Table<!K> = map<K, Lease>

  /** Binds the key whatever it held before; the honest caller checks that it is free. */
  function Grant<K>(t: Table<K>, key: K, token: Token, now: int, ttl: nat): Table<K> {
    t[key := Lease(token, now + ttl)]
  }

  /** The release script: delete only when the stored token is ours. */
  function Release<K>(t: Table<K>, key: K, token: Token): Table<K> {
    if key in t && t[key].token == token then t - {key} else t
  }

  /** Every binding whose time has come is gone. */
  function Expire<K>(t: Table<K>, now: int): Table<K> {
    map k | k in t && t[k].expiry > now :: t[k]
  }
}
