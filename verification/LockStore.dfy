/** The Redis lock primitive as one caller at a time sees it. */
module LockStore {
  import opened Domain
  import opened Leases

  /** `lock:driver:{id}`. */
  datatype LockKey = LockDriver(id: DriverId)

  datatype Reply = Granted(token: Token) | Contended | Unreachable

  class Redis {
    var entries: Table<LockKey>
    var now: int
    var up: bool
    var minted: Token
    const quiet: bool
    ghost var open: set<Token>    // granted and not yet given back by the grantee

    /** Tokens are fresh and every stored key has time left. */
    ghost predicate Valid() reads this {
      && (forall k :: k in entries ==> entries[k].token < minted && now < entries[k].expiry)
      && (forall t :: t in open ==> t < minted)
    }

    constructor (quiet: bool)
      ensures Valid() && entries == map[] && up && open == {} && this.quiet == quiet
    {
      entries, now, up, minted, open := map[], 0, true, 0, {};
      this.quiet := quiet;
    }

    /** Other clients take and return keys, keys expire, the server goes down or comes back. The body
        does nothing: a caller knows only that its own record of open leases is its own. */
    method OthersRun()
      requires Valid()
      modifies this`entries, this`now, this`up, this`minted
      ensures Valid() && open == old(open)
      ensures quiet ==> entries == old(entries) && up == old(up)
    {}

    /** `acquire_lock`: one atomic SET NX PX. */
    method Acquire(key: LockKey, ttl: nat) returns (reply: Reply)
      requires Valid() && ttl > 0
      modifies this`entries, this`minted, this`open
      ensures Valid() && minted >= old(minted)
      ensures reply.Unreachable? <==> !up
      ensures reply.Contended? <==> up && key in old(entries)
      ensures reply.Granted? ==> key !in old(entries) && entries == old(entries)[key := Lease(reply.token, now + ttl)]
      ensures reply.Granted? ==> reply.token !in old(open) && open == old(open) + {reply.token}
      ensures !reply.Granted? ==> entries == old(entries) && open == old(open)
    {
      if !up { return Unreachable; }
      var token := minted;
      minted := minted + 1;
      if key in entries { return Contended; }
      entries := Grant(entries, key, token, now, ttl);
      open := open + {token};
      return Granted(token);
    }

    /** `release_lock`: the compare-and-delete script. A lease is given back once. */
    method Release(key: LockKey, token: Token) returns (deleted: bool)
      requires Valid() && token in open
      modifies this`entries, this`open
      ensures Valid() && open == old(open) - {token}
      ensures deleted <==> key in old(entries) && old(entries)[key].token == token
      ensures entries == if deleted then old(entries) - {key} else old(entries)
    {
      deleted := key in entries && entries[key].token == token;
      entries := Leases.Release(entries, key, token);
      open := open - {token};
    }
  }
}
