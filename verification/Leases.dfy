// Which connection owes which ack, and what closing it releases
// (crates/ehdb-feed/src/claim.rs).

module Leases {
  import opened OrderedKeys
  import opened Groups
  import opened ConsumerGroup

  /** Ownership as the reverse index alone: a record is owed by at most one connection. */
  ghost predicate Inverse(byConn: map<nat, set<nat>>, connOf: map<nat, nat>) {
    && (forall k | k in connOf :: Lists(byConn, connOf[k], k))
    && (forall c, k | Lists(byConn, c, k) :: k in connOf && connOf[k] == c)
  }

  ghost predicate Lists(byConn: map<nat, set<nat>>, c: nat, k: nat) { c in byConn && k in byConn[c] }

  /** Everything `c` owes. */
  ghost function Owed(connOf: map<nat, nat>, c: nat): set<nat> { set k | k in connOf && connOf[k] == c }

  function Dropped(byConn: map<nat, set<nat>>, c: nat, k: nat): map<nat, set<nat>> {
    if c in byConn then byConn[c := byConn[c] - {k}] else byConn
  }

  function Added(byConn: map<nat, set<nat>>, c: nat, k: nat): map<nat, set<nat>> {
    byConn[c := (if c in byConn then byConn[c] else {}) + {k}]
  }

  class LeaseTable {
    var byConn: map<nat, set<nat>>
    var connOf: map<nat, nat>

    ghost predicate Valid() reads this { Inverse(byConn, connOf) }

    constructor ()
      ensures Valid() && connOf == map[]
    {
      byConn, connOf := map[], map[];
    }

    /** A redelivery moves ownership: the previous holder's claim goes first. */
    method Assign(conn: nat, key: nat)
      requires Valid()
      modifies this
      ensures Valid() && connOf == old(connOf)[key := conn]
    {
      if key in connOf && connOf[key] != conn {
        byConn := Dropped(byConn, connOf[key], key);
      }
      connOf := connOf[key := conn];
      byConn := Added(byConn, conn, key);
      MovedIsInverse(old(byConn), old(connOf), conn, key, byConn);
    }

    method Settle(key: nat)
      requires Valid()
      modifies this
      ensures Valid() && connOf == old(connOf) - {key}
    {
      if key in connOf {
        byConn := Dropped(byConn, connOf[key], key);
        connOf := connOf - {key};
        DroppedIsInverse(old(byConn), old(connOf), key);
      } else {
      }
    }

    /** Hands over, once each, exactly the keys the connection owed. */
    method TakeConn(conn: nat) returns (keys: seq<nat>)
      requires Valid()
      modifies this
      ensures Valid()
      ensures connOf == old(connOf) - Owed(old(connOf), conn)
      ensures Ascends(keys, Owed(old(connOf), conn))
    {
      var owed: set<nat> := if conn in byConn then byConn[conn] else {};
      OwedIs(byConn, connOf, conn, owed);
      keys := KeysInOrder(owed);
      byConn := byConn - {conn};
      connOf := connOf - owed;
      TakenIsInverse(old(byConn), old(connOf), conn);
    }
  }

  lemma {:induction false} OwedIs(byConn: map<nat, set<nat>>, connOf: map<nat, nat>, c: nat, owed: set<nat>)
    requires Inverse(byConn, connOf) && owed == if c in byConn then byConn[c] else {}
    ensures owed == Owed(connOf, c)
  {
    forall k ensures k in owed <==> k in Owed(connOf, c) {
      assert k in owed <==> Lists(byConn, c, k);
    }
  }

  lemma {:induction false} MovedIsInverse(byConn: map<nat, set<nat>>, connOf: map<nat, nat>, c: nat, key: nat,
                                          after: map<nat, set<nat>>)
    requires Inverse(byConn, connOf)
    requires after == Added(if key in connOf && connOf[key] != c then Dropped(byConn, connOf[key], key) else byConn, c, key)
    ensures Inverse(after, connOf[key := c])
  {
    var connOf' := connOf[key := c];
    forall d, k ensures Lists(after, d, k) <==> k in connOf' && connOf'[k] == d {
      assert Lists(byConn, d, k) <==> k in connOf && connOf[k] == d;
    }
  }

  lemma {:induction false} DroppedIsInverse(byConn: map<nat, set<nat>>, connOf: map<nat, nat>, key: nat)
    requires Inverse(byConn, connOf) && key in connOf
    ensures Inverse(Dropped(byConn, connOf[key], key), connOf - {key})
  {
    var after := Dropped(byConn, connOf[key], key);
    var connOf' := connOf - {key};
    forall d, k ensures Lists(after, d, k) <==> k in connOf' && connOf'[k] == d {
      assert Lists(byConn, d, k) <==> k in connOf && connOf[k] == d;
    }
  }

  lemma {:induction false} TakenIsInverse(byConn: map<nat, set<nat>>, connOf: map<nat, nat>, c: nat)
    requires Inverse(byConn, connOf)
    ensures Inverse(byConn - {c}, connOf - Owed(connOf, c))
  {
    var after, connOf' := byConn - {c}, connOf - Owed(connOf, c);
    forall d, k ensures Lists(after, d, k) <==> k in connOf' && connOf'[k] == d {
      assert Lists(byConn, d, k) <==> k in connOf && connOf[k] == d;
    }
  }

  // --- releasing a closed connection --------------------------------------------------------

  /** Every key of `keys` still in flight made due at once. */
  ghost function Freed(g: Group, keys: seq<nat>): Group {
    if keys == [] then g else ExpireSpec(Freed(g, keys[..|keys| - 1]), keys[|keys| - 1]).0
  }

  ghost function FreedCount(g: Group, keys: seq<nat>): nat {
    if keys == [] then 0
    else FreedCount(g, keys[..|keys| - 1]) + (if keys[|keys| - 1] in g.inflight then 1 else 0)
  }

  /** Exactly the connection's in-flight records become due, whatever the clock says;
      nothing else moves, and none leaves the group. */
  lemma {:induction false} FreedIsExact(g: Group, keys: seq<nat>, k: nat)
    ensures Freed(g, keys).inflight.Keys == g.inflight.Keys
    ensures Freed(g, keys) == g.(inflight := Freed(g, keys).inflight, bound := Freed(g, keys).bound)
    ensures k in g.inflight ==>
              Freed(g, keys).inflight[k] == if k in keys then g.inflight[k].(deadline := 0) else g.inflight[k]
  {
    if keys != [] {
      var front := keys[..|keys| - 1];
      FreedIsExact(g, front, k);
    }
  }

  class ClaimCoordinator {
    const group: SubjectConsumerGroup
    const leases: LeaseTable

    constructor (group: SubjectConsumerGroup, leases: LeaseTable)
      ensures this.group == group && this.leases == leases
    {
      this.group, this.leases := group, leases;
    }

    /** Connection 0 means no lease tracking. */
    method ReleaseConn(conn: nat) returns (released: nat)
      requires leases.Valid()
      modifies group, leases
      ensures leases.Valid()
      ensures conn == 0 ==> released == 0 && leases.connOf == old(leases.connOf) && group.View() == old(group.View())
      ensures conn != 0 ==>
                && leases.connOf == old(leases.connOf) - Owed(old(leases.connOf), conn)
                && exists keys :: Ascends(keys, Owed(old(leases.connOf), conn))
                                  && group.View() == Freed(old(group.View()), keys)
                                  && released == FreedCount(old(group.View()), keys)
    {
      released := 0;
      if conn == 0 { return; }
      var keys := leases.TakeConn(conn);
      ghost var g := group.View();
      ghost var left := leases.connOf;
      for i := 0 to |keys|
        invariant group.View() == Freed(g, keys[..i])
        invariant released == FreedCount(g, keys[..i])
        invariant leases.Valid() && leases.connOf == left
      {
        FreedIsExact(g, keys[..i], keys[i]);
        var was := group.ExpireNow(keys[i]);
        if was { released := released + 1; }
        assert keys[..i + 1][..i] == keys[..i];
      }
    }

    /** Ack: the lease is settled first, then the record leaves the group. */
    method Ack(key: nat) returns (was: bool)
      requires leases.Valid()
      modifies group, leases
      ensures leases.Valid() && leases.connOf == old(leases.connOf) - {key}
      ensures (group.View(), was) == AckSpec(old(group.View()), key)
    {
      leases.Settle(key);
      was := group.Ack(key);
    }
  }
}
