/**
 * The presence registry of the backend: a process-wide JavaScript `Map`
 * from user id to socket id. A `Map` iterates in insertion order, and
 * overwriting an existing key keeps that key's place, so the registry is
 * modelled as a sequence of entries with distinct user ids rather than as a
 * Dafny `map`.
 */
module Presence {
  import opened Wrappers
  import opened Assoc

  type UserId = string
  type SocketId = string

  /** One registry entry: a user id and the socket it joined on. */
  type Entry = (UserId, SocketId)

  /** A `Map` holds at most one entry per key. */
  predicate DistinctUsers(es: seq<Entry>)
  {
    forall i, j :: 0 <= i < j < |es| ==> es[i].0 != es[j].0
  }

  /** Position of the first entry whose socket is `s`, or `|es|` when there is none. */
  function IndexOfSocket(es: seq<Entry>, s: SocketId): (k: nat)
    ensures k <= |es|
    ensures k < |es| ==> es[k].1 == s
    ensures forall j :: 0 <= j < k ==> es[j].1 != s
  {
    if es == [] || es[0].1 == s then 0 else 1 + IndexOfSocket(es[1..], s)
  }

  /** `activeUsers.get(u)`: the socket of the first entry for `u`, or nothing when `u` has none. */
  function Lookup(es: seq<Entry>, u: UserId): (r: Option<SocketId>)
    ensures r.None? <==> forall i :: 0 <= i < |es| ==> es[i].0 != u
    ensures r.Some? ==> exists i :: 0 <= i < |es| && es[i] == (u, r.value)
                                   && forall j :: 0 <= j < i ==> es[j].0 != u
  {
    var k := IndexOfKey(es, u);
    if k < |es| then Some(es[k].1) else None
  }

  /**
   * `activeUsers.set(u, s)`: overwrite `u`'s entry where it stands, or append
   * a new one. Entries of other users keep their places, and the registry
   * grows exactly when `u` was absent.
   */
  function Put(es: seq<Entry>, u: UserId, s: SocketId): (r: seq<Entry>)
    ensures (u, s) in r
    ensures |r| == |es| <==> exists i :: 0 <= i < |es| && es[i].0 == u
    ensures |es| <= |r| <= |es| + 1
    ensures forall i :: 0 <= i < |es| && es[i].0 != u ==> r[i] == es[i]
    ensures forall e :: e in r ==> e == (u, s) || e in es
  {
    var k := IndexOfKey(es, u);
    if k < |es| then
      assert es[k := (u, s)][k] == (u, s);
      es[k := (u, s)]
    else es + [(u, s)]
  }

  /**
   * The loop of `removeActiveUserBySocketId`: delete the first entry, in
   * iteration order, whose socket is `s`, and give back its user id.
   */
  function RemoveBySocket(es: seq<Entry>, s: SocketId): (r: (seq<Entry>, Option<UserId>))
    ensures r.1.None? <==> forall i :: 0 <= i < |es| ==> es[i].1 != s
    ensures r.1.None? ==> r.0 == es
    ensures r.1.Some? ==> exists k ::
              && 0 <= k < |es| && es[k] == (r.1.value, s)
              && (forall j :: 0 <= j < k ==> es[j].1 != s)
              && r.0 == es[..k] + es[k + 1..]
  {
    var k := IndexOfSocket(es, s);
    if k < |es| then (es[..k] + es[k + 1..], Some(es[k].0)) else (es, None)
  }

  /** With distinct keys, `get` returns `s` exactly when the entry `(u, s)` is present. */
  lemma LookupMeaning(es: seq<Entry>, u: UserId)
    requires DistinctUsers(es)
    ensures Lookup(es, u).None? <==> forall i :: 0 <= i < |es| ==> es[i].0 != u
    ensures Lookup(es, u).Some? ==> (u, Lookup(es, u).value) in es
    ensures forall s :: (u, s) in es ==> Lookup(es, u) == Some(s)
  {
    var k := IndexOfKey(es, u);
    if k < |es| {
      assert es[k] == (u, es[k].1);
    }
  }

  /** After `set(u, s)`, `get(u)` is `s` and every other user's lookup is untouched. */
  lemma PutLookup(es: seq<Entry>, u: UserId, s: SocketId, v: UserId)
    ensures Lookup(Put(es, u, s), v) == if v == u then Some(s) else Lookup(es, v)
  {
    var k := IndexOfKey(es, u);
    var r := Put(es, u, s);
    if k < |es| {
      if v == u {
        IndexOfKeyIs(r, u, k);
      } else {
        var kv := IndexOfKey(es, v);
        assert kv != k;
        IndexOfKeyIs(r, v, kv);
      }
    } else {
      if v == u {
        IndexOfKeyIs(r, u, |es|);
      } else {
        var kv := IndexOfKey(es, v);
        IndexOfKeyIs(r, v, if kv < |es| then kv else |es| + 1);
      }
    }
  }

  /** `set` keeps the keys distinct. */
  lemma PutDistinct(es: seq<Entry>, u: UserId, s: SocketId)
    requires DistinctUsers(es)
    ensures DistinctUsers(Put(es, u, s))
  {
  }

  /**
   * Overwriting a registered user keeps that user's position and the number
   * of entries; every other entry stays where it was.
   */
  lemma PutOverwritesInPlace(es: seq<Entry>, u: UserId, s: SocketId, i: nat)
    requires DistinctUsers(es)
    requires i < |es| && es[i].0 == u
    ensures |Put(es, u, s)| == |es|
    ensures Put(es, u, s)[i] == (u, s)
    ensures forall j :: 0 <= j < |es| && j != i ==> Put(es, u, s)[j] == es[j]
  {
    IndexOfKeyIs(es, u, i);
  }

  /** A user not yet registered is added at the end. */
  lemma PutAppendsNewUser(es: seq<Entry>, u: UserId, s: SocketId)
    requires forall i :: 0 <= i < |es| ==> es[i].0 != u
    ensures Put(es, u, s) == es + [(u, s)]
  {
  }

  /** Registering the same pair twice is the same as registering it once. */
  lemma PutIdempotent(es: seq<Entry>, u: UserId, s: SocketId)
    ensures Put(Put(es, u, s), u, s) == Put(es, u, s)
  {
    PutLastWins(es, u, s, s);
  }

  /** Last registration wins: a second `set` for the same user replaces the first one entirely. */
  lemma PutLastWins(es: seq<Entry>, u: UserId, a: SocketId, b: SocketId)
    ensures Put(Put(es, u, a), u, b) == Put(es, u, b)
  {
    var k := IndexOfKey(es, u);
    var r := Put(es, u, a);
    IndexOfKeyIs(r, u, k);
  }

  /** With no entry for socket `s`, removal returns `null` and changes nothing. */
  lemma RemoveAbsent(es: seq<Entry>, s: SocketId)
    requires forall i :: 0 <= i < |es| ==> es[i].1 != s
    ensures RemoveBySocket(es, s) == (es, None)
  {
  }

  /**
   * With some entry for socket `s`, removal deletes exactly the first such
   * entry and returns its user id; the entries before and after it, other
   * users on socket `s` included, are kept in order.
   */
  lemma RemoveFirstMatch(es: seq<Entry>, s: SocketId, k: nat)
    requires k < |es| && es[k].1 == s
    requires forall j :: 0 <= j < k ==> es[j].1 != s
    ensures RemoveBySocket(es, s) == (es[..k] + es[k + 1..], Some(es[k].0))
  {
    assert IndexOfSocket(es, s) == k;
  }

  /** Removal keeps the keys distinct. */
  lemma RemoveDistinct(es: seq<Entry>, s: SocketId)
    requires DistinctUsers(es)
    ensures DistinctUsers(RemoveBySocket(es, s).0)
  {
    var k := IndexOfSocket(es, s);
    if k < |es| {
      var r := es[..k] + es[k + 1..];
      forall i, j | 0 <= i < j < |r| ensures r[i].0 != r[j].0 {
        var i' := if i < k then i else i + 1;
        var j' := if j < k then j else j + 1;
        assert r[i] == es[i'] && r[j] == es[j'];
      }
    }
  }

  /** Deleting the entry at `k` removes that entry's user and keeps every other user's lookup. */
  lemma {:induction false} DeleteAtLookup(es: seq<Entry>, k: nat, v: UserId)
    requires DistinctUsers(es) && k < |es|
    ensures Lookup(es[..k] + es[k + 1..], v) == if es[k].0 == v then None else Lookup(es, v)
  {
    var r := es[..k] + es[k + 1..];
    var kv := IndexOfKey(es, v);
    if kv == k {
      forall j | 0 <= j < |r| ensures r[j].0 != v {
        if j < k {
          assert r[j] == es[..k][j] == es[j];
        } else {
          assert r[j] == es[k + 1..][j - k] == es[j + 1];
        }
      }
      IndexOfKeyIs(r, v, |r|);
    } else if kv < k {
      IndexOfKeyIs(r, v, kv);
    } else {
      forall j | 0 <= j < kv - 1 ensures r[j].0 != v {
        var j' := if j < k then j else j + 1;
        assert r[j] == es[j'];
      }
      if kv < |es| {
        assert r[kv - 1] == es[kv];
      }
      IndexOfKeyIs(r, v, kv - 1);
    }
  }

  /**
   * After removal by socket, the removed user (if any) has no entry and
   * every other user's lookup is what it was.
   */
  lemma RemoveLookup(es: seq<Entry>, s: SocketId, v: UserId)
    requires DistinctUsers(es)
    ensures Lookup(RemoveBySocket(es, s).0, v)
         == if RemoveBySocket(es, s).1 == Some(v) then None else Lookup(es, v)
  {
    var k := IndexOfSocket(es, s);
    if k < |es| {
      DeleteAtLookup(es, k, v);
    }
  }

  /**
   * Stale handle: after `add(u, a)` and then `add(u, b)` with `b != a`, a
   * late `remove(a)` does not return `u` and leaves `u` on `b`; it returns
   * `null` unless some other user is also registered on `a`.
   */
  lemma StaleHandle(es: seq<Entry>, u: UserId, a: SocketId, b: SocketId)
    requires DistinctUsers(es) && a != b
    ensures var (after, removed) := RemoveBySocket(Put(Put(es, u, a), u, b), a);
            && Lookup(after, u) == Some(b)
            && removed != Some(u)
            && ((forall i :: 0 <= i < |es| && es[i].0 != u ==> es[i].1 != a) ==> removed == None)
  {
    var es2 := Put(Put(es, u, a), u, b);
    PutLastWins(es, u, a, b);
    PutDistinct(es, u, b);
    PutLookup(es, u, b, u);
    var k := IndexOfKey(es, u);
    assert IndexOfKey(es2, u) == k by { IndexOfKeyIs(es2, u, k); }
    var ks := IndexOfSocket(es2, a);
    assert ks != k || k == |es|;
    RemoveLookup(es2, a, u);
  }

  /**
   * Register then remove by the same socket leaves the user absent, provided
   * no other user is registered on that socket.
   */
  lemma RegisterThenRemove(es: seq<Entry>, u: UserId, h: SocketId)
    requires DistinctUsers(es)
    requires forall i :: 0 <= i < |es| && es[i].0 != u ==> es[i].1 != h
    ensures Lookup(RemoveBySocket(Put(es, u, h), h).0, u) == None
  {
    var es2 := Put(es, u, h);
    PutDistinct(es, u, h);
    var k := IndexOfKey(es, u);
    var ku := if k < |es| then k else |es|;
    assert es2[ku] == (u, h);
    assert IndexOfSocket(es2, h) == ku;
    RemoveLookup(es2, h, u);
  }

  /**
   * Without that proviso the property fails: when one socket joined under
   * two user ids, a disconnect removes only the first of the two entries.
   */
  lemma SharedSocketRemovesFirstOnly()
    ensures var es := Put(Put([], "v", "h"), "u", "h");
            RemoveBySocket(es, "h") == ([("u", "h")], Some("v"))
            && Lookup(RemoveBySocket(es, "h").0, "u") == Some("h")
  {
    var es := Put(Put([], "v", "h"), "u", "h");
    assert es == [("v", "h"), ("u", "h")];
    assert IndexOfSocket(es, "h") == 0;
    var r := RemoveBySocket(es, "h").0;
    assert r == [("u", "h")];
    assert IndexOfKey(r, "u") == 0;
  }

  /** The `activeUsers` map of `backend/utils/socket.js`. */
  class ActiveUsers {
    var entries: seq<Entry>

    ghost predicate Valid()
      reads this
    {
      DistinctUsers(entries)
    }

    /** The registry starts empty when the server process starts. */
    constructor ()
      ensures Valid() && entries == []
    {
      entries := [];
    }

    /** `addActiveUser`: insert, or overwrite the user's entry in place. */
    method AddActiveUser(userId: UserId, socketId: SocketId)
      requires Valid()
      modifies this
      ensures Valid()
      ensures entries == Put(old(entries), userId, socketId)
      ensures Lookup(entries, userId) == Some(socketId)
      ensures forall v :: v != userId ==> Lookup(entries, v) == Lookup(old(entries), v)
    {
      PutDistinct(entries, userId, socketId);
      forall v {
        PutLookup(entries, userId, socketId, v);
      }
      entries := Put(entries, userId, socketId);
    }

    /** `getSocketId`: the socket registered for the user, if any; the registry is not changed. */
    method GetSocketId(userId: UserId) returns (r: Option<SocketId>)
      requires Valid()
      ensures r.None? <==> forall i :: 0 <= i < |entries| ==> entries[i].0 != userId
      ensures r.Some? ==> (userId, r.value) in entries
      ensures r == Lookup(entries, userId)
    {
      LookupMeaning(entries, userId);
      r := Lookup(entries, userId);
    }

    /**
     * `removeActiveUserBySocketId`: scan the entries in order and delete the
     * first one on `socketId`, returning its user id, or `null` if none is.
     */
    method RemoveActiveUserBySocketId(socketId: SocketId) returns (r: Option<UserId>)
      requires Valid()
      modifies this
      ensures Valid()
      ensures (entries, r) == RemoveBySocket(old(entries), socketId)
      ensures r.None? <==> forall i :: 0 <= i < |old(entries)| ==> old(entries)[i].1 != socketId
      ensures r.None? ==> entries == old(entries)
      ensures r.Some? ==> exists k ::
                && 0 <= k < |old(entries)|
                && old(entries)[k] == (r.value, socketId)
                && entries == old(entries)[..k] + old(entries)[k + 1..]
    {
      var i := 0;
      while i < |entries|
        invariant i <= |entries| && entries == old(entries)
        invariant forall j :: 0 <= j < i ==> entries[j].1 != socketId
      {
        if entries[i].1 == socketId {
          var userId := entries[i].0;
          RemoveFirstMatch(entries, socketId, i);
          RemoveDistinct(entries, socketId);
          entries := entries[..i] + entries[i + 1..];
          return Some(userId);
        }
        i := i + 1;
      }
      return None;
    }

    /** `listActiveUsers`: a snapshot of every entry, in insertion order, one per user. */
    method ListActiveUsers() returns (r: seq<Entry>)
      requires Valid()
      ensures r == entries && DistinctUsers(r)
    {
      r := entries;
    }
  }
}
