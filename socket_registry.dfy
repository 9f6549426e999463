/** The process-wide user-to-socket registry of backend/src/sockets/socket.ts.

    `userSocketMap` is a JavaScript object used as a dictionary; `Object.entries` lists
    its keys in insertion order, an assignment to an existing key keeps that key's place,
    and a key deleted and added again goes to the end. The model is therefore an ordered
    association list without repeated users. */
module SocketRegistry {
  import opened Wrappers

  type UserId = string
  type SocketId = string

  datatype Entry = Entry(user: UserId, socket: SocketId)

  /** No user occurs twice: the keys of a dictionary. */
  predicate DistinctUsers(e: seq<Entry>) {
    forall i, j :: 0 <= i < j < |e| ==> e[i].user != e[j].user
  }

  /** `userSocketMap[u]` */
  function Lookup(e: seq<Entry>, u: UserId): (r: Option<SocketId>)
    ensures r.Some? ==> Entry(u, r.value) in e
    ensures r.None? ==> forall i :: 0 <= i < |e| ==> e[i].user != u
  {
    if e == [] then None
    else if e[0].user == u then Some(e[0].socket)
    else Lookup(e[1..], u)
  }

  /** `userSocketMap[u] = s`: overwrite in place, or append a new key at the end. */
  function Assign(e: seq<Entry>, u: UserId, s: SocketId): seq<Entry> {
    if e == [] then [Entry(u, s)]
    else if e[0].user == u then [Entry(u, s)] + e[1..]
    else [e[0]] + Assign(e[1..], u, s)
  }

  /** The disconnect scan: drop the first entry whose socket is `s`, keep the rest. */
  function RemoveFirstSocket(e: seq<Entry>, s: SocketId): seq<Entry> {
    if e == [] then []
    else if e[0].socket == s then e[1..]
    else [e[0]] + RemoveFirstSocket(e[1..], s)
  }

  /** Position of the entry of `u`, or `|e|` when there is none. */
  function IndexOfUser(e: seq<Entry>, u: UserId): (i: nat)
    ensures i <= |e|
    ensures forall k :: 0 <= k < i ==> e[k].user != u
    ensures i < |e| ==> e[i].user == u
  {
    if e == [] then 0 else if e[0].user == u then 0 else 1 + IndexOfUser(e[1..], u)
  }

  /** Position of the first entry whose socket is `s`, or `|e|` when there is none. */
  function IndexOfSocket(e: seq<Entry>, s: SocketId): (i: nat)
    ensures i <= |e|
    ensures forall k :: 0 <= k < i ==> e[k].socket != s
    ensures i < |e| ==> e[i].socket == s
  {
    if e == [] then 0 else if e[0].socket == s then 0 else 1 + IndexOfSocket(e[1..], s)
  }

  lemma TailDistinct(e: seq<Entry>)
    requires DistinctUsers(e) && e != []
    ensures DistinctUsers(e[1..])
  {
    forall a, b | 0 <= a < b < |e[1..]| ensures e[1..][a].user != e[1..][b].user {
      assert e[1..][a] == e[a + 1] && e[1..][b] == e[b + 1];
    }
  }

  // ---------------------------------------------------------------------------
  // register

  /** After `register(u, s)` the user maps to `s`, whatever it mapped to before. */
  lemma {:induction false} AssignLookupSame(e: seq<Entry>, u: UserId, s: SocketId)
    ensures Lookup(Assign(e, u, s), u) == Some(s)
  {
    if e != [] && e[0].user != u {
      AssignLookupSame(e[1..], u, s);
    }
  }

  /** `register(u, s)` leaves every other user's entry as it was. */
  lemma {:induction false} AssignLookupOther(e: seq<Entry>, u: UserId, s: SocketId, v: UserId)
    requires v != u
    ensures Lookup(Assign(e, u, s), v) == Lookup(e, v)
  {
    if e != [] && e[0].user != u && e[0].user != v {
      AssignLookupOther(e[1..], u, s, v);
    }
  }

  /** Overwriting an existing key keeps its position; a new key is appended at the end. */
  lemma {:induction false} AssignShape(e: seq<Entry>, u: UserId, s: SocketId)
    ensures var i := IndexOfUser(e, u);
      Assign(e, u, s) == if i == |e| then e + [Entry(u, s)] else e[..i] + [Entry(u, s)] + e[i + 1..]
  {
    if e == [] {
    } else if e[0].user == u {
      assert e[..0] == [];
    } else {
      AssignShape(e[1..], u, s);
      var t := e[1..];
      var i := IndexOfUser(t, u);
      if i < |t| {
        assert e[..i + 1] == [e[0]] + t[..i];
        assert e[i + 2..] == t[i + 1..];
      } else {
        assert e == [e[0]] + t;
      }
    }
  }

  /** `register` keeps the registry a dictionary. */
  lemma {:induction false} AssignDistinct(e: seq<Entry>, u: UserId, s: SocketId)
    requires DistinctUsers(e)
    ensures DistinctUsers(Assign(e, u, s))
  {
    if e == [] {
    } else if e[0].user == u {
      var a := Assign(e, u, s);
      forall x, y | 0 <= x < y < |a| ensures a[x].user != a[y].user {
        assert a[y] == e[y];
        if x > 0 { assert a[x] == e[x]; }
      }
    } else {
      TailDistinct(e);
      AssignDistinct(e[1..], u, s);
      var t := Assign(e[1..], u, s);
      var a := [e[0]] + t;
      assert Lookup(e[1..], e[0].user).None?;
      AssignLookupOther(e[1..], u, s, e[0].user);
      forall x, y | 0 <= x < y < |a| ensures a[x].user != a[y].user {
        assert a[y] == t[y - 1];
        if x > 0 { assert a[x] == t[x - 1]; }
      }
    }
  }

  // ---------------------------------------------------------------------------
  // disconnect

  /** The disconnect scan removes nothing when no entry holds `s`, and otherwise removes
      exactly the first entry holding `s`, keeping the order of the rest. */
  lemma {:induction false} RemoveFirstSocketShape(e: seq<Entry>, s: SocketId)
    ensures var i := IndexOfSocket(e, s);
      RemoveFirstSocket(e, s) == if i == |e| then e else e[..i] + e[i + 1..]
  {
    if e == [] {
    } else if e[0].socket == s {
      assert e[..0] == [];
    } else {
      var t := e[1..];
      RemoveFirstSocketShape(t, s);
      var i := IndexOfSocket(t, s);
      assert IndexOfSocket(e, s) == i + 1;
      if i < |t| {
        calc {
          RemoveFirstSocket(e, s);
          [e[0]] + (t[..i] + t[i + 1..]);
          ([e[0]] + t[..i]) + t[i + 1..];
          { assert [e[0]] + t[..i] == e[..i + 1]; assert t[i + 1..] == e[i + 2..]; }
          e[..i + 1] + e[i + 2..];
        }
      } else {
        assert e == [e[0]] + t;
      }
    }
  }

  /** Removing an element keeps the users distinct. */
  lemma DeleteAtDistinct(e: seq<Entry>, i: nat)
    requires DistinctUsers(e) && i < |e|
    ensures DistinctUsers(e[..i] + e[i + 1..])
  {
    var r := e[..i] + e[i + 1..];
    forall a, b | 0 <= a < b < |r| ensures r[a].user != r[b].user {
      var a' := if a < i then a else a + 1;
      var b' := if b < i then b else b + 1;
      assert r[a] == e[a'] && r[b] == e[b'];
    }
  }

  /** `disconnect` keeps the registry a dictionary. */
  lemma RemoveFirstSocketDistinct(e: seq<Entry>, s: SocketId)
    requires DistinctUsers(e)
    ensures DistinctUsers(RemoveFirstSocket(e, s))
  {
    RemoveFirstSocketShape(e, s);
    if IndexOfSocket(e, s) < |e| {
      DeleteAtDistinct(e, IndexOfSocket(e, s));
    }
  }

  /** In a dictionary, the entry at position `k` is what a lookup of its user finds. */
  lemma {:induction false} LookupAt(e: seq<Entry>, k: nat)
    requires DistinctUsers(e) && k < |e|
    ensures Lookup(e, e[k].user) == Some(e[k].socket)
  {
    if k > 0 {
      assert e[0].user != e[k].user;
      TailDistinct(e);
      LookupAt(e[1..], k - 1);
    }
  }

  /** After a disconnect, a user keeps its entry unless it owned the removed one. */
  lemma RemoveFirstSocketLookup(e: seq<Entry>, s: SocketId, v: UserId)
    requires DistinctUsers(e)
    ensures var i := IndexOfSocket(e, s);
      Lookup(RemoveFirstSocket(e, s), v) == if i < |e| && e[i].user == v then None else Lookup(e, v)
  {
    var i := IndexOfSocket(e, s);
    RemoveFirstSocketShape(e, s);
    if i < |e| {
      assert RemoveFirstSocket(e, s) == e[..i] + e[i + 1..];
      DeleteAtLookup(e, i, v);
    }
  }

  /** Deleting the entry at position `i` forgets its user and no other. */
  lemma DeleteAtLookup(e: seq<Entry>, i: nat, v: UserId)
    requires DistinctUsers(e) && i < |e|
    ensures Lookup(e[..i] + e[i + 1..], v) == if e[i].user == v then None else Lookup(e, v)
  {
    DeleteAtDistinct(e, i);
    DeleteAtPointwise(e, i);
    ShiftedLookup(e, e[..i] + e[i + 1..], i, v);
  }

  lemma DeleteAtPointwise(e: seq<Entry>, i: nat)
    requires i < |e|
    ensures var r := e[..i] + e[i + 1..];
      |r| == |e| - 1 && forall k :: 0 <= k < |r| ==> r[k] == e[if k < i then k else k + 1]
  {
  }

  /** A lookup in `e` with position `i` cut out, stated position by position. */
  lemma ShiftedLookup(e: seq<Entry>, r: seq<Entry>, i: nat, v: UserId)
    requires DistinctUsers(e) && DistinctUsers(r) && i < |e| && |r| == |e| - 1
    requires forall k :: 0 <= k < |r| ==> r[k] == e[if k < i then k else k + 1]
    ensures Lookup(r, v) == if e[i].user == v then None else Lookup(e, v)
  {
    if e[i].user == v || Lookup(e, v).None? {
      forall k | 0 <= k < |r| ensures r[k].user != v {
        var k' := if k < i then k else k + 1;
        assert r[k] == e[k'];
      }
    } else {
      var j :| 0 <= j < |e| && e[j] == Entry(v, Lookup(e, v).value);
      LookupAt(e, j);
      var j' := if j < i then j else j - 1;
      assert r[j'] == e[j];
      LookupAt(r, j');
    }
  }

  // ---------------------------------------------------------------------------
  // Register and disconnect together

  /** `register(u, s1)` then `disconnect(s1)` forgets `u` -- provided no other user is
      registered with `s1`; see `SharedSocketLeavesStaleEntry` for what happens otherwise. */
  lemma RegisterThenDisconnect(e: seq<Entry>, u: UserId, s1: SocketId)
    requires DistinctUsers(e)
    requires forall k :: 0 <= k < |e| && e[k].user != u ==> e[k].socket != s1
    ensures Lookup(RemoveFirstSocket(Assign(e, u, s1), s1), u).None?
  {
    var a := Assign(e, u, s1);
    AssignDistinct(e, u, s1);
    AssignAt(e, u, s1);
    var w := IndexOfUser(e, u);
    assert forall k :: 0 <= k < |e| && k != w ==> e[k].user != u;
    assert forall k :: 0 <= k < w ==> a[k].socket != s1;
    IndexOfSocketIs(a, s1, w);
    RemoveFirstSocketLookup(a, s1, u);
  }

  /** Pointwise view of `Assign`: the user's entry sits at its old position (or at the end),
      and every other position is unchanged. */
  lemma {:induction false} AssignAt(e: seq<Entry>, u: UserId, s: SocketId)
    ensures var w := IndexOfUser(e, u); var a := Assign(e, u, s);
      && |a| == (if w == |e| then |e| + 1 else |e|)
      && a[w] == Entry(u, s)
      && forall k :: 0 <= k < |e| && k != w ==> a[k] == e[k]
  {
    if e != [] && e[0].user != u {
      AssignAt(e[1..], u, s);
      var a := Assign(e, u, s);
      assert a == [e[0]] + Assign(e[1..], u, s);
      forall k | 0 < k < |e| && k != IndexOfUser(e, u) ensures a[k] == e[k] {
        assert e[k] == e[1..][k - 1];
      }
    }
  }

  /** The first entry holding `s` is at `w`. */
  lemma IndexOfSocketIs(a: seq<Entry>, s: SocketId, w: nat)
    requires w < |a| && a[w].socket == s
    requires forall k :: 0 <= k < w ==> a[k].socket != s
    ensures IndexOfSocket(a, s) == w
  {
  }

  /** `register(u, s1)`, `register(u, s2)`, `disconnect(s1)` leaves `u` mapped to `s2`. */
  lemma ReRegisterThenDisconnect(e: seq<Entry>, u: UserId, s1: SocketId, s2: SocketId)
    requires DistinctUsers(e) && s1 != s2
    ensures Lookup(RemoveFirstSocket(Assign(Assign(e, u, s1), u, s2), s1), u) == Some(s2)
  {
    var a := Assign(Assign(e, u, s1), u, s2);
    AssignDistinct(e, u, s1);
    AssignDistinct(Assign(e, u, s1), u, s2);
    AssignLookupSame(Assign(e, u, s1), u, s2);
    RemoveFirstSocketLookup(a, s1, u);
    var i := IndexOfSocket(a, s1);
    if i < |a| && a[i].user == u {
      LookupAt(a, i);
    }
  }

  /** When several users share a socket id, disconnect removes only the earliest one; a
      later user keeps its now stale entry. */
  lemma SharedSocketLeavesStaleEntry(e: seq<Entry>, s: SocketId, i: nat, j: nat)
    requires DistinctUsers(e)
    requires i < j < |e| && e[i].socket == s && e[j].socket == s
    requires forall k :: 0 <= k < i ==> e[k].socket != s
    ensures Lookup(RemoveFirstSocket(e, s), e[i].user).None?
    ensures Lookup(RemoveFirstSocket(e, s), e[j].user) == Some(s)
  {
    assert IndexOfSocket(e, s) == i;
    RemoveFirstSocketLookup(e, s, e[i].user);
    RemoveFirstSocketLookup(e, s, e[j].user);
    LookupAt(e, j);
  }

  /** The concrete case: one socket registers two users, then closes. */
  lemma SharedSocketExample()
    ensures var e := Assign(Assign([], "alice", "s1"), "bob", "s1");
      Lookup(RemoveFirstSocket(e, "s1"), "bob") == Some("s1")
      && Lookup(RemoveFirstSocket(e, "s1"), "alice").None?
  {
    var e := Assign(Assign([], "alice", "s1"), "bob", "s1");
    assert e == [Entry("alice", "s1"), Entry("bob", "s1")];
    assert RemoveFirstSocket(e, "s1") == [Entry("bob", "s1")];
  }

  // ---------------------------------------------------------------------------
  // The registry object

  class Registry {
    /** `userSocketMap`, in `Object.entries` order. */
    var entries: seq<Entry>

    ghost predicate Valid()
      reads this
    {
      DistinctUsers(entries)
    }

    /** The map starts empty. */
    constructor ()
      ensures Valid() && entries == []
    {
      entries := [];
    }

    /** The `register` handler of the connection `socketId`. */
    method Register(socketId: SocketId, userId: UserId)
      requires Valid()
      modifies this
      ensures Valid()
      ensures entries == Assign(old(entries), userId, socketId)
      ensures GetSocketIdByUser(userId) == Some(socketId)
      ensures forall v :: v != userId ==> GetSocketIdByUser(v) == old(GetSocketIdByUser(v))
    {
      AssignDistinct(entries, userId, socketId);
      AssignLookupSame(entries, userId, socketId);
      forall v | v != userId ensures Lookup(Assign(entries, userId, socketId), v) == Lookup(entries, v) {
        AssignLookupOther(entries, userId, socketId, v);
      }
      entries := Assign(entries, userId, socketId);
    }

    /** The `disconnect` handler of the connection `socketId`: scan the entries in order,
        delete the first whose value is `socketId`, and stop. */
    method Disconnect(socketId: SocketId)
      requires Valid()
      modifies this
      ensures Valid()
      ensures entries == RemoveFirstSocket(old(entries), socketId)
    {
      var all := entries;
      RemoveFirstSocketShape(all, socketId);
      var i := 0;
      while i < |all|
        invariant 0 <= i <= IndexOfSocket(all, socketId) && entries == all
      {
        if all[i].socket == socketId {
          DeleteAtDistinct(all, i);
          entries := all[..i] + all[i + 1..];
          break;
        }
        i := i + 1;
      }
    }

    /** `getSocketIdByUser`: a plain lookup, which only reads the map. */
    function GetSocketIdByUser(userId: UserId): (r: Option<SocketId>)
      reads this
      ensures r.Some? ==> Entry(userId, r.value) in entries
      ensures r.None? ==> forall k :: 0 <= k < |entries| ==> entries[k].user != userId
    {
      Lookup(entries, userId)
    }
  }
}
