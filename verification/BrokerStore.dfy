/** The broker's store as the code keeps it: three lists, searched and changed in place. */
module BrokerStore {
  import opened Options
  import opened CredentialBroker

  /** A stored record under its key: a credential under its tenant and id, a grant under its
      id, a receipt under its grant. */
  datatype Row<K, V> = Row(key: K, value: V)

  /** The list holds the map's records, one per key. */
  ghost predicate Shows<K, V>(rows: seq<Row<K, V>>, m: map<K, V>) {
    && |rows| == |m|
    && (forall i :: 0 <= i < |rows| ==> Stored(rows[i], m))
    && (forall i, j :: 0 <= i < j < |rows| ==> rows[i].key != rows[j].key)
    && (forall k <- m :: HasKey(rows, k))
  }

  ghost predicate Stored<K, V>(r: Row<K, V>, m: map<K, V>) { r.key in m && m[r.key] == r.value }

  ghost predicate HasKey<K, V>(rows: seq<Row<K, V>>, k: K) { exists i :: 0 <= i < |rows| && rows[i].key == k }

  lemma Count<K, V>(rows: seq<Row<K, V>>, m: map<K, V>)
    requires Shows(rows, m)
    ensures |rows| == |m|
  {}

  lemma Put<K, V>(rows: seq<Row<K, V>>, m: map<K, V>, i: nat, v: V)
    requires Shows(rows, m) && i < |rows|
    ensures Shows(rows[i := Row(rows[i].key, v)], m[rows[i].key := v])
  {
    var key := rows[i].key;
    var rows' := rows[i := Row(key, v)];
    assert Stored(rows[i], m);
    SameSize(m, m[key := v]);
    forall j | 0 <= j < |rows'| ensures Stored(rows'[j], m[key := v]) { assert Stored(rows[j], m); }
    SameKeys(rows, rows');
  }

  lemma SameKeys<K, V>(rows: seq<Row<K, V>>, rows': seq<Row<K, V>>)
    requires |rows'| == |rows| && forall i :: 0 <= i < |rows| ==> rows'[i].key == rows[i].key
    ensures forall k :: HasKey(rows, k) ==> HasKey(rows', k)
  {
    forall k | HasKey(rows, k) ensures HasKey(rows', k) {
      var j :| 0 <= j < |rows| && rows[j].key == k;
      assert rows'[j].key == k;
    }
  }

  lemma Add<K, V>(rows: seq<Row<K, V>>, m: map<K, V>, r: Row<K, V>)
    requires Shows(rows, m) && r.key !in m
    ensures Shows(rows + [r], m[r.key := r.value])
  {
    var rows', m' := rows + [r], m[r.key := r.value];
    forall j | 0 <= j < |rows'| ensures Stored(rows'[j], m') && (j < |rows| ==> rows'[j].key != r.key) {
      if j < |rows| { assert Stored(rows[j], m); }
    }
    forall k | k in m' ensures HasKey(rows', k) {
      if k == r.key { assert rows'[|rows|].key == k; }
      else {
        assert HasKey(rows, k);
        var j :| 0 <= j < |rows| && rows[j].key == k;
        assert rows'[j].key == k;
      }
    }
  }

  /** `find` by key. */
  method Find<K(==), V>(rows: seq<Row<K, V>>, ghost m: map<K, V>, key: K) returns (i: nat)
    requires Shows(rows, m)
    ensures i <= |rows| && (i < |rows| <==> key in m)
    ensures i < |rows| ==> rows[i].key == key && m[key] == rows[i].value
  {
    i := 0;
    while i < |rows| && rows[i].key != key
      invariant i <= |rows|
      invariant forall j :: 0 <= j < i ==> rows[j].key != key
    {
      i := i + 1;
    }
    if i < |rows| { assert Stored(rows[i], m); } else { assert !HasKey(rows, key); }
  }

  /** `find` by the receipt's own id. */
  method FindReceipt(rows: seq<Row<string, Receipt>>, ghost m: map<string, Receipt>, id: string) returns (i: nat)
    requires Shows(rows, m)
    ensures i <= |rows| && (i < |rows| ==> rows[i].value.id == id && Stored(rows[i], m))
    ensures i == |rows| <==> !IdUsed(m, id)
  {
    i := 0;
    while i < |rows| && rows[i].value.id != id
      invariant i <= |rows|
      invariant forall j :: 0 <= j < i ==> rows[j].value.id != id
    {
      i := i + 1;
    }
    if i < |rows| {
      assert Stored(rows[i], m);
    } else {
      forall x | x in m ensures m[x].id != id {
        assert HasKey(rows, x);
        var j :| 0 <= j < |rows| && rows[j].key == x;
        assert Stored(rows[j], m);
      }
    }
  }

  function Revoked(r: Row<string, Grant>, key: Key): Row<string, Grant> {
    if KeyOf(r.value) == key then Row(r.key, r.value.(revoked := true)) else r
  }

  /** The loop over all grants at the end of a rotation and of a revocation. */
  method RevokeGrantsOf(rows: seq<Row<string, Grant>>, ghost m: map<string, Grant>, key: Key) returns (rows': seq<Row<string, Grant>>)
    requires Shows(rows, m)
    ensures Shows(rows', RevokeGrants(m, key))
  {
    hide Shows, RevokeGrants;
    rows' := rows;
    for i := 0 to |rows|
      invariant |rows'| == |rows|
      invariant forall j :: i <= j < |rows| ==> rows'[j] == rows[j]
      invariant forall j :: 0 <= j < i ==> rows'[j] == Revoked(rows[j], key)
    {
      if KeyOf(rows'[i].value) == key && !rows'[i].value.revoked {
        rows' := rows'[i := Row(rows'[i].key, rows'[i].value.(revoked := true))];
      }
    }
    RevokedShows(rows, m, key, rows');
  }

  lemma RevokedShows(rows: seq<Row<string, Grant>>, m: map<string, Grant>, key: Key, rows': seq<Row<string, Grant>>)
    requires Shows(rows, m) && |rows'| == |rows| && forall j :: 0 <= j < |rows| ==> rows'[j] == Revoked(rows[j], key)
    ensures Shows(rows', RevokeGrants(m, key))
  {
    SameSize(m, RevokeGrants(m, key));
    forall i | 0 <= i < |rows| ensures Stored(rows'[i], RevokeGrants(m, key)) && rows'[i].key == rows[i].key { assert Stored(rows[i], m); }
    SameKeys(rows, rows');
    hide HasKey;
  }

  /** What the first transaction of an execution hands back. */
  datatype Reply = Declined | Earlier(receipt: Receipt) | Begun(grant: Grant, vaultRef: string)

  ghost function ReplyTo(start: Start): Reply {
    match start
    case Refused => Declined
    case Prior(r) => Earlier(r)
    case Started(_, g, vaultRef) => Begun(g, vaultRef)
  }

  class Broker {
    var credentials: seq<Row<Key, Credential>>
    var grants: seq<Row<string, Grant>>
    var receipts: seq<Row<string, Receipt>>
    ghost var store: Store

    ghost predicate Valid()
      reads this
    {
      Shows(credentials, store.credentials) && Shows(grants, store.grants) && Shows(receipts, store.receipts)
    }

    constructor ()
      ensures Valid() && store == Store(map[], map[], map[])
    {
      credentials, grants, receipts := [], [], [];
      store := Store(map[], map[], map[]);
    }

    method RegisterCredential(key: Key, c: Credential) returns (ok: bool)
      requires Valid()
      modifies this
      ensures Valid() && ok == Register(old(store), key, c).Some?
      ensures store == if ok then Register(old(store), key, c).value else old(store)
    {
      Count(credentials, store.credentials);
      hide Shows;
      var i := Find(credentials, store.credentials, key);
      if i < |credentials| || |credentials| >= MAX_CREDENTIALS || c.expiresAt <= c.createdAt { return false; }
      var made := c.(version := 1, revoked := false);
      Add(credentials, store.credentials, Row(key, made));
      credentials := credentials + [Row(key, made)];
      store := store.(credentials := store.credentials[key := made]);
      ok := true;
    }

    method RotateCredential(key: Key, vaultRef: string, expiresAt: int, asked: int) returns (ok: bool)
      requires Valid()
      modifies this
      ensures Valid() && ok == Rotate(old(store), key, vaultRef, expiresAt, asked).Some?
      ensures store == if ok then Rotate(old(store), key, vaultRef, expiresAt, asked).value else old(store)
    {
      hide Shows, RevokeGrants;
      if expiresAt <= asked { return false; }
      var i := Find(credentials, store.credentials, key);
      if i == |credentials| || credentials[i].value.revoked || expiresAt <= credentials[i].value.createdAt { return false; }
      var c := credentials[i].value;
      var changed := c.(vaultRef := vaultRef, expiresAt := expiresAt, version := c.version + 1);
      Put(credentials, store.credentials, i, changed);
      credentials := credentials[i := Row(key, changed)];
      grants := RevokeGrantsOf(grants, store.grants, key);
      store := store.(credentials := store.credentials[key := changed], grants := RevokeGrants(store.grants, key));
      ok := true;
    }

    method RevokeCredential(key: Key) returns (ok: bool)
      requires Valid()
      modifies this
      ensures Valid() && ok == Revoke(old(store), key).Some?
      ensures store == if ok then Revoke(old(store), key).value else old(store)
    {
      hide Shows, RevokeGrants;
      var i := Find(credentials, store.credentials, key);
      if i == |credentials| { return false; }
      var changed := credentials[i].value.(revoked := true);
      Put(credentials, store.credentials, i, changed);
      credentials := credentials[i := Row(key, changed)];
      grants := RevokeGrantsOf(grants, store.grants, key);
      store := store.(credentials := store.credentials[key := changed], grants := RevokeGrants(store.grants, key));
      ok := true;
    }

    method IssueGrant(w: Workload, r: Request, expiresAt: int, asked: int, now: int, id: string, authorized: bool) returns (ok: bool)
      requires Valid()
      modifies this
      ensures Valid() && ok == Issue(old(store), w, r, expiresAt, asked, now, id, authorized).Some?
      ensures store == if ok then Issue(old(store), w, r, expiresAt, asked, now, id, authorized).value else old(store)
    {
      Count(grants, store.grants);
      hide Shows, Within;
      if expiresAt <= asked { return false; }
      var i := Find(credentials, store.credentials, Key(w.binding.tenant, r.credential));
      if i == |credentials| { return false; }
      var c := credentials[i].value;
      var owner := c.owner == w.binding.workload && c.ownerKind == w.binding.kind;
      if !CredentialUsable(c, now) || r.provider != c.provider || w.binding.project != c.project
        || w.binding.environment != c.environment || !Within(r.scopes, c.scopes) { return false; }
      if !owner && (!authorized || expiresAt - now > MAX_BREAK_GLASS_TTL) { return false; }
      if expiresAt - now > MAX_GRANT_TTL || expiresAt <= now || expiresAt > c.expiresAt || expiresAt > w.expiresAt { return false; }
      var j := Find(grants, store.grants, id);
      if j < |grants| || |grants| >= MAX_GRANTS { return false; }
      var g := Grant(id, r.credential, c.version, w.binding, c.provider, r.scopes, r.action, now, expiresAt, !owner, false);
      Add(grants, store.grants, Row(id, g));
      grants := grants + [Row(id, g)];
      store := store.(grants := store.grants[id := g]);
      ok := true;
    }

    /** The checks at the head of that transaction. */
    method CheckStart(ex: Executor, b: Binding, id: string, r: Request, now: int) returns (found: Option<(Grant, Credential)>)
      requires Valid()
      ensures found.Some? == Startable(store, ex, b, id, r, now)
      ensures found.Some? ==> found.value.0 == store.grants[id] && found.value.1 == store.credentials[KeyOf(store.grants[id])]
    {
      hide Shows, Supports, GrantUsable;
      var i := Find(grants, store.grants, id);
      if i == |grants| || !GrantUsable(grants[i].value, b, r, now) { return None; }
      var g := grants[i].value;
      var j := Find(credentials, store.credentials, KeyOf(g));
      if j == |credentials| { return None; }
      var c := credentials[j].value;
      if !CredentialUsable(c, now) || c.version != g.version || !Supports(ex, c.provider, g.scopes) { return None; }
      found := Some((g, c));
    }

    method BeginExecution(ex: Executor, b: Binding, id: string, r: Request, now: int, verified: bool, receipt: string)
      returns (reply: Reply)
      requires Valid()
      modifies this
      ensures Valid()
      ensures var start := Begin(old(store), ex, b, id, r, now, verified, receipt);
        reply == ReplyTo(start) && store == if start.Started? then start.store else old(store)
    {
      Count(receipts, store.receipts);
      hide Shows, IdUsed, Stored;
      var found := CheckStart(ex, b, id, r, now);
      if found.None? { return Declined; }
      var (g, c) := found.value;
      hide Startable;
      var k := Find(receipts, store.receipts, id);
      if k < |receipts| { return if receipts[k].value.status.Executed? then Earlier(receipts[k].value) else Declined; }
      if !verified || |receipts| >= MAX_RECEIPTS { return Declined; }
      var used := FindReceipt(receipts, store.receipts, receipt);
      if used < |receipts| { return Declined; }
      var made := Receipt(receipt, id, KeyOf(g), c.version, b.workload, g.action, Executing);
      Add(receipts, store.receipts, Row(id, made));
      receipts := receipts + [Row(id, made)];
      store := store.(receipts := store.receipts[id := made]);
      reply := Begun(g, c.vaultRef);
    }

    method IsActive(ex: Executor, g: Grant, b: Binding, now: int, later: int) returns (active: bool)
      requires Valid()
      ensures active == Active(store, ex, g, b, now, later)
    {
      hide Shows;
      var i := Find(grants, store.grants, g.id);
      if i == |grants| { return false; }
      var current := grants[i].value;
      if !GrantUsable(current, b, Request(g.credential, g.provider, g.scopes, g.action), now) { return false; }
      var j := Find(credentials, store.credentials, KeyOf(current));
      if j == |credentials| { return false; }
      var c := credentials[j].value;
      if !CredentialUsable(c, later) || c.version != current.version || !Supports(ex, c.provider, current.scopes) { return false; }
      var k := Find(receipts, store.receipts, current.id);
      active := k < |receipts| && receipts[k].value.status.Executing?;
    }

    /** Receipt ids are unique in every reachable store. */
    method CompleteExecution(id: string, receipt: string, status: Status) returns (ok: bool)
      requires Valid()
      requires forall x <- store.receipts :: store.receipts[x].id == receipt ==> x == id
      modifies this
      ensures Valid() && ok == Complete(old(store), id, receipt, status).Some?
      ensures store == if ok then Complete(old(store), id, receipt, status).value else old(store)
    {
      hide Shows;
      var i := FindReceipt(receipts, store.receipts, receipt);
      if i == |receipts| || !receipts[i].value.status.Executing? { return false; }
      var settled := receipts[i].value.(status := status);
      Put(receipts, store.receipts, i, settled);
      receipts := receipts[i := Row(receipts[i].key, settled)];
      store := store.(receipts := store.receipts[id := settled]);
      ok := true;
    }
  }
}
