/**
 The Redis layout of app/hmstt/store.go: one hash per type, one field per key.
 The flat map from (type, key) to entry is what the rest of the system sees.
 */
module StateStore {
  import opened Basics
  import opened States

  datatype StateEntry = StateEntry(tipe: string, key: string, value: string, description: string, updatedAt: int)

  datatype Reply<+T> = Got(value: T) | Failed

  type Hashes = map<string, map<string, Entry>>

  const INFIX := ":hmstt:"

  function RedisKey(prefix: string, tipe: string): string {
    prefix + INFIX + tipe
  }

  function TrimKeyPrefix(prefix: string, key: string): string {
    if prefix + INFIX <= key then key[|prefix + INFIX|..] else key
  }

  /** `TrimKeyPrefix` and `RedisKey` are inverse on the keys of this store. */
  lemma TrimInvertsRedisKey(prefix: string, tipe: string, key: string)
    ensures prefix + INFIX <= RedisKey(prefix, tipe)
    ensures TrimKeyPrefix(prefix, RedisKey(prefix, tipe)) == tipe
    ensures prefix + INFIX <= key ==> RedisKey(prefix, TrimKeyPrefix(prefix, key)) == key
  {
  }

  /** The identifiers stored under this prefix. */
  function Ids(prefix: string, db: Hashes): set<Id> {
    set h, k | h in db && k in db[h] && prefix + INFIX <= h :: Id(TrimKeyPrefix(prefix, h), k)
  }

  lemma IdsMembership(prefix: string, db: Hashes, id: Id)
    ensures id in Ids(prefix, db) <==> RedisKey(prefix, id.tipe) in db && id.key in db[RedisKey(prefix, id.tipe)]
  {
    var h := RedisKey(prefix, id.tipe);
    TrimInvertsRedisKey(prefix, id.tipe, h);
    if h in db && id.key in db[h] {
      assert Id(TrimKeyPrefix(prefix, h), id.key) == id;
    }
    if id in Ids(prefix, db) {
      var h', k :| h' in db && k in db[h'] && prefix + INFIX <= h' && id == Id(TrimKeyPrefix(prefix, h'), k);
      TrimInvertsRedisKey(prefix, id.tipe, h');
    }
  }

  /** The two-level layout read as one flat map. */
  function Flat(prefix: string, db: Hashes): Store {
    map id | id in Ids(prefix, db) :: (IdsMembership(prefix, db, id); db[RedisKey(prefix, id.tipe)][id.key])
  }

  lemma FlatLookup(prefix: string, db: Hashes, id: Id)
    ensures id in Flat(prefix, db) <==> RedisKey(prefix, id.tipe) in db && id.key in db[RedisKey(prefix, id.tipe)]
    ensures id in Flat(prefix, db) ==> Flat(prefix, db)[id] == db[RedisKey(prefix, id.tipe)][id.key]
  {
    IdsMembership(prefix, db, id);
  }

  /** The effect of HSET. */
  function HSet(db: Hashes, h: string, k: string, e: Entry): Hashes {
    db[h := (if h in db then db[h] else map[])[k := e]]
  }

  /** Writing one field of one hash is writing one entry of the flat map, and touches no other. */
  lemma HSetRefinesUpdate(prefix: string, db: Hashes, id: Id, e: Entry)
    ensures Flat(prefix, HSet(db, RedisKey(prefix, id.tipe), id.key, e)) == Flat(prefix, db)[id := e]
  {
    var h := RedisKey(prefix, id.tipe);
    var db' := HSet(db, h, id.key, e);
    forall other: Id
      ensures Find(Flat(prefix, db'), other) == Find(Flat(prefix, db)[id := e], other)
    {
      FlatLookup(prefix, db', other);
      FlatLookup(prefix, db, other);
      TrimInvertsRedisKey(prefix, other.tipe, h);
      TrimInvertsRedisKey(prefix, id.tipe, h);
    }
    FindExtensional(Flat(prefix, db'), Flat(prefix, db)[id := e]);
  }

  function ToState(id: Id, e: Entry): StateEntry {
    StateEntry(id.tipe, id.key, e.value, e.description, e.updatedAt)
  }

  function IdOf(s: StateEntry): Id {
    Id(s.tipe, s.key)
  }

  /** `rs` lists each entry of `store` exactly once. */
  ghost predicate Lists(rs: seq<StateEntry>, store: Store) {
    && (forall i, j | 0 <= i < j < |rs| :: IdOf(rs[i]) != IdOf(rs[j]))
    && (forall i | 0 <= i < |rs| :: IdOf(rs[i]) in store && rs[i] == ToState(IdOf(rs[i]), store[IdOf(rs[i])]))
    && (forall id | id in store :: ToState(id, store[id]) in rs)
  }

  function OfType(store: Store, tipe: string): Store {
    map id | id in store && id.tipe == tipe :: store[id]
  }

  /** Listings of two stores without a common entry, one after the other. */
  lemma ListsBoth(a: seq<StateEntry>, b: seq<StateEntry>, first: Store, second: Store)
    requires Lists(a, first) && Lists(b, second) && first.Keys !! second.Keys
    ensures Lists(a + b, first + second)
  {
    var both, whole := a + b, first + second;
    forall i, j | 0 <= i < j < |both|
      ensures IdOf(both[i]) != IdOf(both[j])
    {
      if i < |a| <= j {
        assert IdOf(a[i]) in first.Keys && IdOf(b[j - |a|]) in second.Keys;
      }
    }
    forall id | id in whole
      ensures ToState(id, whole[id]) in both
    {
      if id in second {
        assert ToState(id, second[id]) in b;
      } else {
        assert ToState(id, first[id]) in a;
      }
    }
  }

  // ---------- scanning while others write ----------

  /** The hashes KEYS finds. */
  function Scanned(prefix: string, db: Hashes): set<string> {
    set h | h in db && prefix + INFIX <= h
  }

  /** The reply to HGETALL; a missing hash reads as an empty one. */
  function HashAt(db: Hashes, h: string): map<string, Entry> {
    if h in db then db[h] else map[]
  }

  /** What a scan has seen: each of its hashes as it was at one of these moments. */
  ghost predicate SeenDuring(view: Hashes, moments: seq<Hashes>) {
    forall h | h in view :: exists n :: 0 <= n < |moments| && view[h] == HashAt(moments[n], h)
  }

  /** One more hash, as it is now, is one more type of what has been seen. */
  lemma ViewGrows(prefix: string, view: Hashes, now: Hashes, tipe: string)
    requires RedisKey(prefix, tipe) !in view
    ensures var h := RedisKey(prefix, tipe);
            && Flat(prefix, view).Keys !! OfType(Flat(prefix, now), tipe).Keys
            && Flat(prefix, view[h := HashAt(now, h)]) == Flat(prefix, view) + OfType(Flat(prefix, now), tipe)
  {
    var h := RedisKey(prefix, tipe);
    var view' := view[h := HashAt(now, h)];
    forall id: Id
      ensures !(id in Flat(prefix, view) && id in OfType(Flat(prefix, now), tipe))
      ensures Find(Flat(prefix, view'), id) == Find(Flat(prefix, view) + OfType(Flat(prefix, now), tipe), id)
    {
      FlatLookup(prefix, view, id);
      FlatLookup(prefix, view', id);
      FlatLookup(prefix, now, id);
      TrimInvertsRedisKey(prefix, id.tipe, h);
      TrimInvertsRedisKey(prefix, tipe, h);
    }
    FindExtensional(Flat(prefix, view'), Flat(prefix, view) + OfType(Flat(prefix, now), tipe));
  }

  /** The entry a listing gives is stored. */
  predicate StoredIn(store: Store, s: StateEntry) {
    IdOf(s) in store && s == ToState(IdOf(s), store[IdOf(s)])
  }

  /** The entry is at every moment what it was at the start. */
  ghost predicate Stays(prefix: string, start: Hashes, moments: seq<Hashes>, id: Id) {
    forall n | 0 <= n < |moments| :: Find(Flat(prefix, moments[n]), id) == Find(Flat(prefix, start), id)
  }

  lemma SeenAt(prefix: string, moments: seq<Hashes>, view: Hashes, id: Id) returns (n: nat)
    requires SeenDuring(view, moments) && id in Flat(prefix, view)
    ensures n < |moments| && Find(Flat(prefix, moments[n]), id) == Find(Flat(prefix, view), id)
  {
    FlatLookup(prefix, view, id);
    var h := RedisKey(prefix, id.tipe);
    n :| 0 <= n < |moments| && view[h] == HashAt(moments[n], h);
    FlatLookup(prefix, moments[n], id);
  }

  /**
   What a scan is worth while others write: whatever it lists was stored at one of
   its moments, and whatever was stored at the start and stayed as it was is listed.
   */
  lemma ScanListsWhatStays(prefix: string, start: Hashes, moments: seq<Hashes>, view: Hashes, rs: seq<StateEntry>)
    requires view.Keys == Scanned(prefix, start) && SeenDuring(view, moments) && Lists(rs, Flat(prefix, view))
    ensures forall s | s in rs :: exists n :: 0 <= n < |moments| && StoredIn(Flat(prefix, moments[n]), s)
    ensures forall id | id in Flat(prefix, start) && Stays(prefix, start, moments, id) ::
              ToState(id, Flat(prefix, start)[id]) in rs
  {
    forall s | s in rs
      ensures exists n :: 0 <= n < |moments| && StoredIn(Flat(prefix, moments[n]), s)
    {
      var n := SeenAt(prefix, moments, view, IdOf(s));
      assert StoredIn(Flat(prefix, moments[n]), s);
    }
    forall id | id in Flat(prefix, start) && Stays(prefix, start, moments, id)
      ensures ToState(id, Flat(prefix, start)[id]) in rs
    {
      StaysSeen(prefix, start, moments, view, id);
    }
  }

  lemma StaysSeen(prefix: string, start: Hashes, moments: seq<Hashes>, view: Hashes, id: Id)
    requires view.Keys == Scanned(prefix, start) && SeenDuring(view, moments)
    requires id in Flat(prefix, start) && Stays(prefix, start, moments, id)
    ensures Find(Flat(prefix, view), id) == Find(Flat(prefix, start), id)
  {
    var h := RedisKey(prefix, id.tipe);
    FlatLookup(prefix, start, id);
    TrimInvertsRedisKey(prefix, id.tipe, h);
    assert h in view;
    var n :| 0 <= n < |moments| && view[h] == HashAt(moments[n], h);
    FlatLookup(prefix, moments[n], id);
    FlatLookup(prefix, view, id);
    assert Find(Flat(prefix, moments[n]), id) == Find(Flat(prefix, start), id);
  }

  /** When nothing is written meanwhile, a scan lists the store. */
  lemma QuietScan(prefix: string, start: Hashes, moments: seq<Hashes>, view: Hashes)
    requires view.Keys == Scanned(prefix, start) && SeenDuring(view, moments)
    requires forall n | 0 <= n < |moments| :: moments[n] == start
    ensures Flat(prefix, view) == Flat(prefix, start)
  {
    forall id: Id
      ensures Find(Flat(prefix, view), id) == Find(Flat(prefix, start), id)
    {
      if id in Flat(prefix, start) {
        StaysSeen(prefix, start, moments, view, id);
      } else if id in Flat(prefix, view) {
        var n := SeenAt(prefix, moments, view, id);
        assert moments[n] == start;
      }
    }
    FindExtensional(Flat(prefix, view), Flat(prefix, start));
  }

  class HmsttStore {
    const prefix: string
    var db: Hashes

    ghost function Contents(): Store
      reads this
    {
      Flat(prefix, db)
    }

    constructor (prefix: string)
      ensures this.prefix == prefix && Contents() == map[]
    {
      this.prefix := prefix;
      db := map[];
    }

    method SetState(id: Id, value: string, description: string, now: int, fails: bool) returns (ok: bool)
      modifies this
      ensures ok == !fails
      ensures Contents() == if fails then old(Contents()) else old(Contents())[id := Entry(value, description, now)]
    {
      if fails {
        return false;
      }
      var entry := Entry(value, description, now);
      HSetRefinesUpdate(prefix, db, id, entry);
      db := HSet(db, RedisKey(prefix, id.tipe), id.key, entry);
      return true;
    }

    method GetState(id: Id, fails: bool) returns (r: Reply<StateEntry>)
      ensures r == if fails || id !in Contents() then Failed
                   else var e := Contents()[id]; Got(StateEntry(id.tipe, id.key, e.value, e.description, e.updatedAt))
    {
      FlatLookup(prefix, db, id);
      var h := RedisKey(prefix, id.tipe);
      if fails || h !in db || id.key !in db[h] {
        return Failed;
      }
      return Got(ToState(id, db[h][id.key]));
    }

    /** Go ranges over the HGETALL reply in an arbitrary order. */
    method GetAllByType(tipe: string, fails: bool) returns (r: Reply<seq<StateEntry>>)
      ensures r.Failed? <==> fails
      ensures r.Got? ==> Lists(r.value, OfType(Contents(), tipe))
    {
      if fails {
        return Failed;
      }
      var h := RedisKey(prefix, tipe);
      var fields: map<string, Entry> := if h in db then db[h] else map[];
      var pending := fields.Keys;
      var entries: seq<StateEntry> := [];
      ghost var seen: Store := map[];
      while pending != {}
        invariant pending <= fields.Keys
        invariant Lists(entries, seen)
        invariant forall id: Id :: id in seen <==> id.tipe == tipe && id.key in fields && id.key !in pending
        invariant forall id | id in seen :: seen[id] == fields[id.key]
        decreases |pending|
      {
        var k :| k in pending;
        pending := pending - {k};
        ListsOne(entries, seen, Id(tipe, k), fields[k]);
        entries := entries + [ToState(Id(tipe, k), fields[k])];
        seen := seen[Id(tipe, k) := fields[k]];
      }
      forall id: Id
        ensures Find(seen, id) == Find(OfType(Contents(), tipe), id)
      {
        FlatLookup(prefix, db, id);
      }
      FindExtensional(seen, OfType(Contents(), tipe));
      return Got(entries);
    }

    /**
     KEYS under a prefix without glob characters returns exactly the keys that
     start with it, in an arbitrary order; `failing` are the hashes that cannot be
     read. Others may write meanwhile: `moments` are the database as each
     successive HGETALL finds it, and `view` is what the scan saw of it.
     */
    method GetAll(keysFails: bool, failing: set<string>, moments: seq<Hashes>)
      returns (r: Reply<seq<StateEntry>>, ghost view: Hashes)
      requires |moments| >= |Scanned(prefix, db)|
      modifies this
      ensures r.Failed? <==> keysFails || exists h | h in Scanned(prefix, old(db)) :: h in failing
      ensures r.Got? ==>
                && view.Keys == Scanned(prefix, old(db)) && SeenDuring(view, moments)
                && Lists(r.value, Flat(prefix, view))
    {
      view := map[];
      if keysFails {
        return Failed, view;
      }
      var keys := set h | h in db && prefix + INFIX <= h;
      assert keys == Scanned(prefix, db);
      var pending := keys;
      var all: seq<StateEntry> := [];
      EmptyListed(prefix);
      while pending != {}
        invariant pending <= keys && |moments| >= |keys|
        invariant view.Keys == keys - pending && SeenDuring(view, moments)
        invariant Lists(all, Flat(prefix, view))
        invariant forall h | h in keys && h !in pending :: h !in failing
        decreases |pending|
      {
        var n := |keys| - |pending|;
        CardinalityMonotone(pending, keys);
        db := moments[n];
        var key :| key in pending;
        pending := pending - {key};
        var tipe := TrimKeyPrefix(prefix, key);
        TrimInvertsRedisKey(prefix, tipe, key);
        var entries := GetAllByType(tipe, RedisKey(prefix, tipe) in failing);
        if entries.Failed? {
          return Failed, view;
        }
        ViewGrows(prefix, view, db, tipe);
        ListsBoth(all, entries.value, Flat(prefix, view), OfType(Flat(prefix, db), tipe));
        all := all + entries.value;
        SeenMore(view, moments, key, n);
        view := view[key := HashAt(db, key)];
      }
      return Got(all), view;
    }
  }

  lemma EmptyListed(prefix: string)
    ensures Lists([], Flat(prefix, map[]))
  {
  }

  lemma CardinalityMonotone<T>(a: set<T>, b: set<T>)
    requires a <= b && a != {}
    ensures 0 < |a| <= |b|
  {
    assert |b| == |a| + |b - a| by {
      assert b == a + (b - a);
    }
  }

  lemma SeenMore(view: Hashes, moments: seq<Hashes>, h: string, n: nat)
    requires SeenDuring(view, moments) && n < |moments|
    ensures SeenDuring(view[h := HashAt(moments[n], h)], moments)
  {
    var view' := view[h := HashAt(moments[n], h)];
    forall g | g in view'
      ensures exists k :: 0 <= k < |moments| && view'[g] == HashAt(moments[k], g)
    {
      if g != h {
        assert g in view && view'[g] == view[g];
      } else {
        assert view'[g] == HashAt(moments[n], g);
      }
    }
  }

  lemma ListsOne(rs: seq<StateEntry>, store: Store, id: Id, e: Entry)
    requires Lists(rs, store) && id !in store
    ensures Lists(rs + [ToState(id, e)], store[id := e])
  {
  }
}
