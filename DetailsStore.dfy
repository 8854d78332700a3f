/**
 * The write-back details cache (org.ethereum.db.DetailsDataStore): contract
 * details keyed by address, held in a cache in front of a backing database.
 * `update` and `remove` change only the cache; `get` reads the cache first
 * and then the database; `flush` commits the cache's changes to the database
 * without changing what `get` returns.
 */
module DetailsStore {
  import opened Wrappers
  import opened UnsignedBytes

  /** A contract address. */
  type Key = seq<byte>

  /** Contract details, compared by their encoding. */
  datatype Details = Details(encoded: seq<byte>)

  /** A cache entry: Some(d) for a resident entry, None for a removal not yet flushed. */
  type Cache = map<Key, Option<Details>>

  /** The backing database: the details stored under each key. */
  type Database = map<Key, Details>

  /** What get(k) returns: the cache entry when there is one (None for a
      removed key), otherwise the database's entry, or null when the
      database has none. */
  function Lookup(cache: Cache, db: Database, k: Key): (r: Option<Details>)
    ensures k in cache ==> r == cache[k]
    ensures k !in cache ==> (r.Some? <==> k in db)
    ensures k !in cache && k in db ==> r == Some(db[k])
  {
    if k in cache then cache[k] else if k in db then Some(db[k]) else None
  }

  /** The database after flush: removed keys deleted, resident entries written. */
  function Committed(cache: Cache, db: Database): (r: Database)
    ensures forall k :: k in r <==> Lookup(cache, db, k).Some?
    ensures forall k :: k in r ==> Some(r[k]) == Lookup(cache, db, k)
  {
    map k | k in db.Keys + cache.Keys && Lookup(cache, db, k).Some? :: Lookup(cache, db, k).value
  }

  /** The cache after flush: written entries stay resident, removals are evicted. */
  function Resident(cache: Cache): (r: Cache)
    ensures forall k :: k in r <==> k in cache && cache[k].Some?
    ensures forall k :: k in r ==> r[k] == cache[k]
  {
    map k | k in cache && cache[k].Some? :: cache[k]
  }

  /** The entries of the cache for the keys in done. */
  function Restrict(cache: Cache, done: set<Key>): (r: Cache)
    ensures r.Keys == cache.Keys * done
    ensures forall k :: k in r ==> r[k] == cache[k]
  {
    map k | k in cache && k in done :: cache[k]
  }

  /** Flush is transparent: every key reads the same before and after. */
  lemma FlushTransparent(cache: Cache, db: Database, k: Key)
    ensures Lookup(Resident(cache), Committed(cache, db), k) == Lookup(cache, db, k)
  {
  }

  /** Flush is idempotent: flushing again changes neither the database nor the cache. */
  lemma FlushIdempotent(cache: Cache, db: Database)
    ensures Committed(Resident(cache), Committed(cache, db)) == Committed(cache, db)
    ensures Resident(Resident(cache)) == Resident(cache)
  {
  }

  /** Committing one more cache entry on top of a partial flush. */
  lemma CommitStep(cache: Cache, db: Database, done: set<Key>, k: Key)
    requires k in cache
    ensures Committed(Restrict(cache, done + {k}), db) ==
      match cache[k]
      case Some(d) => Committed(Restrict(cache, done), db)[k := d]
      case None => Committed(Restrict(cache, done), db) - {k}
  {
  }

  class DetailsDataStore {
    var cache: Cache
    var db: Database

    /** What get(k) would return in the current state. */
    function Observe(k: Key): Option<Details>
      reads this
    {
      Lookup(cache, db, k)
    }

    /** A new store: empty cache over an empty database. */
    constructor ()
      ensures cache == map[] && db == map[]
    {
      cache := map[];
      db := map[];
    }

    /** setDB: the store now reads from and writes to the given database. */
    method SetDB(database: Database)
      modifies this
      ensures db == database && cache == old(cache)
    {
      db := database;
    }

    /** get: a database hit is cached as resident; nothing that get returns changes. */
    method Get(k: Key) returns (r: Option<Details>)
      modifies this
      ensures r == old(Observe(k))
      ensures db == old(db)
      ensures cache == if k !in old(cache) && k in old(db) then old(cache)[k := Some(old(db)[k])] else old(cache)
      ensures forall j :: Observe(j) == old(Observe(j))
    {
      if k in cache {
        r := cache[k];
      } else if k in db {
        r := Some(db[k]);
        cache := cache[k := r];
      } else {
        r := None;
      }
    }

    /** update: the entry becomes resident with the new details, whatever it was before. */
    method Update(k: Key, details: Details)
      modifies this
      ensures cache == old(cache)[k := Some(details)] && db == old(db)
      ensures Observe(k) == Some(details)
      ensures forall j :: j != k ==> Observe(j) == old(Observe(j))
    {
      cache := cache[k := Some(details)];
    }

    /** remove: the entry is marked removed; the database keeps its value until flush. */
    method Remove(k: Key)
      modifies this
      ensures cache == old(cache)[k := None] && db == old(db)
      ensures Observe(k) == None
      ensures forall j :: j != k ==> Observe(j) == old(Observe(j))
    {
      cache := cache[k := None];
    }

    /** flush: writes every resident entry and deletes every removed key in
        the database, one key at a time, then evicts the removals. */
    method Flush()
      modifies this
      ensures db == Committed(old(cache), old(db))
      ensures cache == Resident(old(cache))
      ensures forall k :: Observe(k) == old(Observe(k))
    {
      var pending := cache.Keys;
      ghost var done: set<Key> := {};
      while pending != {}
        invariant pending + done == cache.Keys && pending !! done
        invariant cache == old(cache)
        invariant db == Committed(Restrict(cache, done), old(db))
        decreases pending
      {
        var k :| k in pending;
        CommitStep(cache, old(db), done, k);
        match cache[k] {
          case Some(d) =>
            db := db[k := d];
          case None =>
            db := db - {k};
        }
        pending := pending - {k};
        done := done + {k};
      }
      assert Restrict(cache, done) == cache;
      cache := Resident(cache);
      forall k ensures Observe(k) == old(Observe(k)) {
        FlushTransparent(old(cache), old(db), k);
      }
    }
  }

  // ---------------------------------------------------------------------------
  // The scenarios of DetailsDataStoreTest, each on a fresh store over an empty database.

  /** test1: an updated entry reads back before and after flush. */
  method UpdateGetFlushGet(k: Key, details: Details) returns (beforeFlush: Option<Details>, afterFlush: Option<Details>)
    ensures beforeFlush == Some(details) && afterFlush == Some(details)
  {
    var dds := new DetailsDataStore();
    dds.SetDB(map[]);
    dds.Update(k, details);
    beforeFlush := dds.Get(k);
    dds.Flush();
    afterFlush := dds.Get(k);
  }

  /** test2: a removed entry reads as null before and after flush. */
  method UpdateRemoveFlush(k: Key, details: Details)
    returns (afterUpdate: Option<Details>, afterRemove: Option<Details>, afterFlush: Option<Details>)
    ensures afterUpdate == Some(details) && afterRemove == None && afterFlush == None
  {
    var dds := new DetailsDataStore();
    dds.SetDB(map[]);
    dds.Update(k, details);
    afterUpdate := dds.Get(k);
    dds.Remove(k);
    afterRemove := dds.Get(k);
    dds.Flush();
    afterFlush := dds.Get(k);
  }

  /** test3: an update after a removal resurrects the entry, before and after flush. */
  method RemoveThenUpdate(k: Key, details: Details)
    returns (afterUpdate: Option<Details>, afterResurrect: Option<Details>, afterFlush: Option<Details>)
    ensures afterUpdate == Some(details) && afterResurrect == Some(details) && afterFlush == Some(details)
  {
    var dds := new DetailsDataStore();
    dds.SetDB(map[]);
    dds.Update(k, details);
    afterUpdate := dds.Get(k);
    dds.Remove(k);
    dds.Update(k, details);
    afterResurrect := dds.Get(k);
    dds.Flush();
    afterFlush := dds.Get(k);
  }

  /** test4: a key never written reads as null. */
  method GetUnknown(k: Key) returns (r: Option<Details>)
    ensures r == None
  {
    var dds := new DetailsDataStore();
    dds.SetDB(map[]);
    r := dds.Get(k);
  }

  /** After flush, the database holds what get returned before it: a
      removed key is gone and a written key holds its details. */
  lemma FlushCommits(cache: Cache, db: Database, k: Key)
    ensures k in cache && cache[k].None? ==> k !in Committed(cache, db)
    ensures k in cache && cache[k].Some? ==> k in Committed(cache, db) && Committed(cache, db)[k] == cache[k].value
    ensures k !in cache ==> (k in Committed(cache, db) <==> k in db)
  {
  }
}
