// The store the checksum hierarchy lives in, as seen through tdb_write(),
// tdb_fetch() and tdb_scan(): entries in key order.

module OrderedStore {
  import opened Basics
  import opened ByteOrder
  import opened PageTypes

  datatype Entry = Entry(key: Bytes, val: Bytes)

  type Entries = seq<Entry>

  ghost predicate Sorted(db: Entries) {
    forall i, j | 0 <= i < j < |db| :: Le(db[i].key, db[j].key) && db[i].key != db[j].key
  }

  function Put(db: Entries, k: Bytes, v: Bytes): Entries {
    if db == [] then [Entry(k, v)]
    else if k == db[0].key then [Entry(k, v)] + db[1..]
    else if Le(k, db[0].key) then [Entry(k, v)] + db
    else [db[0]] + Put(db[1..], k, v)
  }

  function Get(db: Entries, k: Bytes): Option<Bytes> {
    if db == [] then None
    else if k == db[0].key then Some(db[0].val)
    else Get(db[1..], k)
  }

  predicate Between(k: Bytes, lo: Bytes, hi: Bytes) {
    Le(lo, k) && Le(k, hi)
  }

  // The entries tdb_scan() visits, in its order.
  function Scan(db: Entries, lo: Bytes, hi: Bytes): Entries {
    if db == [] then []
    else (if Between(db[0].key, lo, hi) then [db[0]] else []) + Scan(db[1..], lo, hi)
  }

  lemma {:induction false} PutKeys(db: Entries, k: Bytes, v: Bytes, e: Entry)
    ensures e in Put(db, k, v) ==> e == Entry(k, v) || e in db
  {
    if db != [] {
      PutKeys(db[1..], k, v, e);
    }
  }

  lemma {:induction false} PutSorted(db: Entries, k: Bytes, v: Bytes)
    requires Sorted(db)
    ensures Sorted(Put(db, k, v))
  {
    if db != [] {
      var t := Put(db[1..], k, v);
      PutSorted(db[1..], k, v);
      if k != db[0].key && Le(k, db[0].key) {
        forall j | 0 <= j < |db| ensures Le(k, db[j].key) && k != db[j].key {
          if j > 0 {
            LeTransitive(k, db[0].key, db[j].key);
            LeTotal(db[0].key, db[j].key);
          }
        }
      } else if k != db[0].key {
        LeTotal(k, db[0].key);
        forall j | 0 <= j < |t| ensures Le(db[0].key, t[j].key) && db[0].key != t[j].key {
          PutKeys(db[1..], k, v, t[j]);
        }
      }
    }
  }

  lemma {:induction false} PutGet(db: Entries, k: Bytes, v: Bytes, k': Bytes)
    ensures Get(Put(db, k, v), k') == if k' == k then Some(v) else Get(db, k')
  {
    if db != [] {
      PutGet(db[1..], k, v, k');
    }
  }

  lemma {:induction false} PutScan(db: Entries, k: Bytes, v: Bytes, lo: Bytes, hi: Bytes)
    requires !Between(k, lo, hi)
    ensures Scan(Put(db, k, v), lo, hi) == Scan(db, lo, hi)
  {
    if db != [] {
      PutScan(db[1..], k, v, lo, hi);
    }
  }

  // A scan is exactly the entries of the range.
  lemma {:induction false} ScanIsRange(db: Entries, lo: Bytes, hi: Bytes, e: Entry)
    ensures e in Scan(db, lo, hi) <==> e in db && Between(e.key, lo, hi)
  {
    if db != [] {
      ScanIsRange(db[1..], lo, hi, e);
    }
  }
}
