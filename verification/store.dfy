/** The in-memory store `branchesDB` of src/server/liveview/bank.ts: a record keyed by branch id. */
module Store {
  import opened Wrappers
  import opened Schema

  type Db = map<string, Branch>

  /** Every record is stored under its own id, the shape every writer of the store keeps. */
  predicate KeyedById(db: Db) {
    forall k :: k in db ==> db[k].id == k
  }

  /** Every stored record satisfies the schema bounds. */
  predicate AllValid(db: Db) {
    forall k :: k in db ==> Valid(db[k])
  }

  /** `db` and `db'` agree on every key other than `k`: presence and record. */
  ghost predicate SameExcept(db: Db, db': Db, k: string) {
    forall j :: j != k ==> (j in db <==> j in db') && (j in db ==> db[j] == db'[j])
  }

  /** `branchesDB[id]`, `undefined` for a missing id. */
  function Lookup(db: Db, id: string): (r: Option<Branch>)
    ensures r.Some? <==> id in db
    ensures r.Some? ==> r.value == db[id]
  {
    if id in db then Some(db[id]) else None
  }

  /** `branchesDB[b.id] = b`. */
  function Put(db: Db, b: Branch): (r: Db)
    ensures r.Keys == db.Keys + {b.id}
    ensures r[b.id] == b
    ensures SameExcept(db, r, b.id)
    ensures KeyedById(db) ==> KeyedById(r)
    ensures AllValid(db) && Valid(b) ==> AllValid(r)
  {
    db[b.id := b]
  }

  /** `delete branchesDB[id]`: a no-op for a missing id. */
  function Remove(db: Db, id: string): (r: Db)
    ensures r.Keys == db.Keys - {id}
    ensures SameExcept(db, r, id)
    ensures id !in db ==> r == db
    ensures KeyedById(db) ==> KeyedById(r)
    ensures AllValid(db) ==> AllValid(r)
  {
    db - {id}
  }

  /**
   * `Object.values(branchesDB)`: one entry per key, in an order the model leaves open.
   * `ks` lists the keys in the same order, so entry `i` is the record under key `ks[i]`.
   * Under `KeyedById` no record is listed twice.
   */
  method ListAll(db: Db) returns (bs: seq<Branch>, ghost ks: seq<string>)
    ensures |bs| == |ks| == |db|
    ensures forall i :: 0 <= i < |ks| ==> ks[i] in db && bs[i] == db[ks[i]]
    ensures forall i, j :: 0 <= i < j < |ks| ==> ks[i] != ks[j]
    ensures forall k :: k in db <==> k in ks
    ensures forall i :: 0 <= i < |bs| ==> bs[i] in db.Values
    ensures forall k :: k in db ==> db[k] in bs
    ensures KeyedById(db) ==> forall i, j :: 0 <= i < j < |bs| ==> bs[i] != bs[j]
  {
    bs := [];
    ks := [];
    var rest := db.Keys;
    while rest != {}
      invariant rest <= db.Keys
      invariant |ks| == |bs|
      invariant |bs| + |rest| == |db|
      invariant forall i :: 0 <= i < |ks| ==> ks[i] in db && ks[i] !in rest && bs[i] == db[ks[i]]
      invariant forall i, j :: 0 <= i < j < |ks| ==> ks[i] != ks[j]
      invariant forall k :: k in db && k !in rest ==> k in ks
      decreases |rest|
    {
      var k :| k in rest;
      bs := bs + [db[k]];
      ks := ks + [k];
      rest := rest - {k};
    }
    forall k | k in db
      ensures db[k] in bs
    {
      var i :| 0 <= i < |ks| && ks[i] == k;
      assert bs[i] == db[k];
    }
    if KeyedById(db) {
      forall i, j | 0 <= i < j < |bs|
        ensures bs[i] != bs[j]
      {
        assert bs[i].id == ks[i] && bs[j].id == ks[j];
      }
    }
  }

  /** Under `KeyedById` distinct keys hold distinct records, so the values are as many as the keys. */
  lemma {:induction false} DistinctValues(db: Db)
    requires KeyedById(db)
    ensures |db.Values| == |db|
    decreases |db|
  {
    if db != map[] {
      var k :| k in db;
      var rest := db - {k};
      assert rest.Keys == db.Keys - {k};
      DistinctValues(rest);
      assert db.Values == rest.Values + {db[k]} by {
        forall v | v in db.Values
          ensures v in rest.Values + {db[k]}
        {
          var j :| j in db && db[j] == v;
          if j != k { assert rest[j] == v; }
        }
      }
      assert db[k] !in rest.Values;
    }
  }
}
