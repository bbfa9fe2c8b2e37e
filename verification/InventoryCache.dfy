/**
 The read-through cache in front of the inventory repository (internal/inventory/adapter/cache/inventory_repo.go over
 pkg/cache/cache.go), one call at a time. All three key families share the "inventory" prefix of one Redis database
 (cmd/inventory-service/main.go:95-98).

 Cache keys are built from the ids as the caller spells them, while the database reads the spelling as a UUID. A row is
 therefore keyed by canonical ids, and a cache entry by a name that holds a spelling.
 */
module InventoryCache {
  import opened InventoryDb
  import opened Uuid

  /** What a cache key stands for. */
  datatype Name =
    | Stock(productId: string, warehouseId: string)
    | Product(productId: string)
    | Code(code: string)

  /** A cached JSON value: an inventory row, the rows of a product, or a warehouse. */
  datatype Entry = One(row: Row) | Many(rows: map<Key, Row>) | Warehouse(id: string)

  datatype Result = Found(entry: Entry) | NotFound | Failed

  const PREFIX := "inventory"

  function CacheKey(name: Name): string {
    match name
    case Stock(p, w) => "stock:warehouse:" + p + ":" + w
    case Product(p) => "stock:" + p
    case Code(c) => "warehouse:code:" + c
  }

  function FullKey(k: string): string {
    PREFIX + ":" + k
  }

  /** What the database takes a name for: the same name with canonical ids. It rejects ids that are no UUIDs. */
  function Meaning(name: Name): Option<Name> {
    match name
    case Stock(p, w) =>
      if Canonical(p).Some? && Canonical(w).Some? then Some(Stock(Canonical(p).value, Canonical(w).value)) else None
    case Product(p) => if Canonical(p).Some? then Some(Product(Canonical(p).value)) else None
    case Code(c) => Some(Code(c))
  }

  predicate Proper(name: Name) {
    Meaning(name).Some?
  }

  /** Two spellings of one name. */
  predicate Alias(n: Name, m: Name) {
    Proper(n) && Meaning(n) == Meaning(m)
  }

  // The key families

  /** The keys as Redis sees them. */
  lemma KeysSpelled(p: string, w: string, c: string)
    ensures FullKey(CacheKey(Stock(p, w))) == "inventory" + ":" + ("stock:warehouse:" + p + ":" + w)
    ensures FullKey(CacheKey(Product(p))) == "inventory" + ":" + ("stock:" + p)
    ensures FullKey(CacheKey(Code(c))) == "inventory" + ":" + ("warehouse:code:" + c)
  {
  }

  lemma FullKeyInjective(k: string, k': string)
    requires FullKey(k) == FullKey(k')
    ensures k == k'
  {
    assert k == FullKey(k)[10..] && k' == FullKey(k')[10..];
  }

  /** Colon-free parts can be read back from their joining, even against parts that are not colon-free. */
  lemma SplitUnique(p: string, w: string, p': string, w': string)
    requires ColonFree(p) && ColonFree(w) && p + ":" + w == p' + ":" + w'
    ensures p == p' && w == w'
  {
    var s := p + ":" + w;
    assert s[|p'|] == ':';
    assert forall i :: 0 <= i < |s| && i != |p| ==> s[i] == if i < |p| then p[i] else w[i - |p| - 1];
    assert |p| == |p'|;
    assert p == s[..|p|] && w == s[|p| + 1..];
    assert p' == s[..|p|] && w' == s[|p| + 1..];
  }

  /** The stock keys of two pairs of ids coincide exactly when the ids joined by a colon do. */
  lemma StockKeysCollideIff(p: string, w: string, p': string, w': string)
    ensures CacheKey(Stock(p, w)) == CacheKey(Stock(p', w')) <==> p + ":" + w == p' + ":" + w'
  {
    var k, k' := CacheKey(Stock(p, w)), CacheKey(Stock(p', w'));
    assert k == "stock:warehouse:" + (p + ":" + w) && k' == "stock:warehouse:" + (p' + ":" + w');
    assert k[16..] == p + ":" + w && k'[16..] == p' + ":" + w';
  }

  /** A stock key and a product key coincide exactly when the product id spells the rest of the stock key. */
  lemma StockMeetsProductIff(p: string, w: string, q: string)
    ensures CacheKey(Stock(p, w)) == CacheKey(Product(q)) <==> q == "warehouse:" + p + ":" + w
    ensures CacheKey(Stock(p, w)) == CacheKey(Product(q)) ==> !ColonFree(q)
  {
    assert ("warehouse:" + p + ":" + w)[9] == ':';
    var k, k' := CacheKey(Stock(p, w)), CacheKey(Product(q));
    assert k == "stock:" + ("warehouse:" + p + ":" + w);
    assert k[6..] == "warehouse:" + p + ":" + w && k'[6..] == q;
  }

  lemma NoProductId(q: string)
    requires !ColonFree(q)
    ensures !Proper(Product(q))
  {
    if Canonical(q).Some? {
      IdsAreColonFree(q);
    }
  }

  /**
   The three families are injective and pairwise disjoint where it matters: a key of proper ids belongs to no other
   name, proper or not, except that a product id full of colons can spell a stock key.
   */
  lemma KeysDetermineNames(n: Name, m: Name)
    requires Proper(n) && CacheKey(n) == CacheKey(m)
    ensures n == m || (n.Stock? && m.Product? && !Proper(m))
  {
    assert CacheKey(n)[0] == CacheKey(m)[0];
    match (n, m)
    case (Stock(p, w), Stock(p', w')) =>
      IdsAreColonFree(p);
      IdsAreColonFree(w);
      StockKeysCollideIff(p, w, p', w');
      SplitUnique(p, w, p', w');
    case (Stock(p, w), Product(q)) =>
      StockMeetsProductIff(p, w, q);
      NoProductId(q);
    case (Product(q), Stock(p, w)) =>
      StockMeetsProductIff(p, w, q);
      IdsAreColonFree(q);
    case (Product(q), Product(q')) =>
      assert CacheKey(n)[6..] == q && CacheKey(m)[6..] == q';
    case (Code(c), Code(c')) =>
      assert CacheKey(n)[15..] == c && CacheKey(m)[15..] == c';
    case _ =>
  }

  // The inner repository

  function RowsOf(db: Db, productId: string): map<Key, Row> {
    map k | k in db.rows && k.productId == productId :: db.rows[k]
  }

  /** What the uncached repository answers. */
  function Inner(db: Db, codes: map<string, string>, name: Name): Result {
    match Meaning(name)
    case None => Failed
    case Some(Stock(p, w)) => if Key(p, w) in db.rows then Found(One(db.rows[Key(p, w)])) else NotFound
    case Some(Product(p)) => Found(Many(RowsOf(db, p)))
    case Some(Code(c)) => if c in codes then Found(Warehouse(codes[c])) else NotFound
  }

  /** A write, with its ids as the caller spells them. */
  datatype Change =
    | Create(productId: string, warehouseId: string, quantity: int)
    | Restock(productId: string, warehouseId: string, change: int, version: int)
    | Reserving(productId: string, warehouseId: string, quantity: int, version: int)
    | Releasing(productId: string, warehouseId: string, quantity: int)

  predicate ProperIds(c: Change) {
    Canonical(c.productId).Some? && Canonical(c.warehouseId).Some?
  }

  /** The row that a write is about. */
  function Target(c: Change): Key
    requires ProperIds(c)
  {
    Key(Canonical(c.productId).value, Canonical(c.warehouseId).value)
  }

  /** Whether the repository reports the write as successful; a release that matches no row is one. */
  predicate Accepted(db: Db, c: Change) {
    && ProperIds(c)
    && match c
       case Create(_, _, _) => Target(c) !in db.rows
       case Restock(_, _, _, version) => StockMatches(db, Target(c), version)
       case Reserving(_, _, quantity, version) => ReserveMatches(db, Target(c), quantity, version)
       case Releasing(_, _, _) => true
  }

  function Write(db: Db, c: Change): Db
    requires Accepted(db, c)
  {
    match c
    case Create(_, _, quantity) => CreateRow(db, Target(c), quantity)
    case Restock(_, _, change, version) => UpdateStock(db, Target(c), change, version)
    case Reserving(_, _, quantity, version) => ReserveQuantity(db, Target(c), quantity, version)
    case Releasing(_, _, quantity) => ReleaseQuantity(db, Target(c), quantity)
  }

  /** The two names whose keys the cache deletes after a write, as the writer spells them. */
  function Touched(c: Change): seq<Name> {
    [Stock(c.productId, c.warehouseId), Product(c.productId)]
  }

  /** The names, in any spelling, whose answers a write can change. */
  ghost predicate Affects(c: Change, name: Name) {
    Alias(Touched(c)[0], name) || Alias(Touched(c)[1], name)
  }

  lemma WriteAtTarget(db: Db, c: Change)
    requires Accepted(db, c)
    ensures forall k :: k != Target(c) ==> (k in Write(db, c).rows <==> k in db.rows)
    ensures forall k :: k != Target(c) && k in db.rows ==> Write(db, c).rows[k] == db.rows[k]
    ensures Write(db, c) != db ==>
              && Target(c) in Write(db, c).rows
              && (Target(c) in db.rows ==> Write(db, c).rows[Target(c)] != db.rows[Target(c)])
  {
  }

  /** Answers depend only on the rows they are about. */
  lemma SameElsewhere(db: Db, db': Db, key: Key, codes: map<string, string>, name: Name)
    requires forall k :: k != key ==> (k in db'.rows <==> k in db.rows)
    requires forall k :: k != key && k in db.rows ==> db'.rows[k] == db.rows[k]
    requires Meaning(name) != Some(Stock(key.productId, key.warehouseId))
    requires Meaning(name) != Some(Product(key.productId))
    ensures Inner(db', codes, name) == Inner(db, codes, name)
  {
    match Meaning(name)
    case Some(Product(p)) => assert RowsOf(db', p) == RowsOf(db, p);
    case _ =>
  }

  lemma WriteTouchesOnly(db: Db, codes: map<string, string>, c: Change, name: Name)
    requires Accepted(db, c) && !Affects(c, name)
    ensures Inner(Write(db, c), codes, name) == Inner(db, codes, name)
  {
    WriteAtTarget(db, c);
    SameElsewhere(db, Write(db, c), Target(c), codes, name);
  }

  lemma WriteChangesAffected(db: Db, codes: map<string, string>, c: Change, name: Name)
    requires Accepted(db, c) && Write(db, c) != db && Affects(c, name)
    ensures Inner(Write(db, c), codes, name) != Inner(db, codes, name)
  {
    WriteAtTarget(db, c);
    if name.Product? {
      var p, db' := Target(c).productId, Write(db, c);
      assert Target(c) in RowsOf(db', p) && RowsOf(db', p)[Target(c)] == db'.rows[Target(c)];
      assert RowsOf(db, p) != RowsOf(db', p);
    }
  }

  /** A write changes exactly the answers for all spellings of the product and of the pair, if it changes the row. */
  lemma WriteChangesIff(db: Db, codes: map<string, string>, c: Change, name: Name)
    requires Accepted(db, c)
    ensures Inner(Write(db, c), codes, name) != Inner(db, codes, name) <==> Write(db, c) != db && Affects(c, name)
  {
    if !Affects(c, name) {
      WriteTouchesOnly(db, codes, c, name);
    } else if Write(db, c) != db {
      WriteChangesAffected(db, codes, c, name);
    }
  }

  /** What the tables have under a name: the stored row, the stored rows of the product, or the id of the code. */
  ghost predicate Answers(db: Db, codes: map<string, string>, r: Result, name: Name) {
    match name
    case Stock(p, w) =>
      if Canonical(p).None? || Canonical(w).None? then r == Failed
      else
        var key := Key(Canonical(p).value, Canonical(w).value);
        if key !in db.rows then r == NotFound
        else r == Found(One(Row(db.rows[key].onHand, db.rows[key].reserved, db.rows[key].version)))
    case Product(p) =>
      if Canonical(p).None? then r == Failed
      else
        && r.Found? && r.entry.Many?
        && (forall k :: k in r.entry.rows <==> k in db.rows && Some(k.productId) == Canonical(p))
        && (forall k :: k in r.entry.rows ==>
              r.entry.rows[k] == Row(db.rows[k].onHand, db.rows[k].reserved, db.rows[k].version))
    case Code(c) =>
      if c !in codes then r == NotFound else r == Found(Warehouse(codes[c]))
  }

  lemma InnerAnswers(db: Db, codes: map<string, string>, name: Name)
    ensures Answers(db, codes, Inner(db, codes, name), name)
  {
  }

  /** The row that a write leaves behind, of the one it found. */
  ghost function Left(c: Change, row: Row): Row {
    match c
    case Create(_, _, quantity) => Row(quantity, 0, 0)
    case Restock(_, _, change, _) => Row(row.onHand + change, row.reserved, row.version + 1)
    case Reserving(_, _, quantity, _) => Row(row.onHand, row.reserved + quantity, row.version + 1)
    case Releasing(_, _, quantity) => Row(row.onHand, row.reserved - quantity, row.version)
  }

  /** The database accepts a write: the row is new, of the version expected, or has enough left, as the write asks. */
  ghost predicate Goes(rows: map<Key, Row>, c: Change) {
    && Canonical(c.productId).Some? && Canonical(c.warehouseId).Some?
    && var key := Key(Canonical(c.productId).value, Canonical(c.warehouseId).value);
       match c
       case Create(_, _, _) => key !in rows
       case Restock(_, _, _, version) => key in rows && rows[key].version == version
       case Reserving(_, _, quantity, version) =>
         key in rows && rows[key].version == version && rows[key].onHand - rows[key].reserved >= quantity
       case Releasing(_, _, _) => true
  }

  /** An accepted write changes its row, except a release of more than is reserved. */
  ghost predicate Alters(rows: map<Key, Row>, c: Change)
    requires Goes(rows, c)
  {
    var key := Key(Canonical(c.productId).value, Canonical(c.warehouseId).value);
    c.Releasing? ==> key in rows && rows[key].reserved >= c.quantity
  }

  /** The rows after a write. */
  ghost function RowsAfter(rows: map<Key, Row>, c: Change): map<Key, Row> {
    if !Goes(rows, c) || !Alters(rows, c) then rows
    else
      var key := Key(Canonical(c.productId).value, Canonical(c.warehouseId).value);
      rows[key := Left(c, if key in rows then rows[key] else Row(0, 0, 0))]
  }

  lemma WriteIs(before: Db, c: Change)
    ensures Accepted(before, c) <==> Goes(before.rows, c)
    ensures Accepted(before, c) ==>
              Write(before, c) == Db(RowsAfter(before.rows, c), before.reservations, before.movements)
  {
  }

  class CachedRepository {
    var db: Db
    const codes: map<string, string>
    var store: map<string, Entry>

    constructor (db: Db, codes: map<string, string>)
      ensures Coherent() && this.db == db && this.codes == codes && store == map[]
    {
      this.db, this.codes, this.store := db, codes, map[];
    }

    /** The entry under `key` is what the inner repository answers for the name it was stored for. */
    ghost predicate Current(key: string, name: Name)
      reads this
    {
      key in store && Proper(name) && FullKey(CacheKey(name)) == key && Inner(db, codes, name) == Found(store[key])
    }

    ghost predicate Coherent()
      reads this
    {
      forall key :: key in store ==> exists name :: Current(key, name)
    }

    /** Redis GET and the JSON decoding: an entry of another shape than the one asked for is a miss. */
    function Get(name: Name): Result
      reads this
    {
      var key := FullKey(CacheKey(name));
      if key !in store then NotFound
      else
        match (name, store[key])
        case (Stock(_, _), One(_)) => Found(store[key])
        case (Product(_), Many(_)) => Found(store[key])
        case (Code(_), Warehouse(_)) => Found(store[key])
        case _ => NotFound
    }

    /** A hit on a coherent cache is what the inner repository would have said, for any ids whatsoever. */
    lemma HitIsInner(name: Name)
      requires Coherent() && Get(name).Found?
      ensures Get(name) == Inner(db, codes, name)
    {
      var key := FullKey(CacheKey(name));
      var n :| Current(key, n);
      FullKeyInjective(CacheKey(n), CacheKey(name));
      KeysDetermineNames(n, name);
    }

    /**
     GetByProductAndWarehouse, GetByProductID and GetWarehouseByCode: a hit is the entry, and a miss is answered by the
     inner repository and stored. On a coherent cache the answer is the inner repository's either way, whichever Redis
     calls fail, or its failure when it cannot be reached.
     */
    method Read(name: Name, getOk: bool, setOk: bool, reachable: bool) returns (r: Result)
      modifies this`store
      ensures r == if getOk && old(Get(name)).Found? then old(Get(name))
                   else if reachable then Inner(db, codes, name) else Failed
      ensures store == if (getOk && old(Get(name)).Found?) || !r.Found? || !setOk then old(store)
                       else old(store)[FullKey(CacheKey(name)) := r.entry]
      ensures old(Coherent()) ==> Coherent()
      ensures old(Coherent()) && reachable ==> r == Inner(db, codes, name) && Answers(db, codes, r, name)
      ensures old(Coherent()) && !reachable ==> r == Inner(db, codes, name) || r == Failed
    {
      InnerAnswers(db, codes, name);
      if getOk && Get(name).Found? {
        if Coherent() {
          HitIsInner(name);
        }
        return Get(name);
      }
      if !reachable {
        return Failed;
      }
      r := Inner(db, codes, name);
      if r.Found? && setOk {
        var key := FullKey(CacheKey(name));
        store := store[key := r.entry];
        assert Current(key, name);
        if old(Coherent()) {
          forall k | k in store
            ensures exists n :: Current(k, n)
          {
            if k != key {
              var n :| old(Current(k, n));
              assert Current(k, n);
            }
          }
        }
      }
    }

    /** Redis DEL of all the given names, or of none when it fails. */
    method Delete(names: seq<Name>, ok: bool)
      modifies this`store
      ensures store == if ok then old(store) - (set n | n in names :: FullKey(CacheKey(n))) else old(store)
    {
      var fullKeys: seq<string> := [];
      for i := 0 to |names|
        invariant |fullKeys| == i
        invariant forall j :: 0 <= j < i ==> fullKeys[j] == FullKey(CacheKey(names[j]))
      {
        fullKeys := fullKeys + [FullKey(CacheKey(names[i]))];
      }
      if ok {
        assert (set k | k in fullKeys) == (set n | n in names :: FullKey(CacheKey(n)));
        store := store - (set k | k in fullKeys);
      }
    }

    /** An entry that a write makes stale and its invalidation does not delete. */
    ghost predicate LeavesStale(c: Change, deleteOk: bool)
      reads this
    {
      exists n :: Affects(c, n) && FullKey(CacheKey(n)) in store && !(deleteOk && n in Touched(c))
    }

    /**
     Create, UpdateStock, ReserveQuantity and ReleaseQuantity. A refused or failed write changes nothing. After a write
     that changed a row a coherent cache is coherent again if and only if no entry is left for a name the write
     affects: the invalidation went through, and no entry was stored under another spelling of the ids.
     */
    method Perform(c: Change, reachable: bool, deleteOk: bool) returns (ok: bool)
      modifies this
      ensures ok <==> reachable && Goes(old(db).rows, c)
      ensures db == if ok then Db(RowsAfter(old(db).rows, c), old(db).reservations, old(db).movements) else old(db)
      ensures ok <==> reachable && Accepted(old(db), c)
      ensures db == if ok then Write(old(db), c) else old(db)
      ensures store == if ok && deleteOk then old(store) - (set n | n in Touched(c) :: FullKey(CacheKey(n)))
                       else old(store)
      ensures old(Coherent()) && db == old(db) ==> Coherent()
      ensures old(Coherent()) && db != old(db) ==> (Coherent() <==> !old(LeavesStale(c, deleteOk)))
    {
      WriteIs(db, c);
      ok := reachable && Accepted(db, c);
      if !ok {
        return;
      }
      ghost var before, cached := db, store;
      db := Write(db, c);
      Delete(Touched(c), deleteOk);
      if old(Coherent()) {
        if db == before || !old(LeavesStale(c, deleteOk)) {
          forall k | k in store
            ensures exists n :: Current(k, n)
          {
            var n :| old(Current(k, n));
            WriteChangesIff(before, codes, c, n);
            assert Current(k, n);
          }
        } else {
          var n :| Affects(c, n) && FullKey(CacheKey(n)) in cached && !(deleteOk && n in Touched(c));
          Survives(c, n, cached, deleteOk);
          StaleAfter(before, c, n);
        }
      }
    }

    /** The keys deleted after a write belong to the names as the writer spells them, and to no other name. */
    lemma Survives(c: Change, n: Name, cached: map<string, Entry>, deleteOk: bool)
      requires ProperIds(c) && Proper(n) && FullKey(CacheKey(n)) in cached && !(deleteOk && n in Touched(c))
      requires store == if deleteOk then cached - (set t | t in Touched(c) :: FullKey(CacheKey(t))) else cached
      ensures FullKey(CacheKey(n)) in store && store[FullKey(CacheKey(n))] == cached[FullKey(CacheKey(n))]
    {
      if t :| t in Touched(c) && FullKey(CacheKey(t)) == FullKey(CacheKey(n)) && deleteOk {
        FullKeyInjective(CacheKey(t), CacheKey(n));
        KeysDetermineNames(n, t);
      }
    }

    /** An entry that was current before the write is not current after it, for a name that the write affects. */
    lemma StaleAfter(before: Db, c: Change, n: Name)
      requires Accepted(before, c) && db == Write(before, c) && db != before && Affects(c, n)
      requires FullKey(CacheKey(n)) in store
      requires exists m :: Proper(m) && FullKey(CacheKey(m)) == FullKey(CacheKey(n))
                           && Inner(before, codes, m) == Found(store[FullKey(CacheKey(n))])
      ensures !Coherent()
    {
      var key := FullKey(CacheKey(n));
      var m :| Proper(m) && FullKey(CacheKey(m)) == key && Inner(before, codes, m) == Found(store[key]);
      FullKeyInjective(CacheKey(m), CacheKey(n));
      KeysDetermineNames(n, m);
      WriteChangesAffected(before, codes, c, n);
      if Coherent() {
        var n' :| Current(key, n');
        FullKeyInjective(CacheKey(n'), CacheKey(n));
        KeysDetermineNames(n, n');
      }
    }

    /** Redis drops an entry by itself. */
    method Expire(key: string)
      modifies this`store
      ensures store == old(store) - {key}
      ensures old(Coherent()) ==> Coherent()
    {
      store := store - {key};
      if old(Coherent()) {
        forall k | k in store
          ensures exists n :: Current(k, n)
        {
          var n :| old(Current(k, n));
          assert Current(k, n);
        }
      }
    }

    /** Every entry is stored under one of the given names. */
    ghost predicate Within(used: iset<Name>)
      reads this
    {
      forall key :: key in store ==> exists n :: n in used && Proper(n) && FullKey(CacheKey(n)) == key
    }
  }

  // Whole sequences of calls

  /** A call on the cached repository with what Redis and the database do, or an expiry. */
  datatype Op =
    | Reads(name: Name, getOk: bool, setOk: bool)
    | Writes(change: Change, reachable: bool)
    | Expires(key: string)

  datatype Reply = Answer(result: Result) | Outcome(ok: bool) | Silent

  /** What a caller sees of one call when there is no cache, and the tables afterwards. */
  function Direct(db: Db, codes: map<string, string>, op: Op): (Reply, Db) {
    match op
    case Reads(name, _, _) => (Answer(Inner(db, codes, name)), db)
    case Writes(change, reachable) =>
      if reachable && Accepted(db, change) then (Outcome(true), Write(db, change)) else (Outcome(false), db)
    case Expires(_) => (Silent, db)
  }

  function DirectReplies(db: Db, codes: map<string, string>, ops: seq<Op>): seq<Reply>
    decreases |ops|
  {
    if ops == [] then []
    else
      var (reply, db') := Direct(db, codes, ops[0]);
      [reply] + DirectReplies(db', codes, ops[1..])
  }

  /** The names that a call uses, as it spells them. */
  function Names(op: Op): seq<Name> {
    match op
    case Reads(name, _, _) => [name]
    case Writes(change, _) => Touched(change)
    case Expires(_) => []
  }

  /** One spelling per id. */
  ghost predicate OneSpelling(used: iset<Name>) {
    forall n, m :: n in used && m in used && Alias(n, m) ==> n == m
  }

  /** With one spelling per id, an invalidation that goes through leaves nothing stale. */
  lemma NothingLeftStale(repo: CachedRepository, used: iset<Name>, c: Change)
    requires OneSpelling(used) && repo.Within(used) && forall n :: n in Touched(c) ==> n in used
    ensures !repo.LeavesStale(c, true)
  {
    forall n | Affects(c, n) && FullKey(CacheKey(n)) in repo.store
      ensures n in Touched(c)
    {
      var m :| m in used && Proper(m) && FullKey(CacheKey(m)) == FullKey(CacheKey(n));
      FullKeyInjective(CacheKey(m), CacheKey(n));
      KeysDetermineNames(m, n);
      assert Touched(c)[0] in used && Touched(c)[1] in used;
    }
  }

  /** One call, answered as it would be without a cache. */
  method ServeOne(repo: CachedRepository, op: Op, ghost used: iset<Name>) returns (reply: Reply)
    requires repo.Coherent() && repo.Within(used) && OneSpelling(used) && forall n :: n in Names(op) ==> n in used
    modifies repo
    ensures repo.Coherent() && repo.Within(used)
    ensures (reply, repo.db) == Direct(old(repo.db), repo.codes, op)
  {
    match op {
      case Reads(name, getOk, setOk) =>
        assert name in Names(op);
        var r := repo.Read(name, getOk, setOk, true);
        reply := Answer(r);
      case Writes(change, reachable) =>
        NothingLeftStale(repo, used, change);
        var ok := repo.Perform(change, reachable, true);
        reply := Outcome(ok);
      case Expires(key) =>
        repo.Expire(key);
        reply := Silent;
    }
  }

  /**
   The cache refines the repository: over every sequence of calls that spell each id in one way and whose invalidations
   go through, whichever Redis reads and writes fail and whenever entries expire, callers see exactly what they would
   see without a cache.
   */
  method Serve(repo: CachedRepository, ops: seq<Op>, ghost used: iset<Name>) returns (replies: seq<Reply>)
    requires repo.Coherent() && repo.Within(used) && OneSpelling(used)
    requires forall i, n :: 0 <= i < |ops| && n in Names(ops[i]) ==> n in used
    modifies repo
    ensures repo.Coherent() && repo.Within(used)
    ensures replies == DirectReplies(old(repo.db), repo.codes, ops)
  {
    replies := [];
    for i := 0 to |ops|
      invariant repo.Coherent() && repo.Within(used)
      invariant replies + DirectReplies(repo.db, repo.codes, ops[i..]) == DirectReplies(old(repo.db), repo.codes, ops)
    {
      ghost var before := repo.db;
      assert ops[i..][0] == ops[i] && ops[i..][1..] == ops[i + 1..];
      var reply := ServeOne(repo, ops[i], used);
      assert DirectReplies(before, repo.codes, ops[i..]) == [reply] + DirectReplies(repo.db, repo.codes, ops[i + 1..]);
      replies := replies + [reply];
    }
    assert ops[|ops|..] == [];
  }

  /**
   A write and then a read of its row and of its product, on a coherent cache whose invalidation leaves nothing stale:
   the reads find what the write has left, whichever other Redis calls fail.
   */
  method WriteThenRead(repo: CachedRepository, c: Change, getOk: bool, setOk: bool)
    returns (ok: bool, row: Result, list: Result)
    requires repo.Coherent() && !repo.LeavesStale(c, true)
    modifies repo
    ensures repo.Coherent()
    ensures ok ==> ProperIds(c)
    ensures ok && c.Create? ==> row == Found(One(Row(c.quantity, 0, 0)))
    ensures ok && !c.Create? && !c.Releasing? ==> Target(c) in old(repo.db).rows
    ensures ok && c.Restock? ==>
              var before := old(repo.db).rows[Target(c)];
              row == Found(One(Row(before.onHand + c.change, before.reserved, before.version + 1)))
    ensures ok && c.Reserving? ==>
              var before := old(repo.db).rows[Target(c)];
              row == Found(One(Row(before.onHand, before.reserved + c.quantity, before.version + 1)))
    ensures ok && c.Releasing? && Target(c) in old(repo.db).rows ==>
              var before := old(repo.db).rows[Target(c)];
              row == Found(One(if before.reserved >= c.quantity
                               then Row(before.onHand, before.reserved - c.quantity, before.version) else before))
    ensures ok && row.Found? ==> list.Found? && list.entry.Many? && Target(c) in list.entry.rows
                                 && row.entry == One(list.entry.rows[Target(c)])
  {
    ok := repo.Perform(c, true, true);
    row := repo.Read(Stock(c.productId, c.warehouseId), getOk, setOk, true);
    list := repo.Read(Product(c.productId), getOk, setOk, true);
  }

  lemma RestockMoves(key: Key, row: Row, c: Change)
    requires c.Restock? && ProperIds(c) && Target(c) == key && c.version == row.version
    ensures var db := Db(map[key := row], [], []);
            Accepted(db, c) && Write(db, c) != db
  {
    var db := Db(map[key := row], [], []);
    assert Write(db, c).rows[key].version != db.rows[key].version;
  }

  lemma OtherSpellingKept(c: Change, q: string)
    requires Canonical(q).Some? && q != c.productId
    ensures FullKey(CacheKey(Product(q))) !in (set t | t in Touched(c) :: FullKey(CacheKey(t)))
  {
    forall t | t in Touched(c)
      ensures FullKey(CacheKey(t)) != FullKey(CacheKey(Product(q)))
    {
      if FullKey(CacheKey(t)) == FullKey(CacheKey(Product(q))) {
        FullKeyInjective(CacheKey(t), CacheKey(Product(q)));
        KeysDetermineNames(Product(q), t);
      }
    }
  }

  /** A product list is read before and after a write that spells the product in another way. */
  method ReadAround(repo: CachedRepository, c: Change, q: string) returns (first: Result, second: Result)
    requires Canonical(q).Some? && q != c.productId && Accepted(repo.db, c)
    requires FullKey(CacheKey(Product(q))) !in repo.store
    modifies repo
    ensures repo.db == Write(old(repo.db), c)
    ensures first == second == Inner(old(repo.db), repo.codes, Product(q))
  {
    OtherSpellingKept(c, q);
    first := repo.Read(Product(q), true, true, true);
    var ok := repo.Perform(c, true, true);
    second := repo.Read(Product(q), true, true, true);
  }

  /**
   Why one spelling per id is needed: a product list read under one spelling is still answered from the cache after the
   stock was changed under another, although no call failed.
   */
  method StaleUnderAnotherSpelling(p: string, q: string, w: string, row: Row, change: int)
    returns (first: Result, second: Result, inner: Result)
    requires p != q && Canonical(p) == Canonical(q) && Canonical(p).Some? && Canonical(w).Some?
    ensures first.Found? && second == first && inner.Found? && inner != first
  {
    var key := Key(Canonical(p).value, Canonical(w).value);
    var before := Db(map[key := row], [], []);
    var write := Restock(p, w, change, row.version);
    RestockMoves(key, row, write);
    WriteChangesAffected(before, map[], write, Product(q));
    var repo := new CachedRepository(before, map[]);
    first, second := ReadAround(repo, write, q);
    inner := Inner(repo.db, map[], Product(q));
  }

  /** In particular under upper case. */
  method StaleUnderUpperCase(row: Row, change: int) returns (first: Result, second: Result, inner: Result)
    ensures first.Found? && second == first && inner.Found? && inner != first
  {
    TwoSpellings();
    var text := Repeated(16);
    first, second, inner := StaleUnderAnotherSpelling(text, Uppers(text), text, row, change);
  }
}
