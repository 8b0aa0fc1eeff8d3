/**
 * `shortIDCache`: memoises a metric key (labels plus URN) to a short id,
 * keeps the metadata record of every id, and answers batch lookups. The
 * cache is a value threaded through the calls; the mutex that guards it in
 * the harness only serialises these same steps.
 */
module ShortIds {
  import opened Wrappers
  import opened Numeric
  import opened Schema
  import opened Info
  import opened Base36

  /** `shortKey`: the identity of a metric. */
  datatype ShortKey = ShortKey(labels: Labels, urn: Urn)

  datatype Cache = Cache(
    labels2ShortIds: map<ShortKey, string>,
    shortIds2Infos: map<string, MonitoringInfo>,
    lastShortID: int64)

  /** A cache after a lookup, with the id the lookup returned. */
  datatype Allocation = Allocation(cache: Cache, id: string)

  /** The metadata record bound to a key's short id: no payload. */
  function Descriptor(k: ShortKey): (d: MonitoringInfo)
    ensures d.UrnString() == UrnName(k.urn)
    ensures d.TypeString() == TypeName(UrnToType(k.urn))
    ensures d.labels == UserLabels(k.labels)
    ensures d.payload == []
  {
    MonitoringInfo(k.urn, UrnToType(k.urn), UserLabels(k.labels), [])
  }

  /** `id` is the base-36 rendering of a counter value in 1..last. */
  predicate IssuedUpTo(id: string, last: int)
  {
    match ParseInt(id)
    case Some(n) => 1 <= n <= last
    case None => false
  }

  /**
   * The cache invariant: every id handed out has its metadata record, that
   * record describes the key, no two keys share an id, and every stored id
   * came from the counter, so the counter's next value is fresh.
   */
  ghost predicate Valid(c: Cache)
  {
    && 0 <= c.lastShortID
    && Described(c)
    && AllIssued(c)
    && DistinctIds(c)
  }

  /** Every key's id has a record, and the record is the key's descriptor. */
  ghost predicate Described(c: Cache)
  {
    forall k | k in c.labels2ShortIds ::
      c.labels2ShortIds[k] in c.shortIds2Infos && c.shortIds2Infos[c.labels2ShortIds[k]] == Descriptor(k)
  }

  /** Every stored id is a counter value already handed out. */
  ghost predicate AllIssued(c: Cache)
  {
    forall id | id in c.shortIds2Infos :: IssuedUpTo(id, c.lastShortID)
  }

  /** No two keys share an id. */
  ghost predicate DistinctIds(c: Cache)
  {
    forall k1, k2 | k1 in c.labels2ShortIds && k2 in c.labels2ShortIds && k1 != k2 ::
      c.labels2ShortIds[k1] != c.labels2ShortIds[k2]
  }

  /** `c2` keeps every id and every record of `c`: ids are never reassigned and records never change. */
  ghost predicate Extends(c: Cache, c2: Cache)
  {
    && (forall k | k in c.labels2ShortIds :: k in c2.labels2ShortIds && c2.labels2ShortIds[k] == c.labels2ShortIds[k])
    && (forall id | id in c.shortIds2Infos :: id in c2.shortIds2Infos && c2.shortIds2Infos[id] == c.shortIds2Infos[id])
  }

  /** `newShortIDCache`. */
  function NewCache(): (c: Cache)
    ensures Valid(c)
    ensures c.labels2ShortIds == map[] && c.shortIds2Infos == map[] && c.lastShortID == 0
  {
    Cache(map[], map[], 0)
  }

  /** `getNextShortID`: bumps the counter (wrapping as int64 addition does) and renders it in base 36. */
  function GetNextShortID(c: Cache): (r: Allocation)
    ensures r.cache.labels2ShortIds == c.labels2ShortIds && r.cache.shortIds2Infos == c.shortIds2Infos
    ensures c.lastShortID < MAX_INT64 ==> r.cache.lastShortID == c.lastShortID + 1
    ensures c.lastShortID == MAX_INT64 ==> r.cache.lastShortID == MIN_INT64
    ensures r.id == FormatInt(r.cache.lastShortID)
    ensures ParseInt(r.id) == Some(r.cache.lastShortID as int)
  {
    var id := WrapInt64(c.lastShortID + 1);
    ParseFormatInt(id);
    Allocation(c.(lastShortID := id), FormatInt(id))
  }

  /**
   * `getShortID`: the id of a known key, with the cache untouched; otherwise a
   * fresh id from the counter, bound to the key and to the key's descriptor.
   */
  function GetShortID(c: Cache, l: Labels, urn: Urn): (r: Allocation)
    ensures ShortKey(l, urn) in r.cache.labels2ShortIds && r.cache.labels2ShortIds[ShortKey(l, urn)] == r.id
    ensures ShortKey(l, urn) in c.labels2ShortIds ==> r == Allocation(c, c.labels2ShortIds[ShortKey(l, urn)])
    ensures ShortKey(l, urn) !in c.labels2ShortIds ==>
      && r.cache.lastShortID == WrapInt64(c.lastShortID + 1)
      && r.id == FormatInt(r.cache.lastShortID)
      && ParseInt(r.id) == Some(r.cache.lastShortID as int)
      && r.id in r.cache.shortIds2Infos && r.cache.shortIds2Infos[r.id] == Descriptor(ShortKey(l, urn))
  {
    var k := ShortKey(l, urn);
    if k in c.labels2ShortIds then
      Allocation(c, c.labels2ShortIds[k])
    else
      var next := GetNextShortID(c);
      Allocation(
        next.cache.(
          labels2ShortIds := next.cache.labels2ShortIds[k := next.id],
          shortIds2Infos := next.cache.shortIds2Infos[next.id := Descriptor(k)]),
        next.id)
  }

  /**
   * In a valid cache, the record under a key's id names the key's URN and
   * its wire type and carries exactly the three user labels of the key.
   */
  lemma CachedRecordShape(c: Cache, k: ShortKey)
    requires Valid(c)
    requires k in c.labels2ShortIds
    ensures var d := c.shortIds2Infos[c.labels2ShortIds[k]];
      && d.UrnString() == UrnName(k.urn)
      && d.TypeString() == TypeName(UrnToType(k.urn))
      && d.labels.Keys == {PTRANSFORM, NAMESPACE, NAME}
      && d.labels[PTRANSFORM] == k.labels.transform
      && d.labels[NAMESPACE] == k.labels.namespace
      && d.labels[NAME] == k.labels.name
      && d.payload == []
  {
  }

  /** A lookup adds at most its own key and id; every other entry is left as it was. */
  lemma GetShortIDFrame(c: Cache, l: Labels, urn: Urn)
    ensures GetShortID(c, l, urn).cache.labels2ShortIds.Keys == c.labels2ShortIds.Keys + {ShortKey(l, urn)}
    ensures forall k | k in c.labels2ShortIds :: GetShortID(c, l, urn).cache.labels2ShortIds[k] == c.labels2ShortIds[k]
    ensures ShortKey(l, urn) !in c.labels2ShortIds ==>
      GetShortID(c, l, urn).cache.shortIds2Infos.Keys == c.shortIds2Infos.Keys + {GetShortID(c, l, urn).id}
    ensures forall id | id in c.shortIds2Infos && id != GetShortID(c, l, urn).id ::
      GetShortID(c, l, urn).cache.shortIds2Infos[id] == c.shortIds2Infos[id]
  {
  }

  /** The counter's next value is not an id the cache already holds. */
  lemma FreshIdIsNew(c: Cache)
    requires Valid(c)
    requires c.lastShortID < MAX_INT64
    ensures FormatInt(c.lastShortID + 1) !in c.shortIds2Infos
    ensures forall k | k in c.labels2ShortIds :: c.labels2ShortIds[k] != FormatInt(c.lastShortID + 1)
  {
    ParseFormatInt(c.lastShortID + 1);
  }

  /**
   * A lookup keeps the invariant while the counter has room, never changes an
   * existing id or record, and afterwards the returned id has the key's
   * descriptor.
   */
  lemma GetShortIDPreservesValid(c: Cache, l: Labels, urn: Urn)
    requires Valid(c)
    requires c.lastShortID < MAX_INT64
    ensures Valid(GetShortID(c, l, urn).cache)
    ensures Extends(c, GetShortID(c, l, urn).cache)
    ensures GetShortID(c, l, urn).cache.lastShortID <= c.lastShortID + 1
    ensures GetShortID(c, l, urn).cache.shortIds2Infos[GetShortID(c, l, urn).id] == Descriptor(ShortKey(l, urn))
  {
    if ShortKey(l, urn) !in c.labels2ShortIds {
      MissPreservesValid(c, ShortKey(l, urn), GetShortID(c, l, urn));
    }
  }

  /** The miss case of `GetShortIDPreservesValid`, on the allocation's parts. */
  lemma MissPreservesValid(c: Cache, k: ShortKey, r: Allocation)
    requires Valid(c)
    requires c.lastShortID < MAX_INT64
    requires k !in c.labels2ShortIds
    requires r.id == FormatInt(c.lastShortID + 1)
    requires r.cache == Cache(c.labels2ShortIds[k := r.id], c.shortIds2Infos[r.id := Descriptor(k)], c.lastShortID + 1)
    ensures Valid(r.cache)
    ensures Extends(c, r.cache)
  {
    FreshIdIsNew(c);
    MissIdsIssued(c, r.cache, r.id);
    MissIdsDescribed(c, k, r.cache, r.id);
    MissIdsDistinct(c, k, r.cache, r.id);
  }

  /** After a miss every stored id still comes from the counter. */
  lemma MissIdsIssued(c: Cache, c2: Cache, id: string)
    requires AllIssued(c)
    requires 0 <= c.lastShortID < MAX_INT64
    requires id == FormatInt(c.lastShortID + 1)
    requires c2.shortIds2Infos.Keys == c.shortIds2Infos.Keys + {id}
    requires c2.lastShortID == c.lastShortID + 1
    ensures AllIssued(c2)
  {
    ParseFormatInt(c.lastShortID + 1);
    assert IssuedUpTo(id, c2.lastShortID);
    forall s | s in c2.shortIds2Infos
      ensures IssuedUpTo(s, c2.lastShortID)
    {
      if s != id {
        assert IssuedUpTo(s, c.lastShortID);
      }
    }
  }

  /** After a miss with a fresh id, every key's id still has its descriptor. */
  lemma MissIdsDescribed(c: Cache, k: ShortKey, c2: Cache, id: string)
    requires Described(c)
    requires id !in c.shortIds2Infos
    requires c2.labels2ShortIds == c.labels2ShortIds[k := id]
    requires c2.shortIds2Infos == c.shortIds2Infos[id := Descriptor(k)]
    ensures Described(c2)
  {
    forall k1 | k1 in c2.labels2ShortIds
      ensures c2.labels2ShortIds[k1] in c2.shortIds2Infos && c2.shortIds2Infos[c2.labels2ShortIds[k1]] == Descriptor(k1)
    {
      if k1 != k {
        var s := c.labels2ShortIds[k1];
        assert c2.labels2ShortIds[k1] == s;
        assert c2.shortIds2Infos[s] == c.shortIds2Infos[s];
      }
    }
  }

  /** After a miss with a fresh id, no two keys share an id. */
  lemma MissIdsDistinct(c: Cache, k: ShortKey, c2: Cache, id: string)
    requires DistinctIds(c)
    requires forall k1 | k1 in c.labels2ShortIds :: c.labels2ShortIds[k1] != id
    requires c2.labels2ShortIds == c.labels2ShortIds[k := id]
    ensures DistinctIds(c2)
  {
    forall k1, k2 | k1 in c2.labels2ShortIds && k2 in c2.labels2ShortIds && k1 != k2
      ensures c2.labels2ShortIds[k1] != c2.labels2ShortIds[k2]
    {
      if k1 != k && k2 != k {
        assert c2.labels2ShortIds[k1] == c.labels2ShortIds[k1];
        assert c2.labels2ShortIds[k2] == c.labels2ShortIds[k2];
      }
    }
  }

  /** Asking again for the same key returns the same id and changes nothing. */
  lemma GetShortIDIdempotent(c: Cache, l: Labels, urn: Urn)
    ensures GetShortID(GetShortID(c, l, urn).cache, l, urn) == GetShortID(c, l, urn)
  {
  }

  /** Two distinct keys looked up one after the other get distinct ids, and the first keeps its id. */
  lemma DistinctKeysDistinctIds(c: Cache, a: ShortKey, b: ShortKey)
    requires Valid(c)
    requires c.lastShortID + 2 <= MAX_INT64
    requires a != b
    ensures var ra := GetShortID(c, a.labels, a.urn);
            var rb := GetShortID(ra.cache, b.labels, b.urn);
            ra.id != rb.id && rb.cache.labels2ShortIds[a] == ra.id
  {
    var ra := GetShortID(c, a.labels, a.urn);
    GetShortIDPreservesValid(c, a.labels, a.urn);
    GetShortIDPreservesValid(ra.cache, b.labels, b.urn);
  }

  /** A run of lookups, in order. */
  function GetShortIDs(c: Cache, keys: seq<ShortKey>): Cache
    decreases |keys|
  {
    if |keys| == 0 then c
    else GetShortIDs(GetShortID(c, keys[0].labels, keys[0].urn).cache, keys[1..])
  }

  /**
   * After any run of lookups that does not exhaust the counter the invariant
   * holds, nothing earlier was changed, and every key looked up has an id
   * with its metadata.
   */
  lemma {:induction false} GetShortIDsValid(c: Cache, keys: seq<ShortKey>)
    requires Valid(c)
    requires c.lastShortID + |keys| <= MAX_INT64
    ensures Valid(GetShortIDs(c, keys))
    ensures Extends(c, GetShortIDs(c, keys))
    ensures GetShortIDs(c, keys).lastShortID <= c.lastShortID + |keys|
    ensures forall i | 0 <= i < |keys| :: keys[i] in GetShortIDs(c, keys).labels2ShortIds
    decreases |keys|
  {
    if |keys| > 0 {
      var c1 := GetShortID(c, keys[0].labels, keys[0].urn).cache;
      GetShortIDPreservesValid(c, keys[0].labels, keys[0].urn);
      GetShortIDsValid(c1, keys[1..]);
      var c2 := GetShortIDs(c1, keys[1..]);
      forall i | 0 <= i < |keys|
        ensures keys[i] in c2.labels2ShortIds
      {
        if i > 0 {
          assert keys[i] == keys[1..][i - 1];
        }
      }
    }
  }

  /** From a new cache, every run of fewer than 2^63 lookups leaves a valid cache. */
  lemma NewCacheStaysValid(keys: seq<ShortKey>)
    requires |keys| <= MAX_INT64
    ensures Valid(GetShortIDs(NewCache(), keys))
  {
    GetShortIDsValid(NewCache(), keys);
  }

  /**
   * `shortIdsToInfos`: a map whose keys are exactly the requested ids; a known
   * id maps to its stored record and an unknown one to nil.
   */
  method ShortIdsToInfos(c: Cache, shortIds: seq<string>) returns (m: map<string, Option<MonitoringInfo>>)
    ensures forall s :: s in m <==> s in shortIds
    ensures forall s | s in m && s in c.shortIds2Infos :: m[s] == Some(c.shortIds2Infos[s])
    ensures forall s | s in m && s !in c.shortIds2Infos :: m[s] == None
  {
    m := map[];
    var i := 0;
    while i < |shortIds|
      invariant 0 <= i <= |shortIds|
      invariant forall s :: s in m <==> s in shortIds[..i]
      invariant forall s | s in m && s in c.shortIds2Infos :: m[s] == Some(c.shortIds2Infos[s])
      invariant forall s | s in m && s !in c.shortIds2Infos :: m[s] == None
    {
      var s := shortIds[i];
      if s in c.shortIds2Infos {
        m := m[s := Some(c.shortIds2Infos[s])];
      } else {
        m := m[s := None];
      }
      assert shortIds[..i + 1] == shortIds[..i] + [s];
      i := i + 1;
    }
    assert shortIds[..i] == shortIds;
  }

  /** In a valid cache, batch lookup of a key's id yields that key's descriptor. */
  method DescribeKnown(c: Cache, k: ShortKey) returns (d: Option<MonitoringInfo>)
    requires Valid(c)
    requires k in c.labels2ShortIds
    ensures d == Some(Descriptor(k))
  {
    var m := ShortIdsToInfos(c, [c.labels2ShortIds[k]]);
    d := m[c.labels2ShortIds[k]];
  }
}
