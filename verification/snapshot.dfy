/**
 * `monitoring`: one reporting pass over the metric store. The store's
 * extractor callbacks become a finite sequence of observations; the pass is
 * a fold over them that builds the legacy per-transform tree, the list of
 * monitoring-info records and the payloads keyed by short id, threading the
 * short-id cache. The optional progress snapshot is applied at the end.
 */
module Snapshot {
  import opened Wrappers
  import opened Numeric
  import opened Schema
  import opened Info
  import opened Payload
  import opened ShortIds
  import Base36

  /** One value the store's extractor reports, with its labels. */
  datatype Observation =
    | SumInt64(labels: Labels, value: int64)
    | DistributionInt64(labels: Labels, dist: DistributionData)
    | GaugeInt64(labels: Labels, value: int64, timestampMs: int64)

  /** The bundle's progress snapshot: active transform id, display name, collection id, element count. */
  datatype Progress = Progress(id: string, name: string, pid: string, count: int64)

  // The legacy report tree (`fnpb.Metrics`).

  datatype MetricName = MetricName(name: string, namespace: string)

  datatype UserData =
    | Counter(value: int64)
    | Distribution(dist: DistributionData)
    | Gauge(value: int64, timestampMs: int64)

  datatype UserMetric = UserMetric(metricName: MetricName, data: UserData)

  /** A transform's user metrics and, when set by the progress snapshot, its output element counts. */
  datatype PTransformMetrics = PTransformMetrics(user: seq<UserMetric>, outputElementCounts: Option<map<string, int64>>)

  type Transforms = map<string, PTransformMetrics>

  /**
   * `toName`: the legacy name of a user metric names the same metric as the
   * NAME and NAMESPACE labels of its monitoring-info record.
   */
  function ToName(l: Labels): (n: MetricName)
    ensures n == MetricName(UserLabels(l)[NAME], UserLabels(l)[NAMESPACE])
  {
    MetricName(l.name, l.namespace)
  }

  /** The legacy entry of one observation: its name and its raw value, not the encoded payload. */
  function LegacyEntry(o: Observation): UserMetric
  {
    match o
    case SumInt64(l, v) => UserMetric(ToName(l), Counter(v))
    case DistributionInt64(l, d) => UserMetric(ToName(l), Distribution(d))
    case GaugeInt64(l, v, t) => UserMetric(ToName(l), Gauge(v, t))
  }

  /**
   * `getTransform`: the entry of the labels' transform, created empty and
   * stored when missing; no other entry changes.
   */
  function GetTransform(transforms: Transforms, l: Labels): (r: (Transforms, PTransformMetrics))
    ensures l.transform in r.0 && r.0[l.transform] == r.1
    ensures r.0.Keys == transforms.Keys + {l.transform}
    ensures forall t | t in transforms :: r.0[t] == transforms[t]
    ensures l.transform !in transforms ==> r.1 == PTransformMetrics([], None)
  {
    if l.transform in transforms then (transforms, transforms[l.transform])
    else
      var pb := PTransformMetrics([], None);
      (transforms[l.transform := pb], pb)
  }

  /** The legacy callback for one observation: append its entry to its transform. */
  function LegacyStep(transforms: Transforms, o: Observation): Transforms
  {
    var (m, pb) := GetTransform(transforms, o.labels);
    m[o.labels.transform := pb.(user := pb.user + [LegacyEntry(o)])]
  }

  /** The legacy extraction pass, in observation order. */
  function LegacyPass(obs: seq<Observation>): Transforms
    decreases |obs|
  {
    if |obs| == 0 then map[] else LegacyStep(LegacyPass(obs[..|obs| - 1]), obs[|obs| - 1])
  }

  /** Reference definition: the legacy entries of the observations on transform `t`, in order. */
  function UserEntries(obs: seq<Observation>, t: string): seq<UserMetric>
    decreases |obs|
  {
    if |obs| == 0 then []
    else (if obs[0].labels.transform == t then [LegacyEntry(obs[0])] else []) + UserEntries(obs[1..], t)
  }

  /** Some observation is on transform `t`. */
  ghost predicate TransformSeen(obs: seq<Observation>, t: string)
  {
    exists i | 0 <= i < |obs| :: obs[i].labels.transform == t
  }

  lemma {:induction false} UserEntriesSnoc(obs: seq<Observation>, o: Observation, t: string)
    ensures UserEntries(obs + [o], t) ==
      UserEntries(obs, t) + (if o.labels.transform == t then [LegacyEntry(o)] else [])
    decreases |obs|
  {
    if |obs| == 0 {
      assert [o][1..] == [];
    } else {
      assert (obs + [o])[1..] == obs[1..] + [o];
      UserEntriesSnoc(obs[1..], o, t);
    }
  }

  /**
   * The legacy pass has an entry for exactly the transforms observed, and
   * each entry lists that transform's observations in order, with no element
   * counts.
   */
  lemma {:induction false} LegacyPassContents(obs: seq<Observation>)
    ensures forall t :: t in LegacyPass(obs) <==> TransformSeen(obs, t)
    ensures forall t | t in LegacyPass(obs) :: LegacyPass(obs)[t] == PTransformMetrics(UserEntries(obs, t), None)
    decreases |obs|
  {
    if |obs| > 0 {
      var n := |obs| - 1;
      var prefix := obs[..n];
      var o := obs[n];
      assert obs == prefix + [o];
      LegacyPassContents(prefix);
      var before := LegacyPass(prefix);
      var after := LegacyPass(obs);
      forall t
        ensures t in after <==> TransformSeen(obs, t)
      {
        if t in before {
          var i :| 0 <= i < |prefix| && prefix[i].labels.transform == t;
          assert obs[i].labels.transform == t;
        }
        if TransformSeen(obs, t) && t != o.labels.transform {
          var i :| 0 <= i < |obs| && obs[i].labels.transform == t;
          assert prefix[i].labels.transform == t;
        }
      }
      forall t | t in after
        ensures after[t] == PTransformMetrics(UserEntries(obs, t), None)
      {
        UserEntriesSnoc(prefix, o, t);
        if t == o.labels.transform && t !in before {
          assert !TransformSeen(prefix, t);
          UserEntriesNone(prefix, t);
        }
      }
    }
  }

  /** With no observation on `t`, there are no entries for `t`. */
  lemma {:induction false} UserEntriesNone(obs: seq<Observation>, t: string)
    requires !TransformSeen(obs, t)
    ensures UserEntries(obs, t) == []
    decreases |obs|
  {
    if |obs| > 0 {
      assert obs[0].labels.transform != t;
      forall i | 0 <= i < |obs[1..]|
        ensures obs[1..][i].labels.transform != t
      {
        assert obs[1..][i] == obs[i + 1];
      }
      UserEntriesNone(obs[1..], t);
    }
  }

  // The monitoring-info pass.

  /** The URN the callback for each observation kind looks up its short id with. */
  function ObservationUrn(o: Observation): Urn
  {
    match o
    case SumInt64(_, _) => UserSumInt64
    case DistributionInt64(_, _) => UserDistInt64
    case GaugeInt64(_, _, _) => UserLatestMsInt64
  }

  /** The wire type the callback for each observation kind writes into its record. */
  function ObservationType(o: Observation): MType
  {
    match o
    case SumInt64(_, _) => TypeSumInt64
    case DistributionInt64(_, _) => TypeDistInt64
    case GaugeInt64(_, _, _) => TypeLatestMsInt64
  }

  /** The short-id cache key of an observation. */
  function ObservationKey(o: Observation): ShortKey
  {
    ShortKey(o.labels, ObservationUrn(o))
  }

  /** The encoded payload of an observation. */
  function ObservationPayload(o: Observation): seq<byte>
  {
    match o
    case SumInt64(_, v) => Int64Counter(v)
    case DistributionInt64(_, d) => Int64Distribution(d)
    case GaugeInt64(_, v, t) => Int64Latest(t, v)
  }

  /** The full monitoring-info record an observation appends. */
  function ObservationRecord(o: Observation): MonitoringInfo
  {
    MonitoringInfo(ObservationUrn(o), ObservationType(o), UserLabels(o.labels), ObservationPayload(o))
  }

  /**
   * The record each callback appends agrees with the descriptor the cache
   * stores for its short id: the hard-coded type is `urnToType` of the URN.
   */
  lemma RecordMatchesDescriptor(o: Observation)
    ensures ObservationRecord(o).(payload := []) == Descriptor(ObservationKey(o))
    ensures ObservationType(o) == UrnToType(ObservationUrn(o))
  {
  }

  /** Each observation's payload decodes back to the values it was built from, field by field. */
  lemma ObservationPayloadDecodes(o: Observation)
    ensures o.SumInt64? ==> DecodeCounter(ObservationPayload(o)) == Some(o.value)
    ensures o.DistributionInt64? ==> DecodeDistribution(ObservationPayload(o)) == Some(o.dist)
    ensures o.GaugeInt64? ==> DecodeLatest(ObservationPayload(o)) == Some((o.timestampMs, o.value))
  {
    match o
    case SumInt64(_, v) => CounterRoundTrip(v);
    case DistributionInt64(_, d) => DistributionRoundTrip(d);
    case GaugeInt64(_, v, t) => LatestRoundTrip(t, v);
  }

  /** The state the monitoring-info pass threads: the cache, the records so far, the payloads so far. */
  datatype PassState = PassState(cache: Cache, infos: seq<MonitoringInfo>, payloads: map<string, seq<byte>>)

  /** The monitoring-info callback for one observation. */
  function MonitoringStep(st: PassState, o: Observation): PassState
  {
    var payload := ObservationPayload(o);
    var r := GetShortID(st.cache, o.labels, ObservationUrn(o));
    PassState(r.cache, st.infos + [ObservationRecord(o)], st.payloads[r.id := payload])
  }

  /** The monitoring-info extraction pass, in observation order. */
  function MonitoringPass(c: Cache, obs: seq<Observation>): PassState
    decreases |obs|
  {
    if |obs| == 0 then PassState(c, [], map[])
    else MonitoringStep(MonitoringPass(c, obs[..|obs| - 1]), obs[|obs| - 1])
  }

  /** The short id the cache holds for an observation's key. */
  function ShortIdOf(c: Cache, o: Observation): string
    requires ObservationKey(o) in c.labels2ShortIds
  {
    c.labels2ShortIds[ObservationKey(o)]
  }

  /** No later observation has the same key as observation `i`. */
  ghost predicate LastOfKey(obs: seq<Observation>, i: int)
  {
    0 <= i < |obs| && forall j | i < j < |obs| :: ObservationKey(obs[j]) != ObservationKey(obs[i])
  }

  /** The pass appends exactly one record per observation, in order. */
  lemma {:induction false} PassRecords(c: Cache, obs: seq<Observation>)
    ensures |MonitoringPass(c, obs).infos| == |obs|
    ensures forall i | 0 <= i < |obs| :: MonitoringPass(c, obs).infos[i] == ObservationRecord(obs[i])
    decreases |obs|
  {
    if |obs| > 0 {
      var n := |obs| - 1;
      var prefix := obs[..n];
      PassRecords(c, prefix);
      var st := MonitoringPass(c, prefix);
      var infos := MonitoringPass(c, obs).infos;
      assert infos == st.infos + [ObservationRecord(obs[n])];
      forall i | 0 <= i < |obs|
        ensures infos[i] == ObservationRecord(obs[i])
      {
        if i < n {
          assert prefix[i] == obs[i];
          assert infos[i] == st.infos[i];
        }
      }
    }
  }

  /** `c2` keeps every key's id from `c`. */
  ghost predicate KeepsIds(c: Cache, c2: Cache)
  {
    forall k | k in c.labels2ShortIds :: k in c2.labels2ShortIds && c2.labels2ShortIds[k] == c.labels2ShortIds[k]
  }

  /** Every observation of `obs` has an id with a payload, and every payload belongs to one of them. */
  ghost predicate PayloadsKeyedByIds(st: PassState, obs: seq<Observation>)
  {
    && (forall i | 0 <= i < |obs| ::
          ObservationKey(obs[i]) in st.cache.labels2ShortIds && ShortIdOf(st.cache, obs[i]) in st.payloads)
    && (forall id | id in st.payloads :: exists i | 0 <= i < |obs| :: ShortIdOf(st.cache, obs[i]) == id)
  }

  /** One callback keeps earlier ids and extends the payload keying to its observation. */
  lemma StepPayloadIds(st: PassState, prefix: seq<Observation>, o: Observation)
    requires PayloadsKeyedByIds(st, prefix)
    ensures KeepsIds(st.cache, MonitoringStep(st, o).cache)
    ensures PayloadsKeyedByIds(MonitoringStep(st, o), prefix + [o])
  {
    var obs := prefix + [o];
    var n := |prefix|;
    var r := GetShortID(st.cache, o.labels, ObservationUrn(o));
    GetShortIDFrame(st.cache, o.labels, ObservationUrn(o));
    var fin := MonitoringStep(st, o);
    assert fin == PassState(r.cache, st.infos + [ObservationRecord(o)], st.payloads[r.id := ObservationPayload(o)]);
    forall i | 0 <= i < |obs|
      ensures ObservationKey(obs[i]) in fin.cache.labels2ShortIds && ShortIdOf(fin.cache, obs[i]) in fin.payloads
    {
      if i < n {
        assert obs[i] == prefix[i];
        assert ShortIdOf(fin.cache, obs[i]) == ShortIdOf(st.cache, prefix[i]);
      } else {
        assert obs[i] == o;
      }
    }
    forall id | id in fin.payloads
      ensures exists i | 0 <= i < |obs| :: ShortIdOf(fin.cache, obs[i]) == id
    {
      if id == r.id {
        assert obs[n] == o;
        assert ShortIdOf(fin.cache, obs[n]) == id;
      } else {
        var i :| 0 <= i < |prefix| && ShortIdOf(st.cache, prefix[i]) == id;
        assert obs[i] == prefix[i];
        assert ShortIdOf(fin.cache, obs[i]) == id;
      }
    }
  }

  /**
   * After the pass every observation's key has a short id, earlier ids are
   * kept, and the payload map is keyed by exactly the observations' ids.
   */
  lemma {:induction false} PassPayloadIds(c: Cache, obs: seq<Observation>)
    ensures KeepsIds(c, MonitoringPass(c, obs).cache)
    ensures PayloadsKeyedByIds(MonitoringPass(c, obs), obs)
    decreases |obs|
  {
    if |obs| > 0 {
      var n := |obs| - 1;
      var prefix := obs[..n];
      assert obs == prefix + [obs[n]];
      PassPayloadIds(c, prefix);
      var st := MonitoringPass(c, prefix);
      StepPayloadIds(st, prefix, obs[n]);
    }
  }

  /**
   * From a valid cache with room in its counter, the pass leaves a valid
   * cache that extends the old one.
   */
  lemma {:induction false} PassCache(c: Cache, obs: seq<Observation>)
    requires Valid(c)
    requires c.lastShortID + |obs| <= MAX_INT64
    ensures Valid(MonitoringPass(c, obs).cache)
    ensures Extends(c, MonitoringPass(c, obs).cache)
    ensures MonitoringPass(c, obs).cache.lastShortID <= c.lastShortID + |obs|
    decreases |obs|
  {
    if |obs| > 0 {
      var n := |obs| - 1;
      var prefix := obs[..n];
      var o := obs[n];
      PassCache(c, prefix);
      var st := MonitoringPass(c, prefix);
      GetShortIDPreservesValid(st.cache, o.labels, ObservationUrn(o));
      ExtendsTransitive(c, st.cache, MonitoringPass(c, obs).cache);
    }
  }

  lemma ExtendsTransitive(a: Cache, b: Cache, c: Cache)
    requires Extends(a, b) && Extends(b, c)
    ensures Extends(a, c)
  {
  }

  /** Each key's last observation in `obs` supplies the payload under the key's id. */
  ghost predicate LastPayloads(st: PassState, obs: seq<Observation>)
  {
    && PayloadsKeyedByIds(st, obs)
    && forall i | LastOfKey(obs, i) :: st.payloads[ShortIdOf(st.cache, obs[i])] == ObservationPayload(obs[i])
  }

  /** One callback writes its payload last, and it lands under no other key's id when ids are distinct. */
  lemma StepLastPayloads(st: PassState, prefix: seq<Observation>, o: Observation)
    requires LastPayloads(st, prefix)
    requires DistinctIds(MonitoringStep(st, o).cache)
    ensures LastPayloads(MonitoringStep(st, o), prefix + [o])
  {
    var obs := prefix + [o];
    var n := |prefix|;
    StepPayloadIds(st, prefix, o);
    var r := GetShortID(st.cache, o.labels, ObservationUrn(o));
    var fin := MonitoringStep(st, o);
    assert fin.cache == r.cache && fin.payloads == st.payloads[r.id := ObservationPayload(o)];
    forall i | LastOfKey(obs, i)
      ensures fin.payloads[ShortIdOf(fin.cache, obs[i])] == ObservationPayload(obs[i])
    {
      if i < n {
        assert obs[i] == prefix[i];
        assert LastOfKey(prefix, i) by {
          forall j | i < j < |prefix|
            ensures ObservationKey(prefix[j]) != ObservationKey(prefix[i])
          {
            assert prefix[j] == obs[j];
          }
        }
        assert obs[n] == o;
        assert ObservationKey(o) != ObservationKey(obs[i]);
        assert ShortIdOf(fin.cache, obs[i]) == ShortIdOf(st.cache, prefix[i]);
        assert ShortIdOf(fin.cache, obs[i]) != r.id;
      } else {
        assert obs[i] == o;
      }
    }
  }

  /**
   * From a valid cache with room in its counter, the payload under each
   * observation's id is that observation's encoding, for the last
   * observation of each key (a later one with the same key overwrites it).
   */
  lemma {:induction false} PassPayloadValues(c: Cache, obs: seq<Observation>)
    requires Valid(c)
    requires c.lastShortID + |obs| <= MAX_INT64
    ensures LastPayloads(MonitoringPass(c, obs), obs)
    decreases |obs|
  {
    if |obs| > 0 {
      var n := |obs| - 1;
      var prefix := obs[..n];
      assert obs == prefix + [obs[n]];
      PassPayloadValues(c, prefix);
      PassCache(c, obs);
      StepLastPayloads(MonitoringPass(c, prefix), prefix, obs[n]);
    }
  }

  // The whole pass.

  /** The legacy entry the progress snapshot stores for the active transform. */
  function ProgressEntry(p: Progress): PTransformMetrics
  {
    PTransformMetrics([], Some(map[p.name := p.count]))
  }

  /** The element-count record the progress snapshot appends; it gets no short id. */
  function ProgressRecord(p: Progress): MonitoringInfo
  {
    MonitoringInfo(ElementCount, TypeSumInt64, map[PCOLLECTION := p.pid], Int64Counter(p.count))
  }

  /** What `monitoring` returns, with the cache it leaves behind. */
  datatype Report = Report(
    cache: Cache,
    metrics: Option<Transforms>,
    infos: seq<MonitoringInfo>,
    payloads: map<string, seq<byte>>)

  /**
   * `monitoring`: with no store, nothing (and the cache untouched); otherwise
   * the two passes, then the progress snapshot replaces its transform's legacy
   * entry and appends one element-count record.
   */
  function Monitoring(c: Cache, store: Option<seq<Observation>>, progress: Option<Progress>): (r: Report)
    ensures store.None? ==> r == Report(c, None, [], map[])
    ensures store.Some? ==> r.metrics.Some?
    ensures store.Some? && progress.Some? ==>
      && progress.value.id in r.metrics.value
      && r.metrics.value[progress.value.id].user == []
      && r.metrics.value[progress.value.id].outputElementCounts == Some(map[progress.value.name := progress.value.count])
      && |r.infos| >= 1
      && r.infos[|r.infos| - 1].urn == ElementCount
      && r.infos[|r.infos| - 1].labels == map[PCOLLECTION := progress.value.pid]
  {
    match store
    case None => Report(c, None, [], map[])
    case Some(obs) =>
      var transforms := LegacyPass(obs);
      var st := MonitoringPass(c, obs);
      match progress
      case None => Report(st.cache, Some(transforms), st.infos, st.payloads)
      case Some(p) =>
        Report(st.cache, Some(transforms[p.id := ProgressEntry(p)]), st.infos + [ProgressRecord(p)], st.payloads)
  }

  /**
   * The records of a pass: one per observation in order, then the progress
   * record when there is a snapshot; the progress adds nothing to the
   * payloads.
   */
  lemma MonitoringRecords(c: Cache, obs: seq<Observation>, progress: Option<Progress>)
    ensures |Monitoring(c, Some(obs), progress).infos| == |obs| + (if progress.Some? then 1 else 0)
    ensures forall i | 0 <= i < |obs| :: Monitoring(c, Some(obs), progress).infos[i] == ObservationRecord(obs[i])
    ensures progress.Some? ==> Monitoring(c, Some(obs), progress).infos[|obs|] == ProgressRecord(progress.value)
    ensures Monitoring(c, Some(obs), progress).payloads == MonitoringPass(c, obs).payloads
  {
    PassRecords(c, obs);
  }

  /**
   * The legacy tree: the progress transform holds only its element count;
   * every other transform is present exactly when observed and lists its
   * observations' raw values in order.
   */
  lemma MonitoringLegacy(c: Cache, obs: seq<Observation>, progress: Option<Progress>)
    ensures var m := Monitoring(c, Some(obs), progress).metrics.value;
      && (progress.Some? ==> progress.value.id in m && m[progress.value.id] == ProgressEntry(progress.value))
      && (forall t | progress.None? || t != progress.value.id :: t in m <==> TransformSeen(obs, t))
      && (forall t | t in m && (progress.None? || t != progress.value.id) ::
            m[t] == PTransformMetrics(UserEntries(obs, t), None))
  {
    LegacyPassContents(obs);
  }

  /**
   * From a valid cache with room in its counter: the cache stays valid and
   * keeps every earlier id and record; every observation has a short id whose
   * stored descriptor matches its record; the payloads are keyed by exactly
   * those ids, each with metadata available; and the last observation of
   * each key supplies its payload.
   */
  lemma MonitoringPayloads(c: Cache, obs: seq<Observation>, progress: Option<Progress>)
    requires Valid(c)
    requires c.lastShortID + |obs| <= MAX_INT64
    ensures var r := Monitoring(c, Some(obs), progress);
      && Valid(r.cache)
      && Extends(c, r.cache)
      && (forall i | 0 <= i < |obs| ::
            && ObservationKey(obs[i]) in r.cache.labels2ShortIds
            && ShortIdOf(r.cache, obs[i]) in r.payloads
            && ShortIdOf(r.cache, obs[i]) in r.cache.shortIds2Infos
            && r.cache.shortIds2Infos[ShortIdOf(r.cache, obs[i])] == ObservationRecord(obs[i]).(payload := []))
      && (forall id | id in r.payloads :: id in r.cache.shortIds2Infos)
      && (forall id | id in r.payloads :: exists i | 0 <= i < |obs| :: ShortIdOf(r.cache, obs[i]) == id)
      && (forall i | LastOfKey(obs, i) :: r.payloads[ShortIdOf(r.cache, obs[i])] == ObservationPayload(obs[i]))
  {
    PassCache(c, obs);
    PassPayloadValues(c, obs);
    var r := Monitoring(c, Some(obs), progress);
    forall i | 0 <= i < |obs|
      ensures r.cache.shortIds2Infos[ShortIdOf(r.cache, obs[i])] == ObservationRecord(obs[i]).(payload := [])
    {
      RecordMatchesDescriptor(obs[i]);
    }
  }

  /**
   * A sum-int64 value 7 named "n" in namespace "ns" on transform "t1", first
   * seen by a new cache: it gets short id "1", whose payload is the one-byte
   * varint of 7 and whose descriptor carries the three user labels.
   */
  lemma ExampleUserCounter()
    ensures var r := Monitoring(NewCache(), Some([SumInt64(Labels("t1", "ns", "n"), 7)]), None);
      && r.infos == [MonitoringInfo(UserSumInt64, TypeSumInt64, map[PTRANSFORM := "t1", NAMESPACE := "ns", NAME := "n"], [7])]
      && r.payloads == map["1" := [7]]
      && r.cache.labels2ShortIds == map[ShortKey(Labels("t1", "ns", "n"), UserSumInt64) := "1"]
      && r.cache.shortIds2Infos == map["1" := MonitoringInfo(UserSumInt64, TypeSumInt64, map[PTRANSFORM := "t1", NAMESPACE := "ns", NAME := "n"], [])]
  {
    var o := SumInt64(Labels("t1", "ns", "n"), 7);
    assert [o][..0] == [];
    assert Base36.FormatInt(1) == "1";
  }

  /**
   * A progress snapshot over an empty store: its transform holds only the
   * element count, one element-count record labelled with the collection is
   * appended, and no payload is added.
   */
  lemma ExampleProgress()
    ensures var r := Monitoring(NewCache(), Some([]), Some(Progress("t1", "pc1", "pc1", 42)));
      && r.metrics == Some(map["t1" := PTransformMetrics([], Some(map["pc1" := 42]))])
      && r.infos == [MonitoringInfo(ElementCount, TypeSumInt64, map[PCOLLECTION := "pc1"], [42])]
      && r.payloads == map[]
      && r.cache == NewCache()
  {
  }
}
