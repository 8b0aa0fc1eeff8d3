# Beam Go harness metrics reporting, modelled in Dafny

This project models the metrics-reporting encoder of the Apache Beam Go SDK
harness (`sdks/go/pkg/beam/core/runtime/harness/monitoring.go`). A reporting pass reads the current metric values and
returns three things:

- the legacy per-transform metrics tree;
- the list of `MonitoringInfo` records;
- the encoded payloads, keyed by short id.

A process-wide short-id cache maps each metric identity (labels plus URN) to
a compact base-36 id. The cache also keeps each id's metadata record, so
later passes only need to send payloads.

Modules, one file each:

- `Wrappers` (wrappers.dfy): `Option` and `Result`. `None` stands for a nil pointer and `Failure` for a panic.
- `Numeric` (numeric.dfy): the Go integer widths (`int64`, `uint64`, `uint32`, `byte`). Also the two's-complement conversions and the int64 wrap-around of `atomic.AddInt64`.
- `Schema` (schema.dfy): the URN and wire-type enumerations (`mUrn`, `mType`), their string tables `sUrns`/`sTypes`, and `urnToType`. It covers both the enum level and the raw `uint32` value, which panics outside the 19 constants.
- `Varint` (varint.dfy): base-128 varints of the two's-complement bit pattern, with a decoder that proves the encoding self-delimiting.
- `Base36` (base36.dfy): `strconv.FormatInt(v, 36)`, with a parser that proves the rendering injective.
- `Info` (info.dfy): `metrics.Labels`, the `MonitoringInfo` record, and `userLabels`.
- `ShortIds` (shortids.dfy): `shortIDCache` as an immutable value threaded through calls. It covers `getNextShortID`, `getShortID` and `shortIdsToInfos`. Invariant `Valid`: every key's id has the key's descriptor, ids are pairwise distinct, and every stored id came from the counter.
- `Payload` (payload.dfy): `int64Counter`, `int64Latest` and `int64Distribution`, with field-order decoders that prove each field comes back in its place.
- `Snapshot` (snapshot.dfy): `monitoring`, modelled as two folds over a sequence of observations plus the optional progress snapshot. Also `getTransform` and `toName`.

Three behaviours of the code are modelled exactly as written:

- `urnToType` maps `bottom_n_int64` to the sum-int64 wire type (line 146), not to the bottom-N type.
- The progress snapshot replaces its transform's legacy entry with one that holds only the element count (line 346). Any user metrics already stored for that transform are dropped.
- The progress record is always appended (lines 356-357), because `int64Counter` cannot fail (lines 384-390).

## Model

| member | source | states |
|---|---|---|
| Schema.UrnIndex | sdks/go/pkg/beam/core/runtime/harness/monitoring.go:64-88 | each URN constant's `iota` value is a valid index into `sUrns` |
| Schema.UrnFromIndex | sdks/go/pkg/beam/core/runtime/harness/monitoring.go:64-88 | a raw `mUrn` value names a constant exactly when it is below 19, and then it names the constant with that value |
| Schema.UrnIndexRoundTrip | sdks/go/pkg/beam/core/runtime/harness/monitoring.go:64-88 | every constant is recovered from its raw value, so the 19 values are distinct |
| Schema.TypeIndex | sdks/go/pkg/beam/core/runtime/harness/monitoring.go:107-123 | each wire-type constant's value is a valid index into `sTypes` |
| Schema.UrnNameInjective | sdks/go/pkg/beam/core/runtime/harness/monitoring.go:38-62 | no two URN constants share a string in `sUrns` |
| Schema.TypeNameInjective | sdks/go/pkg/beam/core/runtime/harness/monitoring.go:90-105 | no two wire-type constants share a string in `sTypes` |
| Schema.UrnToTypePreimages | sdks/go/pkg/beam/core/runtime/harness/monitoring.go:127-152 | the exact set of URNs per wire type: element-count, the four execution-time URNs and bottom_n_int64 share the sum-int64 type; sampled-byte-size shares distribution-int64; both progress URNs give progress; the bottom_n_int64 and monitoring-table types are never produced |
| Schema.UrnCodeToType | sdks/go/pkg/beam/core/runtime/harness/monitoring.go:127-159 | on a raw value, the result is a valid `sTypes` index exactly for the 19 constants; every other value reaches the panic naming it |
| Schema.UrnCodeToTypeAgrees | sdks/go/pkg/beam/core/runtime/harness/monitoring.go:127-159 | the raw-value switch agrees with the enum-level table on every constant |
| Numeric.WrapInt64 | sdks/go/pkg/beam/core/runtime/harness/monitoring.go:187 | the counter bump is the int64 sum while it fits, and wraps to the minimum int64 after the maximum |
| Base36.FormatNat | sdks/go/pkg/beam/core/runtime/harness/monitoring.go:189 | the base-36 rendering is a non-empty string of digits 0-9a-z with no leading zero; zero renders as "0" |
| Base36.FormatInt | sdks/go/pkg/beam/core/runtime/harness/monitoring.go:189 | the rendering starts with '-' exactly for negative values |
| Base36.ParseFormatNat | sdks/go/pkg/beam/core/runtime/harness/monitoring.go:189 | parsing the digits of a natural number gives it back |
| Base36.ParseFormatInt | sdks/go/pkg/beam/core/runtime/harness/monitoring.go:189 | parsing the rendering of any integer gives it back |
| Base36.FormatIntInjective | sdks/go/pkg/beam/core/runtime/harness/monitoring.go:189 | distinct counter values render as distinct short ids |
| Info.UserLabelsShape | sdks/go/pkg/beam/core/runtime/harness/monitoring.go:376-382 | a user metric carries exactly the labels PTRANSFORM, NAMESPACE and NAME, holding its transform, namespace and name |
| Info.UserLabelsInjective | sdks/go/pkg/beam/core/runtime/harness/monitoring.go:376-382 | distinct labels give distinct label maps |
| ShortIds.Descriptor | sdks/go/pkg/beam/core/runtime/harness/monitoring.go:203-207 | a new id's record has URN `sUrns[urn]`, type `sTypes[urnToType(urn)]`, labels `userLabels(l)` and no payload |
| ShortIds.NewCache | sdks/go/pkg/beam/core/runtime/harness/monitoring.go:179-184 | a new cache is empty, its counter is 0, and it satisfies the cache invariant |
| ShortIds.GetNextShortID | sdks/go/pkg/beam/core/runtime/harness/monitoring.go:186-190 | the counter rises by exactly one (or wraps at the int64 maximum), the maps are untouched, and the id is exactly `strconv.FormatInt` of the new counter value in base 36, which parses back to it |
| ShortIds.GetShortID | sdks/go/pkg/beam/core/runtime/harness/monitoring.go:195-209 | the key ends up bound to the returned id. On a known key, the stored id comes back and the whole cache is unchanged. On a new key, the counter is bumped, the id is exactly its base-36 rendering, and the id's record is the key's descriptor |
| ShortIds.CachedRecordShape | sdks/go/pkg/beam/core/runtime/harness/monitoring.go:202-207 | in a valid cache, the record under any key's id has URN `sUrns[urn]`, type `sTypes[urnToType(urn)]`, exactly the labels PTRANSFORM, NAMESPACE and NAME holding the key's transform, namespace and name, and no payload |
| ShortIds.GetShortIDFrame | sdks/go/pkg/beam/core/runtime/harness/monitoring.go:195-209 | a lookup adds at most its own key and id; every other binding and record is left as it was |
| ShortIds.FreshIdIsNew | sdks/go/pkg/beam/core/runtime/harness/monitoring.go:186-202 | in a valid cache the counter's next value is not yet an id, either as a key's id or as a record |
| ShortIds.GetShortIDPreservesValid | sdks/go/pkg/beam/core/runtime/harness/monitoring.go:195-209 | while the counter has room, a lookup keeps the invariant, never changes an earlier id or record, and raises the counter by at most one; the returned id's record is the key's descriptor |
| ShortIds.MissPreservesValid | sdks/go/pkg/beam/core/runtime/harness/monitoring.go:201-207 | binding a fresh counter value to a new key keeps the invariant and extends the cache |
| ShortIds.MissIdsIssued | sdks/go/pkg/beam/core/runtime/harness/monitoring.go:201-207 | after a miss, every stored id is still a counter value already handed out |
| ShortIds.MissIdsDescribed | sdks/go/pkg/beam/core/runtime/harness/monitoring.go:202-207 | after a miss, every key's id still has that key's descriptor |
| ShortIds.MissIdsDistinct | sdks/go/pkg/beam/core/runtime/harness/monitoring.go:201-202 | after a miss with a fresh id, no two keys share an id |
| ShortIds.GetShortIDIdempotent | sdks/go/pkg/beam/core/runtime/harness/monitoring.go:196-200 | asking again for the same key returns the same id and changes nothing |
| ShortIds.DistinctKeysDistinctIds | sdks/go/pkg/beam/core/runtime/harness/monitoring.go:186-202 | two distinct keys looked up in turn get distinct ids, and the first key keeps its id |
| ShortIds.GetShortIDsValid | sdks/go/pkg/beam/core/runtime/harness/monitoring.go:195-209 | after any run of lookups that does not exhaust the counter, the invariant holds, nothing earlier changed, and every key looked up has an id |
| ShortIds.NewCacheStaysValid | sdks/go/pkg/beam/core/runtime/harness/monitoring.go:179-209 | from a new cache, every run of up to 2^63-1 lookups leaves a valid cache |
| ShortIds.ShortIdsToInfos | sdks/go/pkg/beam/core/runtime/harness/monitoring.go:211-219 | the result's keys are exactly the requested ids; known ids map to their stored record and unknown ids to nil |
| ShortIds.DescribeKnown | sdks/go/pkg/beam/core/runtime/harness/monitoring.go:202-219 | in a valid cache, a batch lookup of a key's id yields that key's descriptor |
| Varint.EncodeUvarint | sdks/go/pkg/beam/core/runtime/harness/monitoring.go:384-390 | a varint is at least one byte, and only its last byte has the high bit clear |
| Varint.UvarintPrefixDecode | sdks/go/pkg/beam/core/runtime/harness/monitoring.go:384-390 | decoding a varint from the front of any stream recovers the value and leaves the rest untouched |
| Varint.UvarintLength | sdks/go/pkg/beam/core/runtime/harness/monitoring.go:384-390 | a value below 128^k takes at most k bytes |
| Varint.VarIntShape | sdks/go/pkg/beam/core/runtime/harness/monitoring.go:384-390 | an int64 varint is 1 to 10 bytes and ends at its only byte below 0x80 |
| Varint.VarIntPrefixDecode | sdks/go/pkg/beam/core/runtime/harness/monitoring.go:384-390 | an int64 varint is self-delimiting: reading it from the front of any stream gives back exactly the int64 |
| Varint.VarIntInjective | sdks/go/pkg/beam/core/runtime/harness/monitoring.go:384-390 | distinct int64 values have distinct varints |
| Payload.VarIntsRoundTrip | sdks/go/pkg/beam/core/runtime/harness/monitoring.go:403-418 | reading back as many varints as were written recovers the values in order |
| Payload.CounterRoundTrip | sdks/go/pkg/beam/core/runtime/harness/monitoring.go:384-390 | a counter payload reads back as its value |
| Payload.LatestRoundTrip | sdks/go/pkg/beam/core/runtime/harness/monitoring.go:392-401 | a latest-value payload reads back as the timestamp in milliseconds first, then the value |
| Payload.DistributionRoundTrip | sdks/go/pkg/beam/core/runtime/harness/monitoring.go:403-418 | a distribution payload reads back as count, sum, min and max, in that order |
| Payload.DistributionExample | sdks/go/pkg/beam/core/runtime/harness/monitoring.go:403-418 | (3, 30, 5, 15) encodes as the bytes 3, 30, 5, 15 and decodes back to the same fields |
| Payload.DistributionInjective | sdks/go/pkg/beam/core/runtime/harness/monitoring.go:403-418 | distinct distributions never share a payload |
| Snapshot.ToName | sdks/go/pkg/beam/core/runtime/harness/monitoring.go:429-434 | the legacy metric name names the same metric as the NAME and NAMESPACE labels of the monitoring-info record (`userLabels`) |
| Snapshot.GetTransform | sdks/go/pkg/beam/core/runtime/harness/monitoring.go:420-427 | returns the transform's entry, creating and storing an empty one when it is missing; no other entry changes |
| Snapshot.LegacyPassContents | sdks/go/pkg/beam/core/runtime/harness/monitoring.go:242-286 | the legacy pass has an entry for exactly the observed transforms; each entry lists that transform's counters, distributions and gauges in order, as raw values, with no element counts |
| Snapshot.RecordMatchesDescriptor | sdks/go/pkg/beam/core/runtime/harness/monitoring.go:294-341 | each callback's hard-coded type is `urnToType` of its URN, so the record it appends matches the descriptor cached for its short id |
| Snapshot.ObservationPayloadDecodes | sdks/go/pkg/beam/core/runtime/harness/monitoring.go:294-341 | each observation's payload decodes back to the values it was built from, field by field |
| Snapshot.PassRecords | sdks/go/pkg/beam/core/runtime/harness/monitoring.go:291-341 | the monitoring-info pass appends exactly one record per observation, in observation order |
| Snapshot.StepPayloadIds | sdks/go/pkg/beam/core/runtime/harness/monitoring.go:294-341 | one callback keeps earlier ids and keys its payload under its observation's id |
| Snapshot.PassPayloadIds | sdks/go/pkg/beam/core/runtime/harness/monitoring.go:293-341 | after the pass every observation has a short id with a payload; every payload key is one of those ids; earlier ids are kept |
| Snapshot.PassCache | sdks/go/pkg/beam/core/runtime/harness/monitoring.go:288-341 | from a valid cache with room in its counter, the pass leaves a valid cache that extends the old one |
| Snapshot.StepLastPayloads | sdks/go/pkg/beam/core/runtime/harness/monitoring.go:294-341 | a callback's payload lands under its own id and overwrites no other key's payload |
| Snapshot.PassPayloadValues | sdks/go/pkg/beam/core/runtime/harness/monitoring.go:293-341 | each key's payload is the encoding of that key's last observation |
| Snapshot.Monitoring | sdks/go/pkg/beam/core/runtime/harness/monitoring.go:236-374 | with no store, nothing is returned and the cache is untouched. Otherwise a tree is returned. A progress snapshot leaves its transform with only `{name: count}` and appends an element-count record labelled `PCOLLECTION: pid` |
| Snapshot.MonitoringRecords | sdks/go/pkg/beam/core/runtime/harness/monitoring.go:292-368 | the records are one per observation in order, then the progress record; the progress snapshot adds no payload |
| Snapshot.MonitoringLegacy | sdks/go/pkg/beam/core/runtime/harness/monitoring.go:243-354 | the progress transform holds only its element count; every other transform is present exactly when observed and lists its observations in order |
| Snapshot.MonitoringPayloads | sdks/go/pkg/beam/core/runtime/harness/monitoring.go:288-341 | every observation has a short id and a payload; each id's stored descriptor matches the record; every payload's id has metadata available; each key's payload comes from its last observation |
| Snapshot.ExampleUserCounter | sdks/go/pkg/beam/core/runtime/harness/monitoring.go:294-309 | a sum-int64 value 7 named n/ns on t1, seen by a new cache, gets id "1", payload [7], and a record with the three user labels |
| Snapshot.ExampleProgress | sdks/go/pkg/beam/core/runtime/harness/monitoring.go:343-367 | a progress snapshot over an empty store yields one element-count record with payload [42], an element-count-only tree entry, and no payloads |

## Left out

- Locking: `sync.Mutex` and `atomic.AddInt64` are not modelled. The cache is a value threaded through the calls in order; the locks only serialise those same steps.
- Global cache: the process-global `defaultShortIDCache`, `init` and the package-level `getShortID`/`shortIdsToInfos` wrappers (lines 222-234) are not modelled. Each operation takes the cache explicitly.
- Store and plan: the metric store, `metrics.Extractor.ExtractFrom` and `exec.Plan` are defined in other packages of the SDK and are not modelled. They become a sequence of observations (`None` for a nil store) and an optional `Progress` record. Both extraction passes are assumed to visit the same observations in the same order. The order in which `ExtractFrom` visits the store is not modelled, and neither are concurrent updates to the store between the two passes.
- Timestamps: `ptypes.TimestampProto`, `mtime.FromTime(t).Milliseconds()` and the panic on an invalid time are not modelled. A gauge timestamp is an int64 count of epoch milliseconds, in both the legacy tree and the payload.
- Varint encoder: `coder.EncodeVarInt` is defined in another package of the SDK and is not modelled directly. It is modelled as the Protocol Buffers base-128 varint of the value's two's-complement 64-bit pattern, with no claim that it matches that function byte for byte.
- Encoder errors: the encoders write to a `bytes.Buffer`, whose writes never return an error. So the `err != nil` branches (lines 296-299, 311-314, 326-329, 386-388, 394-399, 405-416) cannot be reached, and the encoders are total functions. Likewise the progress record's `err == nil` test (line 357) always holds.
- Float metrics: the `_double` URNs are modelled only as names and table entries; no floating-point value is encoded in this file.
- Record fields: `MonitoringInfo` records hold the URN and type constants, not their strings. `UrnString`/`TypeString` give `sUrns[urn]` and `sTypes[type]`, and these are injective (`Schema.UrnNameInjective`, `Schema.TypeNameInjective`).
- Nil values: a nil slice or nil map is modelled as an empty sequence or empty map. A nil `*fnpb.Metrics` is `None`, and a nil record pointer in `shortIdsToInfos` is `None`.
- Panic message: for a raw URN value of 19 or more, evaluating the panic message `sUrns[u]` itself panics (index out of range). Both panics are the one `Failure` of `Schema.UrnCodeToType`.
- ShortIds.GetShortIDPreservesValid: requires the counter to be below the int64 maximum. The wrap-around itself is modelled in `GetNextShortID`, but no uniqueness is claimed once more than 2^63-1 ids have been issued.
- ShortIds.GetShortIDsValid: requires that the run of lookups not exhaust the int64 counter, for the same reason.
- ShortIds.DistinctKeysDistinctIds: requires room for two more ids in the counter, for the same reason.
- Snapshot.PassCache: requires room in the counter for one id per observation, for the same reason.
- Snapshot.PassPayloadValues: requires room in the counter for one id per observation, for the same reason.
- Snapshot.MonitoringPayloads: requires room in the counter for one id per observation, for the same reason.
