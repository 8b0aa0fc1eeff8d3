/**
 * The metric URNs the harness knows, the wire types their payloads use, and
 * the closed table from one to the other (`urnToType`). Both enumerations are
 * Go `iota` constants indexing the string tables `sUrns` and `sTypes`; here
 * they are datatypes whose constructors appear in the same order, and
 * `UrnIndex`/`TypeIndex` give the `iota` value of each.
 */
module Schema {
  import opened Wrappers
  import opened Numeric

  datatype Urn =
    | UserSumInt64 | UserSumFloat64
    | UserDistInt64 | UserDistFloat64
    | UserLatestMsInt64 | UserLatestMsFloat64
    | UserTopNInt64 | UserTopNFloat64
    | UserBottomNInt64 | UserBottomNFloat64
    | ElementCount | SampledByteSize
    | StartBundle | ProcessBundle | FinishBundle | TransformTotalTime
    | ProgressRemaining | ProgressCompleted
    | TestSentinel

  datatype MType =
    | TypeSumInt64 | TypeSumFloat64
    | TypeDistInt64 | TypeDistFloat64
    | TypeLatestMsInt64 | TypeLatestMsFloat64
    | TypeTopNInt64 | TypeTopNFloat64
    | TypeBottomNInt64 | TypeBottomNFloat64
    | TypeMonitoringTable | TypeProgress
    | TypeTestSentinel

  /** The URN strings, indexed by the `iota` value of each `Urn`. */
  const SUrns: seq<string> := [
    "beam:metric:user:sum_int64:v1",
    "beam:metric:user:sum_double:v1",
    "beam:metric:user:distribution_int64:v1",
    "beam:metric:user:distribution_double:v1",
    "beam:metric:user:latest_int64:v1",
    "beam:metric:user:latest_double:v1",
    "beam:metric:user:top_n_int64:v1",
    "beam:metric:user:top_n_double:v1",
    "beam:metric:user:bottom_n_int64:v1",
    "beam:metric:user:bottom_n_double:v1",
    "beam:metric:element_count:v1",
    "beam:metric:sampled_byte_size:v1",
    "beam:metric:pardo_execution_time:start_bundle_msecs:v1",
    "beam:metric:pardo_execution_time:process_bundle_msecs:v1",
    "beam:metric:pardo_execution_time:finish_bundle_msecs:v1",
    "beam:metric:ptransform_execution_time:total_msecs:v1",
    "beam:metric:ptransform_progress:remaining:v1",
    "beam:metric:ptransform_progress:completed:v1",
    "TestingSentinelUrn"
  ]

  /** The wire-type strings, indexed by the `iota` value of each `MType`. */
  const STypes: seq<string> := [
    "beam:metrics:sum_int64:v1",
    "beam:metrics:sum_double:v1",
    "beam:metrics:distribution_int64:v1",
    "beam:metrics:distribution_double:v1",
    "beam:metrics:latest_int64:v1",
    "beam:metrics:latest_double:v1",
    "beam:metrics:top_n_int64:v1",
    "beam:metrics:top_n_double:v1",
    "beam:metrics:bottom_n_int64:v1",
    "beam:metrics:bottom_n_double:v1",
    "beam:metrics:monitoring_table:v1",
    "beam:metrics:progress:v1",
    "TestingSentinelType"
  ]

  /** The `iota` value of a URN constant. */
  function UrnIndex(u: Urn): (i: nat)
    ensures i < |SUrns|
  {
    match u
    case UserSumInt64 => 0
    case UserSumFloat64 => 1
    case UserDistInt64 => 2
    case UserDistFloat64 => 3
    case UserLatestMsInt64 => 4
    case UserLatestMsFloat64 => 5
    case UserTopNInt64 => 6
    case UserTopNFloat64 => 7
    case UserBottomNInt64 => 8
    case UserBottomNFloat64 => 9
    case ElementCount => 10
    case SampledByteSize => 11
    case StartBundle => 12
    case ProcessBundle => 13
    case FinishBundle => 14
    case TransformTotalTime => 15
    case ProgressRemaining => 16
    case ProgressCompleted => 17
    case TestSentinel => 18
  }

  /** The URN constant with a given raw `mUrn` value, if there is one. */
  function UrnFromIndex(i: uint32): (r: Option<Urn>)
    ensures r.Some? <==> i < |SUrns|
    ensures r.Some? ==> UrnIndex(r.value) == i
  {
    match i
    case 0 => Some(UserSumInt64)
    case 1 => Some(UserSumFloat64)
    case 2 => Some(UserDistInt64)
    case 3 => Some(UserDistFloat64)
    case 4 => Some(UserLatestMsInt64)
    case 5 => Some(UserLatestMsFloat64)
    case 6 => Some(UserTopNInt64)
    case 7 => Some(UserTopNFloat64)
    case 8 => Some(UserBottomNInt64)
    case 9 => Some(UserBottomNFloat64)
    case 10 => Some(ElementCount)
    case 11 => Some(SampledByteSize)
    case 12 => Some(StartBundle)
    case 13 => Some(ProcessBundle)
    case 14 => Some(FinishBundle)
    case 15 => Some(TransformTotalTime)
    case 16 => Some(ProgressRemaining)
    case 17 => Some(ProgressCompleted)
    case 18 => Some(TestSentinel)
    case _ => None
  }

  /** Each URN constant is recovered from its raw value, so distinct constants have distinct values. */
  lemma UrnIndexRoundTrip(u: Urn)
    ensures UrnFromIndex(UrnIndex(u)) == Some(u)
  {
  }

  /** The `iota` value of a wire-type constant. */
  function TypeIndex(t: MType): (i: nat)
    ensures i < |STypes|
  {
    match t
    case TypeSumInt64 => 0
    case TypeSumFloat64 => 1
    case TypeDistInt64 => 2
    case TypeDistFloat64 => 3
    case TypeLatestMsInt64 => 4
    case TypeLatestMsFloat64 => 5
    case TypeTopNInt64 => 6
    case TypeTopNFloat64 => 7
    case TypeBottomNInt64 => 8
    case TypeBottomNFloat64 => 9
    case TypeMonitoringTable => 10
    case TypeProgress => 11
    case TypeTestSentinel => 12
  }

  /** `sUrns[u]`. */
  function UrnName(u: Urn): string
  {
    SUrns[UrnIndex(u)]
  }

  /** `sTypes[t]`. */
  function TypeName(t: MType): string
  {
    STypes[TypeIndex(t)]
  }

  /** No two URN constants share a string, so a record's URN string names one constant. */
  lemma UrnNameInjective(a: Urn, b: Urn)
    ensures UrnName(a) == UrnName(b) ==> a == b
  {
  }

  /** No two wire-type constants share a string. */
  lemma TypeNameInjective(a: MType, b: MType)
    ensures TypeName(a) == TypeName(b) ==> a == b
  {
  }

  /** `urnToType`: the wire type of each URN; `UrnToTypePreimages` states the table. */
  function UrnToType(u: Urn): MType
  {
    match u
    case UserSumInt64 | ElementCount | StartBundle | ProcessBundle | FinishBundle | TransformTotalTime => TypeSumInt64
    case UserSumFloat64 => TypeSumFloat64
    case UserDistInt64 | SampledByteSize => TypeDistInt64
    case UserDistFloat64 => TypeDistFloat64
    case UserLatestMsInt64 => TypeLatestMsInt64
    case UserLatestMsFloat64 => TypeLatestMsFloat64
    case UserTopNInt64 => TypeTopNInt64
    case UserTopNFloat64 => TypeTopNFloat64
    case UserBottomNInt64 => TypeSumInt64
    case UserBottomNFloat64 => TypeBottomNFloat64
    case ProgressRemaining | ProgressCompleted => TypeProgress
    case TestSentinel => TypeTestSentinel
  }

  /**
   * The table of `urnToType`, stated as the set of URNs that lead to each
   * wire type. bottom_n_int64 shares the sum-int64 type, so the
   * bottom_n_int64 wire type (like the monitoring-table type) is never
   * produced.
   */
  lemma UrnToTypePreimages(u: Urn, t: MType)
    requires t == UrnToType(u)
    ensures t == TypeSumInt64 <==>
      u in {UserSumInt64, ElementCount, StartBundle, ProcessBundle, FinishBundle, TransformTotalTime, UserBottomNInt64}
    ensures t == TypeSumFloat64 <==> u == UserSumFloat64
    ensures t == TypeDistInt64 <==> u in {UserDistInt64, SampledByteSize}
    ensures t == TypeDistFloat64 <==> u == UserDistFloat64
    ensures t == TypeLatestMsInt64 <==> u == UserLatestMsInt64
    ensures t == TypeLatestMsFloat64 <==> u == UserLatestMsFloat64
    ensures t == TypeTopNInt64 <==> u == UserTopNInt64
    ensures t == TypeTopNFloat64 <==> u == UserTopNFloat64
    ensures t == TypeBottomNFloat64 <==> u == UserBottomNFloat64
    ensures t == TypeProgress <==> u in {ProgressRemaining, ProgressCompleted}
    ensures t == TypeTestSentinel <==> u == TestSentinel
    ensures t != TypeBottomNInt64 && t != TypeMonitoringTable
  {
  }

  /** The panic of `urnToType`'s default branch. */
  datatype UrnPanic = MetricUrnWithoutType(urn: uint32)

  /**
   * `urnToType` on a raw `mUrn` value: the index into `sTypes`, or the panic
   * for any value that is not one of the 19 URN constants.
   */
  function UrnCodeToType(u: uint32): (r: Result<nat, UrnPanic>)
    ensures r.Success? <==> u < |SUrns|
    ensures r.Success? ==> r.value < |STypes|
    ensures r.Failure? ==> r.error == MetricUrnWithoutType(u)
  {
    match UrnFromIndex(u)
    case Some(x) => Success(TypeIndex(UrnToType(x)))
    case None => Failure(MetricUrnWithoutType(u))
  }

  /** On the value of a URN constant, the raw-value table agrees with `UrnToType`. */
  lemma UrnCodeToTypeAgrees(x: Urn)
    ensures UrnCodeToType(UrnIndex(x)) == Success(TypeIndex(UrnToType(x)))
  {
  }
}
