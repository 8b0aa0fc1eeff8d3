/**
 * Metric labels and the `MonitoringInfo` record the harness reports: a URN,
 * a wire type, a label map and a payload.
 */
module Info {
  import opened Numeric
  import opened Schema

  /** `metrics.Labels`: the transform, namespace and name a user metric is attributed to. */
  datatype Labels = Labels(transform: string, namespace: string, name: string)

  /**
   * `ppb.MonitoringInfo`. The URN and type fields hold the constants whose
   * strings `sUrns`/`sTypes` give (`UrnString`, `TypeString`); the strings
   * are injective, so nothing is lost. A cached descriptor carries an empty
   * payload.
   */
  datatype MonitoringInfo = MonitoringInfo(urn: Urn, wireType: MType, labels: map<string, string>, payload: seq<byte>)
  {
    /** The `Urn` field as sent on the wire. */
    function UrnString(): string
    {
      UrnName(urn)
    }

    /** The `Type` field as sent on the wire. */
    function TypeString(): string
    {
      TypeName(wireType)
    }
  }

  const PTRANSFORM: string := "PTRANSFORM"
  const NAMESPACE: string := "NAMESPACE"
  const NAME: string := "NAME"
  const PCOLLECTION: string := "PCOLLECTION"

  /** `userLabels`: the label map of a user metric. */
  function UserLabels(l: Labels): map<string, string>
  {
    map[PTRANSFORM := l.transform, NAMESPACE := l.namespace, NAME := l.name]
  }

  /** A user metric carries exactly the three labels PTRANSFORM, NAMESPACE and NAME, holding its labels' parts. */
  lemma UserLabelsShape(l: Labels)
    ensures UserLabels(l).Keys == {PTRANSFORM, NAMESPACE, NAME}
    ensures |UserLabels(l)| == 3
    ensures UserLabels(l)[PTRANSFORM] == l.transform
    ensures UserLabels(l)[NAMESPACE] == l.namespace
    ensures UserLabels(l)[NAME] == l.name
  {
  }

  /** The label map identifies the labels it was built from. */
  lemma UserLabelsInjective(a: Labels, b: Labels)
    ensures UserLabels(a) == UserLabels(b) ==> a == b
  {
    UserLabelsShape(a);
    UserLabelsShape(b);
  }
}
