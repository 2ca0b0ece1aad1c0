/**
 * The measurement types the grains produce and the backends consume, in the
 * three-variant form of `Unit` that the JSON encoder matches on. The
 * `metrics` module of the agent is not part of this model; what is here is
 * what the grains, the encoder and the regex aggregation use of it.
 */
module Metrics {
  import opened Common

  /** The flags that `COUNTER | HISTOGRAM | METER` combine. */
  datatype KindFlag = Counter | Histogram | Meter

  /** A measurement kind is the set of flags or-ed together. */
  type Kind = set<KindFlag>

  const COUNTER: Kind := {Counter}
  const HISTOGRAM: Kind := {Histogram}
  const METER: Kind := {Meter}

  datatype Unit = Byte(bytes: u64) | Count(count: u64) | Str(text: string)

  datatype Tag = Tag(key: string, value: string)

  /** `Tags` is a vector of key/value pairs, in insertion order. */
  type Tags = seq<Tag>

  function Keys(tags: Tags): (ks: seq<string>)
    ensures |ks| == |tags| && forall i :: 0 <= i < |tags| ==> ks[i] == tags[i].key
  {
    seq(|tags|, i requires 0 <= i < |tags| => tags[i].key)
  }

  /** `Tags::insert`, assumed to append the pair (its body is not part of this model). */
  function Insert(tags: Tags, key: string, value: string): Tags
  {
    tags + [Tag(key, value)]
  }

  /** The value of the last pair with this key, if any. */
  function Lookup(tags: Tags, key: string): Option<string>
  {
    if tags == [] then None
    else if tags[|tags| - 1].key == key then Some(tags[|tags| - 1].value)
    else Lookup(tags[..|tags| - 1], key)
  }

  datatype Measurement = Measurement(timestamp: u64, kind: Kind, name: string, value: Unit, tags: Tags)

  /** `Measurement::new`; the clock it reads is the parameter `now`. */
  function NewMeasurement(kind: Kind, name: string, value: Unit, tags: Tags, now: u64): Measurement
  {
    Measurement(now, kind, name, value, tags)
  }

  datatype Message = Single(measurement: Measurement) | List(measurements: seq<Measurement>)
}
