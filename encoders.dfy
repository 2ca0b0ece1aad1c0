/**
 * The backend encoders (src/backends/encoders.rs): the flat record every
 * measurement becomes, the JSON encoder's list of records, and the Cap'n
 * Proto builder loop. The serde and capnp byte formats are not part of this
 * model: an encoder's output here is the list of records it serialises.
 * `Unit::get` is not shown for `Str`; the parameter `strValue` stands in.
 */
module Encoders {
  import opened Common
  import opened Metrics

  /** `Unit::get`: the number inside a byte or count value. */
  function Get(value: Unit, strValue: string -> u64): u64
  {
    match value
    case Byte(x) => x
    case Count(x) => x
    case Str(s) => strValue(s)
  }

  /** The suffix that names the unit's variant. */
  function TypeStr(value: Unit): string
  {
    match value
    case Byte(_) => "byte"
    case Count(_) => "count"
    case Str(_) => "string"
  }

  /** `serialized_name`: the measurement's name, an underscore, then the variant's suffix. */
  function SerializedName(m: Measurement): (name: string)
    ensures |name| > |m.name| + 1 && name[..|m.name|] == m.name && name[|m.name|] == '_'
    ensures m.value.Byte? ==> name == m.name + "_byte"
    ensures m.value.Count? ==> name == m.name + "_count"
    ensures m.value.Str? ==> name == m.name + "_string"
  {
    m.name + "_" + TypeStr(m.value)
  }

  /** With the same base name, the serialised names differ exactly when the unit variants do. */
  lemma SerializedNameVariant(m1: Measurement, m2: Measurement)
    requires m1.name == m2.name
    ensures SerializedName(m1) == SerializedName(m2) <==>
            (m1.value.Byte? == m2.value.Byte? && m1.value.Count? == m2.value.Count?)
  {
    var n := |m1.name| + 1;
    if SerializedName(m1) == SerializedName(m2) {
      assert SerializedName(m1)[n..] == TypeStr(m1.value);
      assert SerializedName(m2)[n..] == TypeStr(m2.value);
    }
  }

  /** Collecting tags into a map: inserted in order, so a later duplicate key overwrites. */
  function TagMap(tags: Tags): (r: map<string, string>)
    ensures forall k :: k in r <==> Lookup(tags, k).Some?
    ensures forall k :: k in r ==> r[k] == Lookup(tags, k).value
  {
    if tags == [] then map[]
    else TagMap(tags[..|tags| - 1])[tags[|tags| - 1].key := tags[|tags| - 1].value]
  }

  /** The map has exactly the keys of the tags. */
  lemma {:induction false} TagMapKeys(tags: Tags)
    ensures TagMap(tags).Keys == set i | 0 <= i < |tags| :: tags[i].key
  {
    if tags != [] {
      var init := tags[..|tags| - 1];
      TagMapKeys(init);
      var s := set i | 0 <= i < |tags| :: tags[i].key;
      var s0 := set i | 0 <= i < |init| :: init[i].key;
      assert s == s0 + {tags[|tags| - 1].key} by {
        forall k | k in s ensures k in s0 + {tags[|tags| - 1].key} {
          var i :| 0 <= i < |tags| && tags[i].key == k;
          if i < |init| {
            assert init[i].key == k;
          }
        }
      }
    }
  }

  /** `SerializedMeasurement`, the JSON encoder's record. */
  datatype SerializedMeasurement = SerializedMeasurement(
    timestamp: u64, kind: Kind, name: string, measurement: u64, tags: map<string, string>)

  /** `From<&Measurement> for SerializedMeasurement`. */
  function Serialize(m: Measurement, strValue: string -> u64): (r: SerializedMeasurement)
    ensures r.timestamp == m.timestamp && r.kind == m.kind
    ensures r.name == SerializedName(m) && r.measurement == Get(m.value, strValue)
    ensures forall k :: k in r.tags <==> Lookup(m.tags, k).Some?
    ensures r.tags == TagMap(m.tags)
  {
    SerializedMeasurement(m.timestamp, m.kind, SerializedName(m), Get(m.value, strValue), TagMap(m.tags))
  }

  /** `to_json`: one record per measurement, in order. */
  function ToJson(ms: seq<Measurement>, strValue: string -> u64): (records: seq<SerializedMeasurement>)
    ensures |records| == |ms|
    ensures forall i :: 0 <= i < |ms| ==> records[i] == Serialize(ms[i], strValue)
  {
    seq(|ms|, i requires 0 <= i < |ms| => Serialize(ms[i], strValue))
  }

  /** One tag of the Cap'n Proto message. */
  datatype CapnpTag = CapnpTag(key: string, value: string)

  /** One measurement of the Cap'n Proto message; `init_data` creates them zeroed. */
  datatype CapnpMeasurement = CapnpMeasurement(
    timestamp: u64, kind: Kind, name: string, measurement: u64, tags: seq<CapnpTag>)

  const EMPTY_ENTRY := CapnpMeasurement(0, {}, "", 0, [])

  /** The entry `to_capnp` fills in for one measurement. */
  function CapnpOf(m: Measurement, strValue: string -> u64): CapnpMeasurement
  {
    CapnpMeasurement(m.timestamp, m.kind, SerializedName(m), Get(m.value, strValue),
                     seq(|m.tags|, i requires 0 <= i < |m.tags| => CapnpTag(m.tags[i].key, m.tags[i].value)))
  }

  /**
   * `to_capnp`: allocates one entry per measurement and, in each, one tag
   * per source tag, then sets every field. The measurement's conversion to
   * a float is not part of this model.
   */
  method ToCapnp(src: seq<Measurement>, strValue: string -> u64) returns (data: array<CapnpMeasurement>)
    ensures fresh(data) && data.Length == |src|
    ensures forall i :: 0 <= i < |src| ==> data[i] == CapnpOf(src[i], strValue)
  {
    data := new CapnpMeasurement[|src|](_ => EMPTY_ENTRY);
    for i := 0 to |src|
      invariant forall k :: 0 <= k < i ==> data[k] == CapnpOf(src[k], strValue)
    {
      var source := src[i];
      var tags := new CapnpTag[|source.tags|](_ => CapnpTag("", ""));
      for j := 0 to |source.tags|
        modifies tags
        invariant forall k :: 0 <= k < j ==> tags[k] == CapnpTag(source.tags[k].key, source.tags[k].value)
      {
        tags[j] := CapnpTag(source.tags[j].key, source.tags[j].value);
      }
      assert tags[..] == CapnpOf(source, strValue).tags;
      data[i] := CapnpMeasurement(source.timestamp, source.kind, SerializedName(source),
                                  Get(source.value, strValue), tags[..]);
    }
  }

  /**
   * The two encoders agree: the same timestamp, kind, name and value, and
   * the Cap'n Proto tags, collected like the JSON ones, give the same map.
   */
  lemma CapnpAgreesWithJson(m: Measurement, strValue: string -> u64)
    ensures var c := CapnpOf(m, strValue);
            var j := Serialize(m, strValue);
            && c.timestamp == j.timestamp && c.kind == j.kind && c.name == j.name
            && c.measurement == j.measurement && |c.tags| == |m.tags|
            && TagMap(seq(|c.tags|, i requires 0 <= i < |c.tags| => Tag(c.tags[i].key, c.tags[i].value))) == j.tags
  {
    var c := CapnpOf(m, strValue);
    assert seq(|c.tags|, i requires 0 <= i < |c.tags| => Tag(c.tags[i].key, c.tags[i].value)) == m.tags;
  }

  /** `Encoding`; `Capnp` exists only when the crate is built with Cap'n Proto support. */
  datatype Encoding = Json | Capnp

  /** What an encoder produces, before the bytes. */
  datatype Encoded = JsonRecords(records: seq<SerializedMeasurement>) | CapnpEntries(entries: seq<CapnpMeasurement>)

  /** `to_encoder` applied to a batch: `JSON` picks `to_json`, `Capnp` picks `to_capnp`. */
  method Encode(encoding: Encoding, ms: seq<Measurement>, strValue: string -> u64) returns (out: Encoded)
    ensures encoding.Json? ==> out == JsonRecords(ToJson(ms, strValue))
    ensures encoding.Capnp? ==> out.CapnpEntries? && |out.entries| == |ms|
    ensures encoding.Capnp? ==> forall i :: 0 <= i < |ms| ==> out.entries[i] == CapnpOf(ms[i], strValue)
  {
    match encoding {
      case Json =>
        out := JsonRecords(ToJson(ms, strValue));
      case Capnp =>
        var data := ToCapnp(ms, strValue);
        out := CapnpEntries(data[..]);
    }
  }
}
