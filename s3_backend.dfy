/**
 * The S3 backend (src/backends/s3.rs): the record each measurement becomes,
 * the upload body built from a message, and the object key. This file's
 * `Unit` has only the byte and count variants. The JSON text of one record
 * and of a raw measurement list come from serde_json and are the parameters
 * `record` and `raw`; the upload itself, the clock and the host name lookup
 * are not part of this model (the time is the parameter `now`).
 */
module S3Backend {
  import opened Common
  import opened Text
  import Metrics

  datatype Unit = Byte(bytes: u64) | Count(count: u64)

  datatype Measurement = Measurement(timestamp: u64, kind: Metrics.Kind, name: string, value: Unit, tags: Metrics.Tags)

  datatype Message = Single(measurement: Measurement) | List(measurements: seq<Measurement>)

  /** The backend's state: the host name read at start-up and the target bucket. */
  datatype S3 = S3(hostname: string, bucket: string)

  /** `SerializedMeasurement` of this backend: the tags stay a list. */
  datatype SerializedMeasurement = SerializedMeasurement(
    timestamp: u64, kind: Metrics.Kind, name: string, measurement: u64, tags: Metrics.Tags)

  /** `format_by_type`: the unit's variant becomes a name suffix and its number the measurement. */
  function FormatByType(m: Measurement): (r: SerializedMeasurement)
    ensures r.timestamp == m.timestamp && r.kind == m.kind && r.tags == m.tags
    ensures r.measurement == (if m.value.Byte? then m.value.bytes else m.value.count)
    ensures |r.name| > |m.name| && r.name[..|m.name|] == m.name
    ensures r.name == m.name + (if m.value.Byte? then "_byte" else "_count")
  {
    var (typeStr, measurement) := match m.value
      case Byte(x) => ("byte", x)
      case Count(x) => ("count", x);
    SerializedMeasurement(m.timestamp, m.kind, m.name + "_" + typeStr, measurement, m.tags)
  }

  /** No information is lost: the record determines the measurement it came from. */
  lemma FormatByTypeInjective(m1: Measurement, m2: Measurement)
    requires FormatByType(m1) == FormatByType(m2)
    ensures m1 == m2
  {
    var n1, n2 := FormatByType(m1).name, FormatByType(m2).name;
    assert n1[|n1| - 5..] == (if m1.value.Byte? then "_byte" else "count");
    assert n2[|n2| - 5..] == (if m2.value.Byte? then "_byte" else "count");
    assert m1.value.Byte? == m2.value.Byte?;
    assert m1.name == n1[..|n1| - |(if m1.value.Byte? then "_byte" else "_count")|];
  }

  /** The JSON text of each measurement of a list, in order. */
  function Records(lst: seq<Measurement>, record: SerializedMeasurement -> string): (rs: seq<string>)
    ensures |rs| == |lst|
    ensures forall i :: 0 <= i < |lst| ==> rs[i] == record(FormatByType(lst[i]))
  {
    seq(|lst|, i requires 0 <= i < |lst| => record(FormatByType(lst[i])))
  }

  /** The upload body: a list as a JSON array of records one per line, a single measurement as a one-element array. */
  function Body(msg: Message, record: SerializedMeasurement -> string, raw: seq<Measurement> -> string): string
  {
    match msg
    case List(lst) => "[" + Join(Records(lst, record), ",\n") + "]"
    case Single(m) => raw([m])
  }

  /**
   * The body of a non-empty list is bracketed, and splitting what lies
   * between the brackets at ",\n" gives back each measurement's record in
   * order, as long as no record holds a line break.
   */
  lemma ListBodySplits(lst: seq<Measurement>, record: SerializedMeasurement -> string, raw: seq<Measurement> -> string)
    requires lst != []
    requires forall i :: 0 <= i < |lst| ==> '\n' !in record(FormatByType(lst[i]))
    ensures var body := Body(List(lst), record, raw);
      |body| >= 2 && body[0] == '[' && body[|body| - 1] == ']' &&
      SplitOn(body[1..|body| - 1], ",\n") == Records(lst, record)
  {
    var rs := Records(lst, record);
    var body := Body(List(lst), record, raw);
    assert body[1..|body| - 1] == Join(rs, ",\n");
    assert ",\n"[..1] == ",";
    SplitJoin(rs, ",\n");
  }

  /** An empty list uploads an empty array. */
  lemma EmptyListBody(record: SerializedMeasurement -> string, raw: seq<Measurement> -> string)
    ensures Body(List([]), record, raw) == "[]"
  {
  }

  /** A string without `c` counts none of it. */
  lemma {:induction false} CountCharAbsent(s: string, c: char)
    requires c !in s
    ensures CountChar(s, c) == 0
  {
    if s != [] {
      assert s[0] != c;
      assert forall x :: x in s[1..] ==> x in s;
      CountCharAbsent(s[1..], c);
    }
  }

  /** Joining one-line parts with ",\n" puts exactly one line break between neighbours. */
  lemma {:induction false} JoinLineBreaks(parts: seq<string>)
    requires parts != []
    requires forall i :: 0 <= i < |parts| ==> '\n' !in parts[i]
    ensures CountChar(Join(parts, ",\n"), '\n') == |parts| - 1
  {
    CountCharAbsent(parts[0], '\n');
    if |parts| > 1 {
      JoinLineBreaks(parts[1..]);
      CountCharSplit(parts[0] + ",\n", Join(parts[1..], ",\n"), '\n');
      CountCharSplit(parts[0], ",\n", '\n');
      assert CountChar(",\n", '\n') == 1 by {
        assert ",\n"[1..] == "\n";
        assert "\n"[1..] == "";
      }
    }
  }

  /**
   * When no record's JSON holds a line break (serde_json's compact output
   * escapes them), a non-empty list's body has one line per measurement.
   */
  lemma ListBodyLines(lst: seq<Measurement>, record: SerializedMeasurement -> string, raw: seq<Measurement> -> string)
    requires lst != []
    requires forall i :: 0 <= i < |lst| ==> '\n' !in record(FormatByType(lst[i]))
    ensures CountChar(Body(List(lst), record, raw), '\n') == |lst| - 1
  {
    var parts := Records(lst, record);
    JoinLineBreaks(parts);
    CountCharSplit("[" + Join(parts, ",\n"), "]", '\n');
    CountCharSplit("[", Join(parts, ",\n"), '\n');
    assert CountChar("]", '\n') == 0 && CountChar("[", '\n') == 0 by {
      assert "]"[1..] == "" && "["[1..] == "";
    }
  }

  /** `PutObjectRequest`, with the fields `handle` sets. */
  datatype PutObjectRequest = PutObjectRequest(bucket: string, key: string, body: string)

  /** The object key: the host name, an underscore, and the upload time in decimal. */
  function ObjectKey(hostname: string, now: u64): (key: string)
    ensures |key| > |hostname| + 1 && key[..|hostname| + 1] == hostname + "_"
    ensures AllDigits(key[|hostname| + 1..]) && DigitsValue(key[|hostname| + 1..]) == now
  {
    DecimalValue(now);
    var key := hostname + "_" + Decimal(now);
    assert key[|hostname| + 1..] == Decimal(now);
    key
  }

  /** Two uploads from the same host at different times use different keys. */
  lemma ObjectKeyInjective(hostname: string, t1: u64, t2: u64)
    requires ObjectKey(hostname, t1) == ObjectKey(hostname, t2)
    ensures t1 == t2
  {
  }

  /** `handle`: the request it sends for a message at time `now`. */
  function Handle(s3: S3, msg: Message, now: u64,
                  record: SerializedMeasurement -> string, raw: seq<Measurement> -> string): (req: PutObjectRequest)
    ensures req.bucket == s3.bucket && |req.key| > |s3.hostname| + 1 && req.key[..|s3.hostname| + 1] == s3.hostname + "_"
    ensures AllDigits(req.key[|s3.hostname| + 1..]) && DigitsValue(req.key[|s3.hostname| + 1..]) == now
    ensures msg.Single? ==> req.body == raw([msg.measurement])
    ensures msg.List? && msg.measurements == [] ==> req.body == "[]"
    ensures msg.List? && msg.measurements != [] &&
            (forall i :: 0 <= i < |msg.measurements| ==> '\n' !in record(FormatByType(msg.measurements[i]))) ==>
              |req.body| >= 2 && req.body[0] == '[' && req.body[|req.body| - 1] == ']' &&
              SplitOn(req.body[1..|req.body| - 1], ",\n") == Records(msg.measurements, record)
  {
    assert msg.List? && msg.measurements != [] &&
           (forall i :: 0 <= i < |msg.measurements| ==> '\n' !in record(FormatByType(msg.measurements[i]))) ==>
             var body := Body(msg, record, raw);
             |body| >= 2 && body[0] == '[' && body[|body| - 1] == ']' &&
             SplitOn(body[1..|body| - 1], ",\n") == Records(msg.measurements, record) by {
      if msg.List? && msg.measurements != [] &&
         (forall i :: 0 <= i < |msg.measurements| ==> '\n' !in record(FormatByType(msg.measurements[i]))) {
        ListBodySplits(msg.measurements, record, raw);
      }
    }
    PutObjectRequest(s3.bucket, ObjectKey(s3.hostname, now), Body(msg, record, raw))
  }
}
