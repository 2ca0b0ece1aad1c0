/**
 * The file grain (src/grains/file.rs): turning a kernel `_data_volume`
 * record into a `FileAccess`, and a `FileAccess` into a read or write
 * measurement. The kernel reports the path as dentry segments, leaf first;
 * the conversion copies them, reverses the copy in place and joins the
 * names. `to_string` on the raw name bytes is not part of this model and is
 * the parameter `text`.
 */
module FileGrain {
  import opened Common
  import opened Text
  import opened Metrics

  /** One dentry of the reported path: a fixed-size name buffer, the name's length, and the inode. */
  datatype PathSegment = PathSegment(name: seq<u8>, nlen: u32, ino: u64)

  /** The kernel's description of the file: task id, command name, and the path, leaf first. */
  datatype FileInfo = FileInfo(id: u64, comm: seq<u8>, path: seq<PathSegment>)

  /** `_data_volume`: one access and the bytes read and written. */
  datatype Volume = Volume(file: FileInfo, read: u64, write: u64)

  datatype FileAccess = FileAccess(id: u64, process: string, path: string, ino: u64, read: u64, write: u64)

  /** The sequence in the opposite order. */
  function Reversed<T>(s: seq<T>): (r: seq<T>)
    ensures |r| == |s| && forall i :: 0 <= i < |s| ==> r[i] == s[|s| - 1 - i]
  {
    if s == [] then [] else Reversed(s[1..]) + [s[0]]
  }

  /** `Vec::reverse`: swaps the ends pairwise towards the middle. */
  method Reverse<T>(a: array<T>)
    modifies a
    ensures a[..] == Reversed(old(a[..]))
  {
    ghost var before := a[..];
    var i := 0;
    while i < a.Length / 2
      invariant 0 <= i <= a.Length / 2
      invariant forall k :: 0 <= k < i ==> a[k] == before[a.Length - 1 - k]
      invariant forall k :: 0 <= k < i ==> a[a.Length - 1 - k] == before[k]
      invariant forall k :: i <= k < a.Length - i ==> a[k] == before[k]
    {
      a[i], a[a.Length - 1 - i] := a[a.Length - 1 - i], a[i];
      i := i + 1;
    }
  }

  function Min(a: nat, b: nat): nat
  {
    if a <= b then a else b
  }

  /** A segment's name: at most `nlen` bytes of its buffer. */
  function SegmentName(text: seq<u8> -> string, s: PathSegment): string
  {
    text(s.name[..Min(|s.name|, s.nlen)])
  }

  /** The names of the segments, in the given order. */
  function SegmentNames(text: seq<u8> -> string, segments: seq<PathSegment>): (names: seq<string>)
    ensures |names| == |segments|
    ensures forall i :: 0 <= i < |segments| ==> names[i] == SegmentName(text, segments[i])
  {
    seq(|segments|, i requires 0 <= i < |segments| => SegmentName(text, segments[i]))
  }

  /** The path `From<_data_volume>` builds: root first, joined by '/', without leading '/'. */
  function PathOf(text: seq<u8> -> string, segments: seq<PathSegment>): string
  {
    TrimStart(Join(SegmentNames(text, Reversed(segments)), "/"), '/')
  }

  /** The conversion, as a value. */
  function FileAccessOf(data: Volume, text: seq<u8> -> string): FileAccess
    requires data.file.path != []
  {
    FileAccess(data.file.id, text(data.file.comm), PathOf(text, data.file.path),
               data.file.path[0].ino, data.read, data.write)
  }

  /**
   * `From<_data_volume> for FileAccess`. The inode is the first segment's,
   * read before the copy is reversed.
   */
  method FromVolume(data: Volume, text: seq<u8> -> string) returns (access: FileAccess)
    requires data.file.path != []
    ensures access == FileAccessOf(data, text)
  {
    var ino := data.file.path[0].ino;
    var segments := new PathSegment[|data.file.path|](i requires 0 <= i < |data.file.path| => data.file.path[i]);
    assert segments[..] == data.file.path;
    Reverse(segments);
    var names := SegmentNames(text, segments[..]);
    var path := TrimStart(Join(names, "/"), '/');
    access := FileAccess(data.file.id, text(data.file.comm), path, ino, data.read, data.write);
  }

  /** A joined list starts with its first element. */
  lemma JoinStartsWith(parts: seq<string>, sep: string)
    requires parts != []
    ensures |Join(parts, sep)| >= |parts[0]| && Join(parts, sep)[..|parts[0]|] == parts[0]
  {
  }

  /**
   * For a path reported leaf first and ending in the root dentry "/", whose
   * other names are non-empty and do not start with '/', the path is those
   * names root first, joined by '/', with the root's slash gone.
   */
  lemma PathOfRooted(text: seq<u8> -> string, segments: seq<PathSegment>)
    requires |segments| >= 2
    requires SegmentName(text, segments[|segments| - 1]) == "/"
    requires forall i :: 0 <= i < |segments| - 1 ==>
               SegmentName(text, segments[i]) != [] && SegmentName(text, segments[i])[0] != '/'
    ensures PathOf(text, segments) == Join(Reversed(SegmentNames(text, segments[..|segments| - 1])), "/")
  {
    var n := |segments|;
    var names := SegmentNames(text, Reversed(segments));
    var rest := Reversed(SegmentNames(text, segments[..n - 1]));
    assert names == ["/"] + rest;
    var joined := Join(rest, "/");
    assert Join(names, "/") == "/" + "/" + joined;
    JoinStartsWith(rest, "/");
    assert joined[0] == rest[0][0] != '/';
    assert ("/" + "/" + joined)[1..] == "/" + joined;
    assert ("/" + joined)[1..] == joined;
  }

  /** `to_tags`: the task id, the command, the path and the inode, in that order. */
  function ToTags(access: FileAccess): (tags: Tags)
    ensures Keys(tags) == ["task_id", "process", "path", "ino"]
    ensures tags[1].value == access.process && tags[2].value == access.path
  {
    [Tag("task_id", Decimal(access.id)), Tag("process", access.process),
     Tag("path", access.path), Tag("ino", Decimal(access.ino))]
  }

  /** The numeric tags read back as the task id and the inode they were made from. */
  lemma ToTagsNumbers(access: FileAccess)
    ensures AllDigits(ToTags(access)[0].value) && DigitsValue(ToTags(access)[0].value) == access.id
    ensures AllDigits(ToTags(access)[3].value) && DigitsValue(ToTags(access)[3].value) == access.ino
  {
    DecimalValue(access.id);
    DecimalValue(access.ino);
  }

  /** The measurement the handler closure builds from one access. */
  function AccessMeasurement(access: FileAccess, now: u64): (m: Measurement)
    ensures m.name == "file.write" <==> access.write > 0
    ensures m.name == "file.read" <==> access.write == 0
    ensures m.value.Byte? && m.value.bytes == (if access.write > 0 then access.write else access.read)
    ensures m.kind == COUNTER + HISTOGRAM && m.tags == ToTags(access) && m.timestamp == now
  {
    var name := "file." + if access.write > 0 then "write" else "read";
    var vol := if access.write > 0 then access.write else access.read;
    NewMeasurement(COUNTER + HISTOGRAM, name, Byte(vol), ToTags(access), now)
  }

  /** `get_handler`: every event becomes one read or write measurement. */
  method Handle(data: Volume, text: seq<u8> -> string, now: u64) returns (msg: Option<Message>)
    requires data.file.path != []
    ensures msg == Some(Single(AccessMeasurement(FileAccessOf(data, text), now)))
  {
    var access := FromVolume(data, text);
    msg := Some(Single(AccessMeasurement(access, now)));
  }
}
