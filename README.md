# ingraind core, modelled in Dafny

ingraind is an eBPF monitoring agent. Its grains load compiled eBPF object files into the kernel and attach their programs to kprobes, XDP hooks or sockets. They then turn the events the programs push through perf maps into measurements. The measurements pass through aggregations, such as a regex rewrite of tag values, on their way to backends that encode them as JSON or Cap'n Proto or upload them to S3.

This project models the decision and transformation logic of that pipeline and proves what it promises:

- **The redbpf loader** (`redbpf.dfy`, `redbpf_module.dfy`):
  - Kernel-release parsing and the `KERNEL_VERSION` packing.
  - The `0xFFFFFFFE` version sentinel.
  - Splitting section names into a program kind and a name.
  - Program load/attach state as a class whose descriptor fields change only when the syscall succeeds.
  - The routing loop of `Module::parse`.
  - `add_rel`, and the relocation loop that patches instructions in place.
- **The TLS grain** (`tls.dfy`):
  - IPv4 IHL and TCP Data Offset arithmetic, as in section 3.1 of RFC 791 and section 3.1 of RFC 793.
  - Address and port tags.
  - Which decoded handshake messages become measurements.
- **The file grain** (`file_grain.dfy`): path reconstruction from kernel dentry segments, using an in-place array reversal, and the read/write measurement.
- **The regex aggregation** (`regex_aggregation.dfy`): building the rule table and rewriting tag values in place.
- **The encoders and the S3 backend** (`encoders.dfy`, `s3_backend.dfy`): record names, field copying, the Cap'n Proto builder loop, the upload body and the object key.
  - `s3_backend.dfy` declares its own `Unit`, `Measurement` and `Message`. The S3 backend's `format_by_type` matches only `Byte` and `Count` (src/backends/s3.rs:44-47), while the encoders match the same `metrics::Unit` with `Str` as well (src/backends/encoders.rs:64). The S3 copy has the two variants that backend handles.
- **The TCPv4 grain** (`tcpv4.dfy`): event classification and connection tags.
- **Grain attachment** (`grain.dfy`): loading every program, attaching the selected kinds, and one perf handler per (perf map, CPU) pair.
- **The two in-kernel probes** (`dns_probe.dfy`, `syscalls_probe.dfy`): the XDP DNS filter, which reports only OPCODE QUERY as laid out in section 4.1.1 of RFC 1035, and the clone kprobe that suppresses the agent's own process.

`common.dfy`, `text.dfy` and `metrics.dfy` hold the shared types and helpers:
- Fixed-width integers.
- Bitwise and/or on naturals.
- Rust's decimal `to_string`, `u32::from_str`, `splitn(2, c)`, `join` and `trim_left_matches`.
- The measurement types.

`Tags` is a vector of key/value pairs (src/backends/encoders.rs:43-44, src/aggregations/regex.rs:22). The body of `Tags::insert` is not part of this model; the model assumes that `insert` appends the pair, neither reordering nor replacing earlier pairs (see "## Left out").

The loader packs a release as `major << 16 | minor << 8 | patch` (redbpf/src/lib.rs:336).

## Model

| member | source | states |
|---|---|---|
| Redbpf.ToProgType | redbpf/src/lib.rs:86-91 | both program kinds load as `BPF_PROG_TYPE_KPROBE` |
| Redbpf.ToAttachType | redbpf/src/lib.rs:93-99 | the attach type is ENTRY exactly for a kprobe and RETURN exactly for a kretprobe |
| Redbpf.FromSection | redbpf/src/lib.rs:101-108 | `"kprobe"` and `"kretprobe"` and nothing else give their kinds; any other string is `Section` of that string |
| Redbpf.FromSectionPrefix | redbpf/src/lib.rs:101-108 | every kind's section prefix maps back to that kind |
| Redbpf.SplitSectionName | redbpf/src/lib.rs:114-118 | no contract of its own: SplitSectionNameCases and SplitSectionNameOf state the split |
| Redbpf.SplitSectionNameCases | redbpf/src/lib.rs:114-118 | no `/` is a parse error; a success splits at the first `/` into a kind prefix and a name that may hold further `/`; an unknown prefix is a `Section` error naming it |
| Redbpf.SplitSectionNameOf | redbpf/src/lib.rs:114-118 | round trip: `<kind>/<name>` splits back into that kind and name |
| Redbpf.VersionCode | redbpf/src/lib.rs:336 | no contract of its own: VersionCodeValue, VersionCodeOrdered and VersionCodeOverlap state the packing |
| Redbpf.VersionCodeValue | redbpf/src/lib.rs:336 | with major < 2^16 and minor, patch < 256, the shifted-and-or'ed code equals major·65536 + minor·256 + patch |
| Redbpf.VersionCodeOrdered | redbpf/src/lib.rs:336 | on that range the code is injective and orders releases lexicographically |
| Redbpf.VersionCodeOverlap | redbpf/src/lib.rs:336 | outside that range fields collide: 0.256.0 and 1.0.0 get the same code |
| Redbpf.ReleaseFields | redbpf/src/lib.rs:329-330 | the fields are the text before the first `-`, split at its first two dots; the first two fields hold no dot |
| Redbpf.ReleaseFieldsOf | redbpf/src/lib.rs:329-330 | `x.y.z` followed by nothing or by `-suffix` gives exactly the fields x, y, z |
| Redbpf.KernelVersion | redbpf/src/lib.rs:325-336 | success iff there are three fields and each parses as a u32, and then the value is their packed code; every failure is `KernelRelease` of the raw release |
| Redbpf.KernelVersionNeedsThreeFields | redbpf/src/lib.rs:330-334 | fewer than two dots before the first `-` is always `KernelRelease` |
| Redbpf.KernelVersionFourFields | redbpf/src/lib.rs:330-334 | a four-field release such as 4.19.0.1 fails, because the third field keeps the extra dot |
| Redbpf.KernelVersionOfRelease | redbpf/src/lib.rs:325-336 | round trip: the release `major.minor.patch-suffix`, rendered in decimal, parses to the code of that triple whatever the suffix |
| Redbpf.ReadU32 | redbpf/src/lib.rs:302 | the stored version is the first four section bytes read little-endian |
| Redbpf.GetVersion | redbpf/src/lib.rs:301-307 | the stored value is kept unless it is 0xFFFFFFFE, which is replaced by the running kernel's version |
| Redbpf.GetVersionOfRunningKernel | redbpf/src/lib.rs:301-307 | a sentinel section on a kernel reporting `major.minor.patch-suffix` gets that release's packed code |
| Redbpf.EncodeInsn | redbpf/src/lib.rs:113 | one instruction occupies eight bytes |
| Redbpf.DecodeEncodeInsn | redbpf/src/lib.rs:113 | decoding the byte layout of an instruction gives the instruction back |
| Redbpf.DecodeInsns | redbpf/src/lib.rs:113 | the code has one instruction per eight bytes |
| Redbpf.PatchMapFd | redbpf/src/lib.rs:250-251 | the patched instruction marks its source register as `BPF_PSEUDO_MAP_FD` and holds the map fd as immediate; opcode, destination register and offset are unchanged |
| Redbpf.Program.constructor | redbpf/src/lib.rs:120-126 | a new program has its kind, name and code and is neither loaded nor attached |
| Redbpf.Program.Load | redbpf/src/lib.rs:137-162 | a NUL in license or name is `StringConversion`; a negative syscall answer is `BPF` and leaves `fd` unchanged; otherwise `fd` holds the answer and the program is loaded |
| Redbpf.Program.Attach | redbpf/src/lib.rs:164-182 | the kprobe is attached with the program's fd and attach type at the function it is named after; a negative answer is `BPF` and leaves `pfd` unchanged; otherwise `pfd` holds it and the program is attached |
| Redbpf.NewProgram | redbpf/src/lib.rs:112-127 | fails exactly when the section name does not split, with that error; otherwise a fresh program with the split kind and name, the decoded code, and no descriptors |
| Redbpf.FindRelocs | redbpf/src/lib.rs:291 | the relocation list of the first entry for the section, and none exactly when no entry names it |
| Redbpf.SectionRels | redbpf/src/lib.rs:292-297 | one `Rel` per relocation, in order, with the section index, `sh_info` as target, and the relocation's symbol and offset |
| Redbpf.AddRel | redbpf/src/lib.rs:284-298 | the existing entries stay as they are and the section's relocations are appended in order |
| Redbpf.Apply | redbpf/src/lib.rs:238-254 | succeeds iff the target is a program and its symbol's section is a map, otherwise `Reloc`; only instruction `offset / 8` of the target changes, to the map's fd; no descriptor changes |
| Redbpf.PatchAt | redbpf/src/lib.rs:248-251 | only the instruction at the index changes, and it is patched with the fd |
| Redbpf.SectionData | redbpf/src/lib.rs:348-353 | the section's bytes are the `size` bytes of the file from `offset` |
| RedbpfModule.ReadStr | redbpf/src/lib.rs:206 | the license text is the bytes before the first NUL |
| RedbpfModule.LoadMap | redbpf/src/lib.rs:258-280 | a NUL in the name is `StringConversion`; a negative `bpf_create_map` answer is `BPF`; otherwise the map has the name, the definition's kind and the fd |
| RedbpfModule.SectionErrors | redbpf/src/lib.rs:199-217 | one possible error per section, in section order |
| RedbpfModule.FirstErrorOf | redbpf/src/lib.rs:210-213 | an error reported is the error of some section examined |
| RedbpfModule.FirstErrorStays | redbpf/src/lib.rs:210-213 | once a section fails, later sections do not change the error (`?` returns at once) |
| RedbpfModule.FirstErrorNone | redbpf/src/lib.rs:210-213 | with no error so far, none of the sections examined failed |
| RedbpfModule.RouteOf | redbpf/src/lib.rs:204-216 | no contract of its own: RouteOfCases states the routing |
| RedbpfModule.RouteOfCases | redbpf/src/lib.rs:204-216 | a relocation section exactly when its type is REL; `license`, `version` and `maps` exactly when PROGBITS with that name; a program exactly for any other PROGBITS name; every other type ignored |
| RedbpfModule.RouteSection | redbpf/src/lib.rs:199-217 | one iteration: either the error of section k, or everything sections up to k describe, with old programs kept and only new ones fresh |
| RedbpfModule.RouteProgram | redbpf/src/lib.rs:212-214 | a program section adds the program `Program::new` makes of it, or fails with the name-split error |
| RedbpfModule.CollectProgram | redbpf/src/lib.rs:212-214 | keying the new program by its section extends the collected relocations, license, version, maps and programs from sections before k to sections up to k |
| RedbpfModule.AddProgram | redbpf/src/lib.rs:213 | inserting a new program object keeps programs distinct and each made from its own section |
| RedbpfModule.ProgramStep | redbpf/src/lib.rs:212-214 | a program section changes no relocation, license, version or map collected so far |
| RedbpfModule.ProgramSectionsStep | redbpf/src/lib.rs:212-214 | section k joins the program sections exactly when it is routed as a program |
| RedbpfModule.RouteData | redbpf/src/lib.rs:204-211 | relocation, license, version and maps sections leave the programs alone and extend what has been collected |
| RedbpfModule.RouteSections | redbpf/src/lib.rs:199-217 | the first loop fails iff some section fails, with the first such error; otherwise it yields the relocations, license, version, maps and fresh unloaded programs the sections describe |
| RedbpfModule.RelocatedUpTo | redbpf/src/lib.rs:220-222 | relocating keeps the code length |
| RedbpfModule.FirstUnresolved | redbpf/src/lib.rs:220-222 | every relocation before the index resolves and the one at it does not |
| RedbpfModule.ApplyRelocations | redbpf/src/lib.rs:220-222 | succeeds iff every relocation resolves, otherwise `Reloc`; on success each program's code is its old code with every relocation aimed at it applied; descriptors are untouched |
| RedbpfModule.ApplyNext | redbpf/src/lib.rs:220-222 | one iteration: the relocation is the first that fails, or the first i+1 are applied to every program |
| RedbpfModule.ResolvedStep | redbpf/src/lib.rs:220-222 | a resolving relocation right after the resolved ones extends them |
| RedbpfModule.Parse | redbpf/src/lib.rs:186-233 | the first failing section gives its error, and then the first unresolved relocation gives `Reloc`; otherwise the module holds the bytes, the license, the version, the maps and one fresh unloaded program per program section, with its relocations applied |
| Tls.IphLen | src/grains/tls.rs:151-154 | the IPv4 header length is four times the IHL nibble, a multiple of 4 up to 60 |
| Tls.TcpLen | src/grains/tls.rs:156-159 | the TCP header length is four times the data-offset nibble (the high four bits of TCP header byte 12), so a multiple of 4 up to 60 |
| Tls.TcpPayloadOffset | src/grains/tls.rs:161-164 | the payload starts between 14 and 134 bytes into the frame |
| Tls.PayloadOffsetOfFrame | src/grains/tls.rs:151-164 | for an Ethernet, IPv4 and TCP header whose length fields are right, the offset is the sum of their lengths and the bytes from it are the payload |
| Tls.NetworkU16 | src/grains/tls.rs:145-146 | a shifted-and-or'ed byte pair is its big-endian value |
| Tls.NetworkU16Value | src/grains/tls.rs:145-146 | the or of the shifted high byte and the low byte is their sum |
| Tls.TagIpAndPorts | src/grains/tls.rs:111-123 | exactly the keys `d_ip`, `s_ip`, `d_port`, `s_port`, in that order |
| Tls.TagsOfFrame | src/grains/tls.rs:111-149 | on a well-formed frame the destination address is IPv4 bytes 16-19, the source bytes 12-15, the destination port TCP bytes 2-3 and the source port bytes 0-1 |
| Tls.ParseIps | src/grains/tls.rs:125-141 | no contract of its own: IpsOfFrame states which header bytes the addresses come from |
| Tls.ParseTcpPorts | src/grains/tls.rs:143-149 | no contract of its own: PortsOfFrame states which header bytes the ports come from |
| Tls.IpsOfFrame | src/grains/tls.rs:125-141 | addresses come from IPv4 header bytes 16-19 (destination) and 12-15 (source) |
| Tls.PortsOfFrame | src/grains/tls.rs:143-149 | ports come from TCP header bytes 2-3 (destination) and 0-1 (source), big-endian |
| Tls.DisplayInjective | src/grains/tls.rs:140 | different IPv4 addresses render differently |
| Tls.DottedInjective | src/grains/tls.rs:140 | dotted-decimal renderings of equally long lists are equal only for equal lists |
| Tls.HostNames | src/grains/tls.rs:74-85 | the SNI list keeps exactly the host-name entries |
| Tls.HostNamesConcat | src/grains/tls.rs:77-83 | the filter keeps list order: the host names of a concatenation are those of each half, one after the other |
| Tls.Msg | src/grains/tls.rs:167-174 | no contract of its own: ParseClientHello and ParseServerHello state the message it builds |
| Tls.ParseClientHello | src/grains/tls.rs:66-89 | a `tls.handshake.clienthello` counter/meter counting one, the incoming tags first, then `ciphersuites_list` (the suites joined by `,`), `client_version` and, with an SNI extension, `sni_list` (the host names joined by `,`), each with its value |
| Tls.ParseServerHello | src/grains/tls.rs:91-102 | a `tls.handshake.serverhello` counter/meter counting one, the incoming tags first, then `ciphersuite_str` with the suite and, when a protocol was negotiated, `alpn_str` with it |
| Tls.TlsToMessage | src/grains/tls.rs:39-64 | a message exactly for a decoded ClientHello or ServerHello, named after it, whose tags start with the addresses, ports and record version |
| FileGrain.Reversed | src/grains/file.rs:90 | element i of the reversal is element n-1-i |
| FileGrain.Reverse | src/grains/file.rs:89-90 | the array is reversed in place |
| FileGrain.SegmentNames | src/grains/file.rs:91-98 | one name per segment, in order, each at most `nlen` bytes |
| FileGrain.PathOf | src/grains/file.rs:89-101 | no contract of its own: PathOfRooted states the path |
| FileGrain.FileAccessOf | src/grains/file.rs:86-112 | no contract of its own: FromVolume computes it by copying the segments into an array and reversing that array in place with Reverse, and is proved equal to it |
| FileGrain.FromVolume | src/grains/file.rs:86-112 | the access holds id, counts, the first segment's inode, and the path of reversed, truncated names joined by `/` with leading `/` trimmed |
| FileGrain.JoinStartsWith | src/grains/file.rs:99 | a joined list starts with its first part |
| FileGrain.PathOfRooted | src/grains/file.rs:89-101 | for a path reported leaf first down to the root dentry `/` as its last segment (no unused entries after the root), the path is the other names root first, joined by `/` |
| FileGrain.ToTags | src/grains/file.rs:114-125 | exactly `task_id`, `process`, `path`, `ino`, with the process and path values |
| FileGrain.ToTagsNumbers | src/grains/file.rs:118-121 | the task id and inode tags read back as those numbers |
| FileGrain.AccessMeasurement | src/grains/file.rs:69-81 | named `file.write` iff something was written, else `file.read`; the byte volume is the write count iff positive, else the read count |
| FileGrain.Handle | src/grains/file.rs:66-83 | every event becomes one such measurement |
| RegexAggregation.BuildRules | src/aggregations/regex.rs:13-16 | no contract of its own: BuildRulesKeys and BuildRulesLastWins state the table |
| RegexAggregation.BuildRulesKeys | src/aggregations/regex.rs:13-16 | the table has a rule for exactly the configured keys |
| RegexAggregation.BuildRulesLastWins | src/aggregations/regex.rs:13-16 | a key's rule comes from the last triple naming that key |
| RegexAggregation.Launch | src/aggregations/regex.rs:12-19 | with every pattern compiling, every rule's pattern compiles |
| RegexAggregation.LaunchCompiles | src/aggregations/regex.rs:13-16 | every rule comes from a configured, compiling pattern |
| RegexAggregation.FilteredTags | src/aggregations/regex.rs:21-29 | one tag out per tag in, each rewritten on its own |
| RegexAggregation.FilterTags | src/aggregations/regex.rs:21-29 | the loop leaves the measurement with its tags filtered and nothing else changed |
| RegexAggregation.Rewrite | src/aggregations/regex.rs:22-27 | no contract of its own: RewriteCases states what happens to one tag |
| RegexAggregation.RewriteCases | src/aggregations/regex.rs:22-27 | keys never change; a value is replaced iff its key has a rule whose pattern matches it |
| RegexAggregation.FilterIdempotent | src/aggregations/regex.rs:21-29 | filtering twice is filtering once |
| RegexAggregation.Handle | src/aggregations/regex.rs:39-48 | the forwarded message is the input with every measurement filtered |
| RegexAggregation.FilteredMessage | src/aggregations/regex.rs:40-45 | no contract of its own: FilteredMessageShape and Handle state the forwarded message |
| RegexAggregation.FilteredMessageShape | src/aggregations/regex.rs:40-45 | the forwarded message has the same variant and count, and only tag values differ |
| Encoders.SerializedName | src/backends/encoders.rs:60-68 | the name, then `_byte`, `_count` or `_string` for a byte, count or string value |
| Encoders.SerializedNameVariant | src/backends/encoders.rs:60-68 | with equal base names, serialised names differ exactly when unit variants do |
| Encoders.TagMap | src/backends/encoders.rs:87 | the map holds exactly the tag keys, each with its last value |
| Encoders.TagMapKeys | src/backends/encoders.rs:87 | the map's keys are the set of tag keys |
| Encoders.Serialize | src/backends/encoders.rs:79-90 | timestamp and kind are copied, the name is the serialised name, the value is `get()`, and the tags are the tag map: keyed by the tag keys, each with its last value |
| Encoders.ToJson | src/backends/encoders.rs:56-58 | one record per measurement, in order |
| Encoders.ToCapnp | src/backends/encoders.rs:27-54 | a fresh array with one fully set entry per measurement |
| Encoders.CapnpOf | src/backends/encoders.rs:36-48 | no contract of its own: CapnpAgreesWithJson states the entry against the JSON record |
| Encoders.CapnpAgreesWithJson | src/backends/encoders.rs:36-48 | a Cap'n Proto entry carries the same timestamp, kind, name, value and tag map as the JSON record |
| Encoders.Encode | src/backends/encoders.rs:17-23 | `JSON` produces the JSON records and `Capnp` the Cap'n Proto entries |
| S3Backend.FormatByType | src/backends/s3.rs:43-58 | timestamp, kind and tags are copied, the value is the unit's number, and the name is the measurement's name followed by `_byte` for bytes and `_count` for counts |
| S3Backend.FormatByTypeInjective | src/backends/s3.rs:43-58 | the record determines the measurement it came from |
| S3Backend.Body | src/backends/s3.rs:65-72 | no contract of its own: ListBodySplits, EmptyListBody and ListBodyLines state what a list body holds; a single measurement is passed to the raw encoder |
| S3Backend.EmptyListBody | src/backends/s3.rs:65-71 | an empty list uploads `[]` |
| S3Backend.Records | src/backends/s3.rs:67-69 | one record per measurement, in order, each the JSON text of its reformatted measurement |
| S3Backend.ListBodySplits | src/backends/s3.rs:65-71 | a non-empty list's body starts with `[`, ends with `]`, and what lies between splits at `,\n` into the records in order, when no record holds a line break |
| S3Backend.JoinLineBreaks | src/backends/s3.rs:70 | joining one-line parts with `,\n` puts exactly one line break between neighbours |
| S3Backend.ListBodyLines | src/backends/s3.rs:65-71 | a list body has one line per measurement |
| S3Backend.ObjectKey | src/backends/s3.rs:79 | the key is the host name, `_`, then digits that read back as the time |
| S3Backend.ObjectKeyInjective | src/backends/s3.rs:79 | two uploads from one host at different times use different keys |
| S3Backend.Handle | src/backends/s3.rs:63-86 | the request goes to the bucket under that key; a single measurement is sent raw as a one-element array; an empty list is `[]`; a non-empty list is bracketed and splits at `,\n` back into its records in order |
| Tcpv4.GetHandler | src/grains/tcpv4.rs:27-62 | the connections handler exactly for `ip_connections`; any other id is outside the precondition (`unreachable!`) |
| Tcpv4.ProtoLabel | src/grains/tcpv4.rs:46-50 | `tcp` iff 6, `udp` iff 17, `unknown` iff neither |
| Tcpv4.ConnTags | src/grains/tcpv4.rs:67-77 | exactly `process_str`, `process_id`, `d_ip`, `s_ip`, `d_port`, `s_port`, in that order; `process_str` is the rendered command name, `d_ip` the rendered destination address and `s_ip` the rendered source address |
| Tcpv4.ConnTagsNumbers | src/grains/tcpv4.rs:70-74 | the pid and ports read back from their tags |
| Tcpv4.ConnectionMeasurement | src/grains/tcpv4.rs:28-37 | `connection.out`, `Count(1)`, counter/histogram/meter, with the connection tags |
| Tcpv4.VolumeMeasurement | src/grains/tcpv4.rs:39-61 | `volume.out` iff a send and `volume.in` iff a receive, with the bytes moved, tagged with the connection and its protocol |
| Tcpv4.VolumeTagKeys | src/grains/tcpv4.rs:52-53 | volume tags are the connection tags plus exactly `proto` |
| Grains.Program.constructor | redbpf/src/lib.rs:120-126 | a parsed program keeps its kind, name and code and has no descriptors yet |
| Grains.AttachLog | src/grains/grain.rs:14-21 | at most one log line per program |
| Grains.AttachLogStep | src/grains/grain.rs:14-21 | each program adds its `Attached:` line exactly when its kind is selected, in program order |
| Grains.PerfMaps | src/grains/grain.rs:44 | no more perf maps than maps |
| Grains.PerfMapsMembers | src/grains/grain.rs:44 | exactly the maps of kind 4 are bound |
| Grains.CpuHandlers | src/grains/grain.rs:45-53 | one handler per CPU, with the map's name and the full backend list |
| Grains.PerfHandlers | src/grains/grain.rs:41-57 | no contract of its own: PerfHandlersCount and PerfHandlersAt state the handler list |
| Grains.PerfHandlersCount | src/grains/grain.rs:41-57 | there are (perf maps) × (CPUs) handlers |
| Grains.PerfHandlersAt | src/grains/grain.rs:41-57 | map-major order: CPU j of perf map i is at i·\|cpus\| + j |
| Grains.SocketHandlers | src/grains/grain.rs:65-78 | no more socket handlers than programs |
| Grains.SocketHandlersMembers | src/grains/grain.rs:65-78 | exactly the socket filters get a handler, with their attachment's descriptor |
| Grains.Grain.constructor | src/grains/grain.rs:95-98 | the grain owns the module's programs, maps, version and license |
| Grains.Grain.Load | src/grains/grain.rs:86-99 | every program is loaded from its own kind, name and code with the module's version and license; no `pfd` changes |
| Grains.Grain.AttachSelected | src/grains/grain.rs:14-22 | exactly the programs of the selected kinds get the `pfd` the attachment returns for their kind, name and load descriptor, in order, each logged; others and every `fd` are untouched |
| Grains.Grain.BindPerf | src/grains/grain.rs:41-57 | the nested loops return the map-major handler list |
| Grains.Grain.AttachKprobes | src/grains/grain.rs:12-25 | exactly kprobes and kretprobes are attached, each by its kind, name and load descriptor, then the perf maps are bound |
| Grains.Grain.AttachXdps | src/grains/grain.rs:27-39 | exactly the XDP programs are attached to the interface, each by its name and load descriptor, then the perf maps are bound |
| Grains.Grain.AttachSocketfilters | src/grains/grain.rs:59-79 | one handler per socket filter in program order, each logged |
| DnsProbe.Opcode | ingraind-probes/src/dns/main.rs:31 | the tested bits are the 4-bit field above bit 3 |
| DnsProbe.OpcodeOfFlags | ingraind-probes/src/dns/main.rs:31 | the bit test reads back exactly the OPCODE of a flags byte, whatever the other flags |
| DnsProbe.Probe | ingraind-probes/src/dns/main.rs:16-50 | always `Pass`; an event iff IP, transport, payload and a 12-byte header are present and OPCODE is 0, carrying the addresses, ports, and 32-bit offset and length |
| DnsProbe.ReportsQueriesOnly | ingraind-probes/src/dns/main.rs:31-33 | queries are reported and no other opcode is; QR is not looked at |
| SyscallsProbe.Pid | ingraind-probes/src/syscalls/main.rs:26 | no contract of its own: PidOfPidTgid states that the shift recovers the thread group id |
| SyscallsProbe.PidOfPidTgid | ingraind-probes/src/syscalls/main.rs:26 | the shift recovers the thread group id |
| SyscallsProbe.SyscallEnter | ingraind-probes/src/syscalls/main.rs:22-43 | always 0; no event iff `host_pid[1]` exists and equals the pid; otherwise the event carries pid, syscall number and command |
| SyscallsProbe.SuppressesHostProcess | ingraind-probes/src/syscalls/main.rs:23-29 | every thread of the host process is suppressed and every thread of another reported |
| Text.Decimal | src/grains/tls.rs:119 | the rendering is non-empty digits without a leading zero unless it is `0` |
| Text.DecimalValue | src/grains/tls.rs:119 | reading back the rendering gives the number |
| Text.DecimalInjective | src/grains/tls.rs:119 | equal renderings mean equal numbers |
| Text.ParseU32 | redbpf/src/lib.rs:332-334 | a successful parse read only digits, after an optional `+`, and returns their decimal value (so `+7` and `007` give 7) |
| Text.ParseU32Decimal | redbpf/src/lib.rs:332-334 | every u32 parses back from its rendering |
| Text.ParseU32RejectsNonDigit | redbpf/src/lib.rs:332-334 | a field holding a dot or other non-digit never parses |
| Text.SplitOnce | redbpf/src/lib.rs:329-330 | the head holds no separator, and head, separator and tail rebuild the input |
| Text.SplitOnceAt | redbpf/src/lib.rs:329-330 | splitting `a + sep + b` with no separator in `a` gives back a and b |
| Text.TrimStart | src/grains/file.rs:100 | a suffix with no leading `c`, and only `c` removed |
| Common.BitAndLowBits | src/grains/tls.rs:153 | and-ing with 2^n − 1 is the remainder modulo 2^n |
| Common.BitOrDisjoint | src/grains/tls.rs:145-146 | or-ing a multiple of 2^n with a number below 2^n adds them |

## Left out

- ELF decoding by goblin and `zero::read`: the section headers, the relocation lists and the symbol table are inputs (`RedbpfModule.Elf`), and the section name table is already looked up.
- The bpf syscalls (`bpf_prog_load`, `bpf_attach_kprobe`, `bpf_create_map`), `libc::uname` and `CStr` decoding: their results are parameters. `uname` failing (`Uname`) is therefore not modelled.
- RedbpfModule.Parse: programs and maps are returned keyed by section index. The order in which `HashMap::drain` empties them into vectors is unspecified and not modelled.
- UTF-8: strings are sequences of characters, and `read_str` maps one byte to one character.
- TLS record and handshake decoding, done by rustls, is the parameter `read`. The `Debug` renderings of versions and cipher suites arrive as strings, and the ALPN UTF-8 check as an optional string.
- Helpers outside the model are parameters:
  - `to_string` of byte buffers, `to_le`, `Ipv6Addr` display, `Unit::get` for `Str`, and the clock used by `Measurement::new` and `timestamp_now`.
  - The serde_json text of records and raw lists.
  - The regex engine and regex compilation.
- Actors, `spawn`, the S3 client and upload, and the swallowed upload errors are outside the model. So are the serde and capnp byte formats, and the capnp float conversion of the measurement (src/backends/encoders.rs:41).
- Encoders.Encode: the source declares `Capnp` under the `capnp` feature but `to_capnp` under `capnp-encoding`. The model treats both as present.
- The `loaded` hook of the file grain (filesystem metadata and kernel map writes), and the raw memory reads that turn event bytes into structs.
- Grains.Grain.AttachSocketfilters: does not model what `attach_socketfilter` does to the program's state, only the descriptor it returns. That descriptor is a function of the interface and the program's name; every program it sees is a socket filter, so the kind adds nothing.
- Grains.Grain.AttachXdps: stores the XDP attachment's descriptor in `pfd`; the attachment is a function of the interface, the name and the load descriptor. `attach_xdp` is not part of this model, so this is an assumption.
- Grains.Grain.BindPerf: `PerfMap::bind` is assumed to succeed and the perf map object is not modelled. The CPU list is a parameter, not read from the system.
- Panics (`unwrap`, `unreachable!`, out-of-range indexing, a section length that is not a whole number of instructions) are preconditions, not modelled outcomes.
- build.rs, src/main.rs, src/backends/console.rs and src/backends/mod.rs: build orchestration, process set-up and printing.
- The agent's `metrics` module is not part of this model. `Tags` is a vector of pairs, as the encoders read it, and measurement kinds are sets of flags.
- FileGrain.PathOfRooted: covers only paths whose root dentry `/` is the last segment. Unused entries after the root (empty names) are handled by PathOf but not described by this lemma.
- Metrics.Insert: `Tags::insert` is not shown; the model assumes it appends without reordering or replacing. The tag orders and indices stated by Tls.TagIpAndPorts, Tls.ParseClientHello, Tls.ParseServerHello, Tls.TlsToMessage, FileGrain.ToTags, Tcpv4.ConnTags and Tcpv4.VolumeMeasurement hold under that assumption; an `insert` that sorted or replaced keys would keep their values but not their positions.
