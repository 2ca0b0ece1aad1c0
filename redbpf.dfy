/**
 * The eBPF loader of redbpf/src/lib.rs: errors, program kinds, section
 * names, kernel-release parsing, the version sentinel, programs and their
 * load/attach state, relocation records and how one relocation patches one
 * instruction. The ELF decoding (goblin), the bpf syscalls and `uname` are
 * not part of this model: their results are inputs.
 */
module Redbpf {
  import opened Common
  import opened Text

  datatype LoadError =
    | StringConversion
    | BPF
    | Section(section: string)
    | Parse(reason: string)
    | KernelRelease(release: string)
    | Uname
    | Reloc

  datatype Result<+T> = Ok(value: T) | Err(error: LoadError)

  // ---------------------------------------------------------------------
  // Program kinds and section names

  datatype ProgramKind = Kprobe | Kretprobe

  /** `BPF_PROG_TYPE_KPROBE` of the kernel's `enum bpf_prog_type`. */
  const BPF_PROG_TYPE_KPROBE: nat := 2
  /** `BPF_PROBE_ENTRY` and `BPF_PROBE_RETURN` of `enum bpf_probe_attach_type`. */
  const BPF_PROBE_ENTRY: nat := 0
  const BPF_PROBE_RETURN: nat := 1

  /** Both kinds are kprobe programs for the kernel. */
  function ToProgType(kind: ProgramKind): (t: nat)
    ensures t == BPF_PROG_TYPE_KPROBE
  {
    match kind
    case Kprobe => BPF_PROG_TYPE_KPROBE
    case Kretprobe => BPF_PROG_TYPE_KPROBE
  }

  /** A kprobe attaches at function entry, a kretprobe at function return. */
  function ToAttachType(kind: ProgramKind): (t: nat)
    ensures t == BPF_PROBE_ENTRY <==> kind == Kprobe
    ensures t == BPF_PROBE_RETURN <==> kind == Kretprobe
  {
    match kind
    case Kprobe => BPF_PROBE_ENTRY
    case Kretprobe => BPF_PROBE_RETURN
  }

  /** The section prefix that names each kind. */
  function SectionPrefix(kind: ProgramKind): string
  {
    match kind
    case Kprobe => "kprobe"
    case Kretprobe => "kretprobe"
  }

  /** `ProgramKind::from_section`. */
  function FromSection(section: string): (r: Result<ProgramKind>)
    ensures r == Ok(Kprobe) <==> section == "kprobe"
    ensures r == Ok(Kretprobe) <==> section == "kretprobe"
    ensures r.Err? ==> r.error == Section(section)
  {
    match section
    case "kretprobe" => Ok(Kretprobe)
    case "kprobe" => Ok(Kprobe)
    case _ => Err(Section(section))
  }

  /** The prefix of each kind maps back to that kind. */
  lemma FromSectionPrefix(kind: ProgramKind)
    ensures FromSection(SectionPrefix(kind)) == Ok(kind)
  {
  }

  /** The error that `parse_fail("section name")` builds. */
  const MISSING_SECTION_NAME: string := "Failed to parse: section name"

  /**
   * The naming part of `Program::new`: the text before the first '/' is the
   * kind, the rest (further '/' included) is the program name. A name without
   * '/' is a parse error, whatever its prefix.
   */
  function SplitSectionName(section: string): Result<(ProgramKind, string)>
  {
    var (kind, name) := SplitOnce(section, '/');
    if name.None? then Err(Parse(MISSING_SECTION_NAME))
    else match FromSection(kind)
      case Ok(k) => Ok((k, name.value))
      case Err(e) => Err(e)
  }

  /**
   * What the split promises: no '/' is a parse error; a known prefix before
   * the first '/' gives that kind and the rest as the name; an unknown one is
   * a `Section` error naming the prefix.
   */
  lemma SplitSectionNameCases(section: string)
    ensures '/' !in section ==> SplitSectionName(section) == Err(Parse(MISSING_SECTION_NAME))
    ensures SplitSectionName(section).Ok? ==>
      section == SectionPrefix(SplitSectionName(section).value.0) + "/" + SplitSectionName(section).value.1
    ensures SplitSectionName(section).Err? && '/' in section ==>
      exists prefix, name :: section == prefix + "/" + name && '/' !in prefix
        && SplitSectionName(section).error == Section(prefix)
  {
  }

  /** Every `<kind>/<name>` section splits back into that kind and name. */
  lemma SplitSectionNameOf(kind: ProgramKind, name: string)
    ensures SplitSectionName(SectionPrefix(kind) + "/" + name) == Ok((kind, name))
  {
    SplitOnceAt(SectionPrefix(kind), name, '/');
    assert SectionPrefix(kind) + "/" + name == SectionPrefix(kind) + ['/'] + name;
  }

  // ---------------------------------------------------------------------
  // Kernel release and version

  /** The value of a `version` section that asks for the running kernel's version. */
  const KERNEL_VERSION_ANY: u32 := 0xFFFF_FFFE

  /** `x << k` on u32: bits shifted past bit 31 are lost. */
  function Shl32(x: u32, k: nat): u32
  {
    (x * Pow2(k)) % 0x1_0000_0000
  }

  /** `major << 16 | minor << 8 | patch` on u32, the kernel's `KERNEL_VERSION` packing. */
  function VersionCode(major: u32, minor: u32, patch: u32): u32
  {
    Pow2Values();
    BitOrBound(Shl32(major, 16), Shl32(minor, 8), 32);
    BitOrBound(BitOr(Shl32(major, 16), Shl32(minor, 8)), patch, 32);
    BitOr(BitOr(Shl32(major, 16), Shl32(minor, 8)), patch)
  }

  /** Within the ranges of real releases the code is the base-256 number major.minor.patch. */
  lemma VersionCodeValue(major: u32, minor: u32, patch: u32)
    requires major < 0x1_0000 && minor < 0x100 && patch < 0x100
    ensures VersionCode(major, minor, patch) == major * 0x1_0000 + minor * 0x100 + patch
  {
    var upper := major * 0x100 + minor;
    UpperFieldsValue(major, minor);
    Pow2Values();
    BitOrDisjoint(upper, patch, 8);
    assert VersionCode(major, minor, patch) == BitOr(upper * Pow2(8), patch);
    assert upper * Pow2(8) == upper * 0x100 == major * 0x1_0000 + minor * 0x100;
  }

  /** `major << 16 | minor << 8` is major.minor in base 256, shifted by one byte. */
  lemma UpperFieldsValue(major: u32, minor: u32)
    requires major < 0x1_0000 && minor < 0x100
    ensures BitOr(Shl32(major, 16), Shl32(minor, 8)) == (major * 0x100 + minor) * Pow2(8)
  {
    Pow2Values();
    var middle := minor * 0x100;
    Shl32Exact(major, 16, major * 0x1_0000);
    Shl32Exact(minor, 8, middle);
    BitOrDisjoint(major, middle, 16);
  }

  /** A shift that loses no bit multiplies. */
  lemma Shl32Exact(x: u32, k: nat, v: nat)
    requires v == x * Pow2(k) && v < 0x1_0000_0000
    ensures Shl32(x, k) == v
  {
  }

  /** Lexicographic order on release triples. */
  predicate ReleaseBefore(a: (u32, u32, u32), b: (u32, u32, u32)) {
    a.0 < b.0 || (a.0 == b.0 && (a.1 < b.1 || (a.1 == b.1 && a.2 < b.2)))
  }

  predicate InPackingRange(r: (u32, u32, u32)) {
    r.0 < 0x1_0000 && r.1 < 0x100 && r.2 < 0x100
  }

  /** The code orders releases as the kernel does, and tells different releases apart. */
  lemma VersionCodeOrdered(a: (u32, u32, u32), b: (u32, u32, u32))
    requires InPackingRange(a) && InPackingRange(b)
    ensures ReleaseBefore(a, b) <==> VersionCode(a.0, a.1, a.2) < VersionCode(b.0, b.1, b.2)
    ensures a == b <==> VersionCode(a.0, a.1, a.2) == VersionCode(b.0, b.1, b.2)
  {
    VersionCodeValue(a.0, a.1, a.2);
    VersionCodeValue(b.0, b.1, b.2);
  }

  /** Outside those ranges fields overlap: 0.256.0 and 1.0.0 get the same code. */
  lemma VersionCodeOverlap()
    ensures VersionCode(0, 256, 0) == VersionCode(1, 0, 0) == 0x1_0000
  {
    Pow2Values();
    assert Shl32(0, 16) == 0 && Shl32(256, 8) == 0x1_0000;
    assert BitOr(0, 0x1_0000) == 0x1_0000 && BitOr(0x1_0000, 0) == 0x1_0000;
    assert VersionCode(0, 256, 0) == 0x1_0000;
    assert Shl32(1, 16) == 0x1_0000 && Shl32(0, 8) == 0;
    assert VersionCode(1, 0, 0) == 0x1_0000;
  }

  /**
   * The release fields of `get_kernel_version`: the text before the first
   * '-', split into at most three '.'-fields; the third keeps any further dots.
   */
  function ReleaseFields(release: string): (r: Option<(string, string, string)>)
    ensures r.Some? ==> SplitOnce(release, '-').0 == r.value.0 + "." + r.value.1 + "." + r.value.2
    ensures r.Some? ==> '.' !in r.value.0 && '.' !in r.value.1
  {
    var package := SplitOnce(release, '-').0;
    var (major, rest) := SplitOnce(package, '.');
    if rest.None? then None
    else
      var (minor, patch) := SplitOnce(rest.value, '.');
      if patch.None? then None
      else Some((major, minor, patch.value))
  }

  /** The string-parsing part of `get_kernel_version`; `uname` supplies `release`. */
  function KernelVersion(release: string): (r: Result<u32>)
    ensures r.Err? ==> r.error == KernelRelease(release)
    ensures r.Ok? <==> (ReleaseFields(release).Some? &&
      var (ma, mi, pa) := ReleaseFields(release).value;
      ParseU32(ma).Some? && ParseU32(mi).Some? && ParseU32(pa).Some?)
    ensures r.Ok? ==>
      var (ma, mi, pa) := ReleaseFields(release).value;
      r.value == VersionCode(ParseU32(ma).value, ParseU32(mi).value, ParseU32(pa).value)
  {
    match ReleaseFields(release)
    case None => Err(KernelRelease(release))
    case Some((ma, mi, pa)) =>
      match (ParseU32(ma), ParseU32(mi), ParseU32(pa))
      case (Some(major), Some(minor), Some(patch)) => Ok(VersionCode(major, minor, patch))
      case _ => Err(KernelRelease(release))
  }

  /** Fewer than two dots before the first '-' is always an error. */
  lemma KernelVersionNeedsThreeFields(release: string)
    requires CountChar(SplitOnce(release, '-').0, '.') < 2
    ensures KernelVersion(release) == Err(KernelRelease(release))
  {
    if ReleaseFields(release).Some? {
      var (ma, mi, pa) := ReleaseFields(release).value;
      var dot := ".";
      assert CountChar(dot, '.') == 1;
      var first := ma + dot;
      var second := first + mi + dot;
      CountCharSplit(ma, dot, '.');
      CountCharSplit(first, mi, '.');
      CountCharSplit(first + mi, dot, '.');
      CountCharSplit(second, pa, '.');
      assert false;
    }
  }

  /** A dot in the third field (as in 4.19.0.1) makes the release unparsable. */
  lemma KernelVersionFourFields(w: string, x: string, y: string, z: string)
    requires AllDigits(w) && AllDigits(x) && AllDigits(y) && AllDigits(z)
    ensures KernelVersion(w + "." + x + "." + y + "." + z).Err?
  {
    var release := w + "." + x + "." + y + "." + z;
    var third := y + "." + z;
    assert release == w + "." + x + "." + third;
    DigitsHaveNoSeparator(w);
    DigitsHaveNoSeparator(x);
    DigitsHaveNoSeparator(y);
    DigitsHaveNoSeparator(z);
    assert '-' !in third;
    ReleaseFieldsOf(w, x, third, []);
    assert release + [] == release;
    ParseU32RejectsNonDigit(third, |y|);
  }

  /** The fields of `x.y.z` followed by nothing or by a '-' and a suffix. */
  lemma ReleaseFieldsOf(x: string, y: string, z: string, rest: string)
    requires '.' !in x && '.' !in y
    requires '-' !in x && '-' !in y && '-' !in z
    requires rest == [] || rest[0] == '-'
    ensures ReleaseFields(x + "." + y + "." + z + rest) == Some((x, y, z))
  {
    var package := x + "." + y + "." + z;
    assert '-' !in package;
    if rest == [] {
      assert package + rest == package;
    } else {
      SplitOnceAt(package, rest[1..], '-');
      assert package + rest == package + ['-'] + rest[1..];
    }
    SplitOnceAt(x, y + "." + z, '.');
    assert package == x + ['.'] + (y + "." + z);
    SplitOnceAt(y, z, '.');
    assert y + "." + z == y + ['.'] + z;
  }

  /**
   * Round trip: a release `major.minor.patch-suffix` written with Rust's
   * decimal formatting parses to the code of that triple, whatever the suffix.
   */
  lemma KernelVersionOfRelease(major: u32, minor: u32, patch: u32, suffix: string)
    ensures KernelVersion(Decimal(major) + "." + Decimal(minor) + "." + Decimal(patch) + "-" + suffix)
            == Ok(VersionCode(major, minor, patch))
  {
    NoSeparatorInDecimal(major);
    NoSeparatorInDecimal(minor);
    NoSeparatorInDecimal(patch);
    ReleaseFieldsOf(Decimal(major), Decimal(minor), Decimal(patch), "-" + suffix);
    assert Decimal(major) + "." + Decimal(minor) + "." + Decimal(patch) + "-" + suffix
        == Decimal(major) + "." + Decimal(minor) + "." + Decimal(patch) + ("-" + suffix);
    ParseU32Decimal(major);
    ParseU32Decimal(minor);
    ParseU32Decimal(patch);
  }

  /** The zero::read::<u32> of a section: the first four bytes, little-endian. */
  function ReadU32(bytes: seq<u8>): (v: u32)
    requires |bytes| >= 4
    ensures v == bytes[0] as int + 0x100 * bytes[1] as int + 0x1_0000 * bytes[2] as int + 0x100_0000 * bytes[3] as int
  {
    assert bytes[..4] == [bytes[0], bytes[1], bytes[2], bytes[3]];
    LittleEndian4(bytes[0], bytes[1], bytes[2], bytes[3]);
    LittleEndian(bytes[..4])
  }

  /**
   * `get_version`: the stored value, except that the sentinel 0xFFFFFFFE is
   * replaced by the running kernel's version. `running` is what
   * `get_kernel_version` returns: `KernelVersion` of the release `uname`
   * reports. Its `unwrap()` panics on an error, hence the precondition.
   */
  function GetVersion(bytes: seq<u8>, running: Result<u32>): (v: u32)
    requires |bytes| >= 4
    requires ReadU32(bytes) == KERNEL_VERSION_ANY ==> running.Ok?
    ensures ReadU32(bytes) != KERNEL_VERSION_ANY ==> v == ReadU32(bytes)
    ensures ReadU32(bytes) == KERNEL_VERSION_ANY ==> v == running.value
  {
    var version := ReadU32(bytes);
    if version == KERNEL_VERSION_ANY then running.value else version
  }

  /**
   * A version section holding the sentinel takes the packed version of a
   * `major.minor.patch-suffix` release.
   */
  lemma GetVersionOfRunningKernel(bytes: seq<u8>, major: u32, minor: u32, patch: u32, suffix: string)
    requires |bytes| >= 4 && bytes[..4] == [0xFE, 0xFF, 0xFF, 0xFF]
    ensures var release := Decimal(major) + "." + Decimal(minor) + "." + Decimal(patch) + "-" + suffix;
      KernelVersion(release).Ok? && GetVersion(bytes, KernelVersion(release)) == VersionCode(major, minor, patch)
  {
    assert bytes[0] == 0xFE && bytes[1] == 0xFF && bytes[2] == 0xFF && bytes[3] == 0xFF;
    KernelVersionOfRelease(major, minor, patch, suffix);
  }

  // ---------------------------------------------------------------------
  // Instructions

  type nibble = x: int | 0 <= x < 16

  /** `struct bpf_insn`: opcode, two 4-bit registers, offset and immediate. */
  datatype Insn = Insn(code: u8, dstReg: nibble, srcReg: nibble, off: i16, imm: i32)

  /** `sizeof(struct bpf_insn)`. */
  const INSN_SIZE: nat := 8

  /** `BPF_PSEUDO_MAP_FD`: the immediate of a load is a map file descriptor. */
  const BPF_PSEUDO_MAP_FD: nibble := 1

  /** Two's-complement reading of a 16-bit and a 32-bit value. */
  function Signed16(v: u16): i16
  {
    if v >= 0x8000 then v - 0x1_0000 else v
  }

  function Signed32(v: u32): i32
  {
    if v >= 0x8000_0000 then v - 0x1_0000_0000 else v
  }

  /** The in-memory layout of one instruction on a little-endian host. */
  function DecodeInsn(b: seq<u8>): Insn
    requires |b| == INSN_SIZE
  {
    Insn(b[0], b[1] % 16, b[1] / 16,
         Signed16(LittleEndian(b[2..4])),
         Signed32(LittleEndian(b[4..8])))
  }

  function EncodeInsn(insn: Insn): (b: seq<u8>)
    ensures |b| == INSN_SIZE
  {
    var off := if insn.off < 0 then insn.off + 0x1_0000 else insn.off;
    var imm := if insn.imm < 0 then insn.imm + 0x1_0000_0000 else insn.imm;
    var imm1 := imm / 0x100;
    var imm2 := imm1 / 0x100;
    [insn.code, insn.dstReg + 16 * insn.srcReg,
     off % 0x100, off / 0x100,
     imm % 0x100, imm1 % 0x100, imm2 % 0x100, imm2 / 0x100]
  }

  /** Decoding undoes encoding. */
  lemma DecodeEncodeInsn(insn: Insn)
    ensures DecodeInsn(EncodeInsn(insn)) == insn
  {
    var b := EncodeInsn(insn);
    assert b[2..4] == [b[2], b[3]] && b[4..8] == [b[4], b[5], b[6], b[7]];
    LittleEndian2(b[2], b[3]);
    LittleEndian4(b[4], b[5], b[6], b[7]);
    var imm := if insn.imm < 0 then insn.imm + 0x1_0000_0000 else insn.imm;
    var imm1 := imm / 0x100;
    var imm2 := imm1 / 0x100;
    assert imm == imm % 0x100 + 0x100 * imm1;
    assert imm1 == imm1 % 0x100 + 0x100 * imm2;
    assert imm2 == imm2 % 0x100 + 0x100 * (imm2 / 0x100);
    assert LittleEndian(b[4..8]) == imm;
  }

  /** `zero::read_array::<bpf_insn>`: the byte length must be a whole number of instructions. */
  function DecodeInsns(bytes: seq<u8>): (r: seq<Insn>)
    requires |bytes| % INSN_SIZE == 0
    ensures |r| == |bytes| / INSN_SIZE
  {
    seq(|bytes| / 8, k requires 0 <= k < |bytes| / 8 => DecodeInsn(bytes[8 * k..8 * k + 8]))
  }

  /** What a map relocation does to an instruction: the source register marks a map fd, the immediate holds it. */
  function PatchMapFd(insn: Insn, fd: i32): (r: Insn)
    ensures r.srcReg == BPF_PSEUDO_MAP_FD && r.imm == fd
    ensures r.code == insn.code && r.dstReg == insn.dstReg && r.off == insn.off
  {
    insn.(srcReg := BPF_PSEUDO_MAP_FD, imm := fd)
  }

  // ---------------------------------------------------------------------
  // Programs

  /** The arguments `Program::load` hands to `bpf_prog_load`. */
  datatype ProgLoadArgs = ProgLoadArgs(progType: nat, name: string, code: seq<Insn>, license: string, kernelVersion: u32)

  /** The arguments `Program::attach` hands to `bpf_attach_kprobe`. */
  datatype AttachArgs = AttachArgs(progFd: int, attachType: nat, evName: string, fnName: string)

  class Program {
    var pfd: Option<int>
    var fd: Option<int>
    /** Set by `Program::new` and never changed afterwards. */
    const kind: ProgramKind
    const name: string
    var code: seq<Insn>

    /** The struct `Program::new` builds once the name has been split: neither loaded nor attached. */
    constructor (kind: ProgramKind, name: string, code: seq<Insn>)
      ensures this.kind == kind && this.name == name && this.code == code
      ensures fd == None && pfd == None
      ensures !IsLoaded() && !IsAttached()
    {
      this.pfd := None;
      this.fd := None;
      this.kind := kind;
      this.name := name;
      this.code := code;
    }

    predicate IsLoaded()
      reads this
    {
      fd.Some?
    }

    predicate IsAttached()
      reads this
    {
      pfd.Some?
    }

    /**
     * `Program::load`. `bpfProgLoad` is the kernel's answer to the syscall.
     * A license or name holding a NUL byte cannot become a C string; a
     * negative answer is `BPF` and leaves the program as it was.
     */
    method Load(kernelVersion: u32, license: string, bpfProgLoad: ProgLoadArgs -> int) returns (r: Result<int>)
      modifies this`fd
      ensures '\0' in license || '\0' in name ==> r == Err(StringConversion) && fd == old(fd)
      ensures '\0' !in license && '\0' !in name ==>
        var res := bpfProgLoad(ProgLoadArgs(ToProgType(kind), name, code, license, kernelVersion));
        (res < 0 ==> r == Err(BPF) && fd == old(fd)) &&
        (res >= 0 ==> r == Ok(res) && fd == Some(res) && IsLoaded())
    {
      if '\0' in license || '\0' in name {
        return Err(StringConversion);
      }
      var res := bpfProgLoad(ProgLoadArgs(ToProgType(kind), name, code, license, kernelVersion));
      if res < 0 {
        r := Err(BPF);
      } else {
        fd := Some(res);
        r := Ok(res);
      }
    }

    /**
     * `Program::attach`: attaches the loaded program to the kernel function
     * it is named after. `fd.unwrap()` and the C-string conversion panic on
     * an unloaded program or a name with a NUL byte, hence the preconditions.
     */
    method Attach(bpfAttachKprobe: AttachArgs -> int) returns (r: Result<int>)
      requires IsLoaded() && '\0' !in name
      modifies this`pfd
      ensures var res := bpfAttachKprobe(AttachArgs(fd.value, ToAttachType(kind), name, name));
        (res < 0 ==> r == Err(BPF) && pfd == old(pfd)) &&
        (res >= 0 ==> r == Ok(res) && pfd == Some(res) && IsAttached())
    {
      var res := bpfAttachKprobe(AttachArgs(fd.value, ToAttachType(kind), name, name));
      if res < 0 {
        r := Err(BPF);
      } else {
        pfd := Some(res);
        r := Ok(res);
      }
    }
  }

  /**
   * `Program::new`: decodes the code, then splits the section name. A
   * byte length that is not a whole number of instructions makes
   * `zero::read_array` panic, hence the precondition.
   */
  method NewProgram(section: string, content: seq<u8>) returns (r: Result<Program>)
    requires |content| % INSN_SIZE == 0
    ensures r.Err? ==> SplitSectionName(section).Err? && r.error == SplitSectionName(section).error
    ensures r.Ok? ==> SplitSectionName(section).Ok? && fresh(r.value)
    ensures r.Ok? ==> var (kind, name) := SplitSectionName(section).value;
      r.value.kind == kind && r.value.name == name && r.value.code == DecodeInsns(content)
      && r.value.fd == None && r.value.pfd == None
  {
    var code := DecodeInsns(content);
    match SplitSectionName(section)
    case Err(e) => r := Err(e);
    case Ok((kind, name)) =>
      var p := new Program(kind, name, code);
      r := Ok(p);
  }

  // ---------------------------------------------------------------------
  // Maps and relocations

  datatype Map = Map(name: string, kind: u32, fd: i32)

  /** A relocation entry of an ELF relocation section. */
  datatype ElfReloc = ElfReloc(sym: nat, offset: u64)

  /** An ELF symbol: only the index of the section it lives in matters here. */
  datatype Sym = Sym(shndx: nat)

  /** A relocation to apply: the program section it patches, the symbol and the byte offset. */
  datatype Rel = Rel(shndx: nat, target: nat, offset: u64, sym: nat)

  /** The relocations listed for section `shndx`: the first entry with that index. */
  function FindRelocs(shdrRelocs: seq<(nat, seq<ElfReloc>)>, shndx: nat): (r: Option<seq<ElfReloc>>)
    ensures r.None? <==> forall i :: 0 <= i < |shdrRelocs| ==> shdrRelocs[i].0 != shndx
    ensures r.Some? ==> exists i :: (0 <= i < |shdrRelocs| && shdrRelocs[i] == (shndx, r.value)
      && forall j :: 0 <= j < i ==> shdrRelocs[j].0 != shndx)
  {
    if shdrRelocs == [] then None
    else if shdrRelocs[0].0 == shndx then Some(shdrRelocs[0].1)
    else
      var r := FindRelocs(shdrRelocs[1..], shndx);
      assert r.Some? ==> exists i :: (0 <= i < |shdrRelocs| - 1 && shdrRelocs[1..][i] == (shndx, r.value)
        && forall j :: 0 <= j < i ==> shdrRelocs[1..][j].0 != shndx);
      r
  }

  /** The relocations a `SHT_REL` section contributes, in their order. */
  function SectionRels(shndx: nat, info: nat, relocs: seq<ElfReloc>): (r: seq<Rel>)
    ensures |r| == |relocs|
    ensures forall i :: 0 <= i < |r| ==> r[i] == Rel(shndx, info, relocs[i].offset, relocs[i].sym)
  {
    seq(|relocs|, i requires 0 <= i < |relocs| => Rel(shndx, info, relocs[i].offset, relocs[i].sym))
  }

  /**
   * `add_rel`: extends `rels` with one `Rel` per relocation of section
   * `shndx`, aimed at the section its `sh_info` names. The `unwrap` panics
   * when the section has no relocation list, hence the precondition.
   */
  function AddRel(rels: seq<Rel>, shndx: nat, info: nat, shdrRelocs: seq<(nat, seq<ElfReloc>)>): (r: seq<Rel>)
    requires FindRelocs(shdrRelocs, shndx).Some?
    ensures var relocs := FindRelocs(shdrRelocs, shndx).value;
      |r| == |rels| + |relocs| && r[..|rels|] == rels &&
      forall i :: 0 <= i < |relocs| ==>
        r[|rels| + i] == Rel(shndx, info, relocs[i].offset, relocs[i].sym)
  {
    rels + SectionRels(shndx, info, FindRelocs(shdrRelocs, shndx).value)
  }

  /** The instruction a relocation patches. */
  function InsnIndex(rel: Rel): nat
  {
    rel.offset / INSN_SIZE
  }

  /** A relocation fails when its target is not a program or its symbol's section is not a map. */
  predicate RelResolves(rel: Rel, programs: set<nat>, maps: map<nat, Map>, symtab: seq<Sym>)
  {
    rel.target in programs && rel.sym < |symtab| && symtab[rel.sym].shndx in maps
  }

  /**
   * `Rel::apply`: patches instruction `offset / 8` of the target program with
   * the fd of the map its symbol lives in; nothing else changes. The target
   * program is looked up first, so a missing program fails without reading
   * the symbol table. Indexing the symbol table or the code out of range
   * panics, hence the preconditions.
   */
  method Apply(rel: Rel, programs: map<nat, Program>, maps: map<nat, Map>, symtab: seq<Sym>) returns (r: Result<()>)
    requires Distinct(programs)
    requires rel.target in programs ==> rel.sym < |symtab|
    requires RelResolves(rel, programs.Keys, maps, symtab) ==> InsnIndex(rel) < |programs[rel.target].code|
    modifies if rel.target in programs then {programs[rel.target]} else {}
    ensures r.Ok? <==> RelResolves(rel, programs.Keys, maps, symtab)
    ensures r.Err? ==> r.error == Reloc
    ensures forall k :: k in programs ==> programs[k].fd == old(programs[k].fd) && programs[k].pfd == old(programs[k].pfd)
    ensures forall k :: k in programs ==>
      programs[k].code == (if r.Ok? && k == rel.target
                           then PatchAt(old(programs[k].code), InsnIndex(rel), maps[symtab[rel.sym].shndx].fd)
                           else old(programs[k].code))
  {
    if rel.target !in programs {
      return Err(Reloc);
    }
    var prog := programs[rel.target];
    var mapShndx := symtab[rel.sym].shndx;
    if mapShndx !in maps {
      return Err(Reloc);
    }
    var idx := InsnIndex(rel);
    prog.code := prog.code[idx := PatchMapFd(prog.code[idx], maps[mapShndx].fd)];
    r := Ok(());
    forall k | k in programs && k != rel.target
      ensures programs[k] != prog
    {
    }
  }

  /** Different sections hold different program objects. */
  predicate Distinct(programs: map<nat, Program>) {
    forall k1, k2 :: k1 in programs && k2 in programs && k1 != k2 ==> programs[k1] != programs[k2]
  }

  /** Patches instruction `idx` when it exists. */
  function PatchAt(code: seq<Insn>, idx: nat, fd: i32): (r: seq<Insn>)
    ensures |r| == |code|
    ensures forall j :: 0 <= j < |code| && j != idx ==> r[j] == code[j]
    ensures idx < |code| ==> r[idx] == PatchMapFd(code[idx], fd)
  {
    if idx < |code| then code[idx := PatchMapFd(code[idx], fd)] else code
  }

  /** `data`: the bytes of a section; an offset or size past the end of the file panics. */
  function SectionData(bytes: seq<u8>, offset: nat, size: nat): (r: seq<u8>)
    requires offset + size <= |bytes|
    ensures |r| == size && forall i :: 0 <= i < size ==> r[i] == bytes[offset + i]
  {
    bytes[offset..offset + size]
  }
}
