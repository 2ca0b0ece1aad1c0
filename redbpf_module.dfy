/**
 * `Module::parse` of redbpf/src/lib.rs: one pass over the ELF sections that
 * routes each by type and name (relocations, license, version, maps,
 * programs), then one pass that applies the relocations to the programs.
 * Goblin's ELF decoding is not part of this model: the section headers, the
 * relocation lists and the symbol table come in as an `Elf` value, and the
 * kernel (its version and `bpf_create_map`) as a `Kernel` value.
 */
module RedbpfModule {
  import opened Common
  import opened Text
  import opened Redbpf

  const SHT_PROGBITS: nat := 1
  const SHT_REL: nat := 9

  /** A section header with its name already looked up in the section-name table. */
  datatype SectionHeader = SectionHeader(name: string, shType: nat, offset: nat, size: nat, info: nat)

  /** What goblin provides: the section headers, each relocation section's list, and the symbols. */
  datatype Elf = Elf(sections: seq<SectionHeader>, shdrRelocs: seq<(nat, seq<ElfReloc>)>, symtab: seq<Sym>)

  /** `struct bpf_map_def`. */
  datatype MapDef = MapDef(kind: u32, keySize: u32, valueSize: u32, maxEntries: u32, mapFlags: u32)

  /**
   * The running kernel as the loader sees it: what `get_kernel_version`
   * returns for it and its answer to `bpf_create_map`.
   */
  datatype Kernel = Kernel(version: Result<u32>, bpfCreateMap: (MapDef, string) -> i32)

  /** `zero::read::<bpf_map_def>`: five little-endian u32 fields. */
  function ReadMapDef(bytes: seq<u8>): MapDef
    requires |bytes| >= 20
  {
    MapDef(ReadU32(bytes), ReadU32(bytes[4..]), ReadU32(bytes[8..]), ReadU32(bytes[12..]), ReadU32(bytes[16..]))
  }

  /** `zero::read_str`: the bytes before the first NUL, one character per byte. */
  function ReadStr(bytes: seq<u8>): (s: string)
    ensures |s| <= |bytes| && '\0' !in s
    ensures forall i :: 0 <= i < |s| ==> s[i] as int == bytes[i]
    ensures |s| < |bytes| ==> bytes[|s|] == 0
  {
    if bytes == [] || bytes[0] == 0 then "" else [bytes[0] as char] + ReadStr(bytes[1..])
  }

  /**
   * `Map::load`: reads the map definition, then asks the kernel for the map.
   * A negative answer is `BPF`.
   */
  function LoadMap(name: string, content: seq<u8>, kernel: Kernel): (r: Result<Map>)
    requires |content| >= 20
    ensures '\0' in name ==> r == Err(StringConversion)
    ensures '\0' !in name ==>
      var fd := kernel.bpfCreateMap(ReadMapDef(content), name);
      (fd < 0 ==> r == Err(BPF)) && (fd >= 0 ==> r == Ok(Map(name, ReadMapDef(content).kind, fd)))
  {
    if '\0' in name then Err(StringConversion)
    else
      var config := ReadMapDef(content);
      var fd := kernel.bpfCreateMap(config, name);
      if fd < 0 then Err(BPF) else Ok(Map(name, config.kind, fd))
  }

  // ---------------------------------------------------------------------
  // Routing one section

  datatype Route = Relocations | License | Version | Maps | Program | Ignored

  /** The `match (kind, name)` of `Module::parse`. */
  function RouteOf(sh: SectionHeader): Route
  {
    if sh.shType == SHT_REL then Relocations
    else if sh.shType != SHT_PROGBITS then Ignored
    else if sh.name == "license" then License
    else if sh.name == "version" then Version
    else if sh.name == "maps" then Maps
    else Program
  }

  /**
   * Relocation sections are routed by type alone, the three named data
   * sections and programs come from the PROGBITS sections, and every other
   * section is ignored.
   */
  lemma RouteOfCases(sh: SectionHeader)
    ensures RouteOf(sh) == Relocations <==> sh.shType == SHT_REL
    ensures RouteOf(sh) == Ignored <==> sh.shType != SHT_REL && sh.shType != SHT_PROGBITS
    ensures RouteOf(sh) == License <==> sh.shType == SHT_PROGBITS && sh.name == "license"
    ensures RouteOf(sh) == Version <==> sh.shType == SHT_PROGBITS && sh.name == "version"
    ensures RouteOf(sh) == Maps <==> sh.shType == SHT_PROGBITS && sh.name == "maps"
    ensures RouteOf(sh) == Program <==>
      sh.shType == SHT_PROGBITS && sh.name != "license" && sh.name != "version" && sh.name != "maps"
  {
  }

  predicate InFile(bytes: seq<u8>, sh: SectionHeader) {
    sh.offset + sh.size <= |bytes|
  }

  /** The bytes of a section; only asked for sections that lie in the file. */
  function Content(bytes: seq<u8>, sh: SectionHeader): seq<u8>
  {
    if InFile(bytes, sh) then SectionData(bytes, sh.offset, sh.size) else []
  }

  /**
   * Section `k` can be handled without a panic: its bytes are in the file,
   * a relocation section has a relocation list, a version section holds a
   * u32 (and the running kernel has a version when it asks for it), a
   * maps section holds a map definition and a program section a whole
   * number of instructions.
   */
  predicate SectionReady(bytes: seq<u8>, elf: Elf, kernel: Kernel, k: nat)
  {
    k < |elf.sections| && InFile(bytes, elf.sections[k]) &&
    var content := Content(bytes, elf.sections[k]);
    match RouteOf(elf.sections[k])
    case Relocations => FindRelocs(elf.shdrRelocs, k).Some?
    case Version => |content| >= 4 && (ReadU32(content) == KERNEL_VERSION_ANY ==> kernel.version.Ok?)
    case Maps => |content| >= 20
    case Program => |content| % INSN_SIZE == 0
    case _ => true
  }

  /** The error section `k` makes `Module::parse` return, if any. */
  function SectionError(bytes: seq<u8>, elf: Elf, kernel: Kernel, k: nat): Option<LoadError>
  {
    if k >= |elf.sections| then None
    else
      var sh := elf.sections[k];
      var content := Content(bytes, sh);
      match RouteOf(sh)
      case Maps =>
        if |content| >= 20 && LoadMap(sh.name, content, kernel).Err?
        then Some(LoadMap(sh.name, content, kernel).error) else None
      case Program =>
        if SplitSectionName(sh.name).Err? then Some(SplitSectionName(sh.name).error) else None
      case _ => None
  }

  /** The error of each section, in section order. */
  function SectionErrors(bytes: seq<u8>, elf: Elf, kernel: Kernel): (errs: seq<Option<LoadError>>)
    ensures |errs| == |elf.sections|
    ensures forall k :: 0 <= k < |errs| ==> errs[k] == SectionError(bytes, elf, kernel, k)
  {
    seq(|elf.sections|, k requires 0 <= k < |elf.sections| => SectionError(bytes, elf, kernel, k))
  }

  /** The first error among the first `n` of `errs`. */
  function FirstErrorOf(errs: seq<Option<LoadError>>, n: nat): (r: Option<LoadError>)
    requires n <= |errs|
    ensures r.Some? ==> exists k :: 0 <= k < n && errs[k] == r
  {
    if n == 0 then None
    else if FirstErrorOf(errs, n - 1).Some? then FirstErrorOf(errs, n - 1)
    else errs[n - 1]
  }

  /** The first error among the sections before `n`. */
  function FirstError(bytes: seq<u8>, elf: Elf, kernel: Kernel, n: nat): Option<LoadError>
    requires n <= |elf.sections|
  {
    FirstErrorOf(SectionErrors(bytes, elf, kernel), n)
  }

  /** Once an entry has failed, later entries do not change the error. */
  lemma {:induction false} FirstErrorStays(errs: seq<Option<LoadError>>, n: nat, m: nat)
    requires n <= m <= |errs| && FirstErrorOf(errs, n).Some?
    ensures FirstErrorOf(errs, m) == FirstErrorOf(errs, n)
  {
    if n < m {
      FirstErrorStays(errs, n, m - 1);
    }
  }

  /** With no error among the first `n`, none of them failed. */
  lemma {:induction false} FirstErrorNone(errs: seq<Option<LoadError>>, n: nat, k: nat)
    requires n <= |errs| && FirstErrorOf(errs, n).None? && k < n
    ensures errs[k].None?
  {
    if k < n - 1 {
      FirstErrorNone(errs, n - 1, k);
    }
  }

  /**
   * `Module::parse` does not panic in its first loop: every section the
   * loop reaches, which is every section with no error before it, is ready.
   */
  predicate PanicFreeSections(bytes: seq<u8>, elf: Elf, kernel: Kernel) {
    forall n :: 0 <= n < |elf.sections| && FirstError(bytes, elf, kernel, n).None? ==> SectionReady(bytes, elf, kernel, n)
  }

  // ---------------------------------------------------------------------
  // What the first pass collects

  function RelsUpTo(bytes: seq<u8>, elf: Elf, n: nat): seq<Rel>
    requires n <= |elf.sections|
  {
    if n == 0 then []
    else
      var rels := RelsUpTo(bytes, elf, n - 1);
      var sh := elf.sections[n - 1];
      if RouteOf(sh) == Relocations && FindRelocs(elf.shdrRelocs, n - 1).Some?
      then AddRel(rels, n - 1, sh.info, elf.shdrRelocs) else rels
  }

  /** Each license section is inserted at the front of the license collected so far. */
  function LicenseUpTo(bytes: seq<u8>, elf: Elf, n: nat): string
    requires n <= |elf.sections|
  {
    if n == 0 then ""
    else
      var license := LicenseUpTo(bytes, elf, n - 1);
      var sh := elf.sections[n - 1];
      if RouteOf(sh) == License then ReadStr(Content(bytes, sh)) + license else license
  }

  /** The last version section wins; without one the version is 0. */
  function VersionUpTo(bytes: seq<u8>, elf: Elf, kernel: Kernel, n: nat): u32
    requires n <= |elf.sections|
  {
    if n == 0 then 0
    else
      var sh := elf.sections[n - 1];
      var content := Content(bytes, sh);
      if RouteOf(sh) == Version && |content| >= 4 && (ReadU32(content) == KERNEL_VERSION_ANY ==> kernel.version.Ok?)
      then GetVersion(content, kernel.version)
      else VersionUpTo(bytes, elf, kernel, n - 1)
  }

  function MapsUpTo(bytes: seq<u8>, elf: Elf, kernel: Kernel, n: nat): map<nat, Map>
    requires n <= |elf.sections|
  {
    if n == 0 then map[]
    else
      var maps := MapsUpTo(bytes, elf, kernel, n - 1);
      var sh := elf.sections[n - 1];
      var content := Content(bytes, sh);
      if RouteOf(sh) == Maps && |content| >= 20 && LoadMap(sh.name, content, kernel).Ok?
      then maps[n - 1 := LoadMap(sh.name, content, kernel).value]
      else maps
  }

  function ProgramSections(elf: Elf, n: nat): set<nat>
    requires n <= |elf.sections|
  {
    set k | 0 <= k < n && RouteOf(elf.sections[k]) == Program
  }

  /** The instructions of program section `k`; empty when there is no such section. */
  function SectionCode(bytes: seq<u8>, elf: Elf, k: nat): seq<Insn>
  {
    if k < |elf.sections| && |Content(bytes, elf.sections[k])| % INSN_SIZE == 0
    then DecodeInsns(Content(bytes, elf.sections[k]))
    else []
  }

  /**
   * `p` is the unloaded program that `Program::new` makes of program section
   * `k`: its kind and name come from the section name.
   */
  predicate FromSection(p: Program, elf: Elf, k: nat)
    reads p
  {
    k < |elf.sections| && RouteOf(elf.sections[k]) == Program
    && SplitSectionName(elf.sections[k].name) == Ok((p.kind, p.name))
    && p.fd == None && p.pfd == None
  }

  /** The same, before relocation: the code is the section's instructions. */
  predicate IsProgramOf(p: Program, bytes: seq<u8>, elf: Elf, k: nat)
    reads p
  {
    FromSection(p, elf, k) && p.code == SectionCode(bytes, elf, k)
  }

  datatype Sections = Sections(rels: seq<Rel>, programs: map<nat, Program>, maps: map<nat, Map>, license: string, version: u32)

  /**
   * `s` holds what the sections before `n` describe: their relocations,
   * license, version and maps, and one distinct unloaded program per
   * program section.
   */
  predicate Collected(s: Sections, bytes: seq<u8>, elf: Elf, kernel: Kernel, n: nat)
    requires n <= |elf.sections|
    reads s.programs.Values
  {
    && s.rels == RelsUpTo(bytes, elf, n)
    && s.license == LicenseUpTo(bytes, elf, n)
    && s.version == VersionUpTo(bytes, elf, kernel, n)
    && s.maps == MapsUpTo(bytes, elf, kernel, n)
    && s.programs.Keys == ProgramSections(elf, n)
    && Distinct(s.programs)
    && ProgramsOf(s.programs, bytes, elf)
  }

  /** Every program is the one `Program::new` makes of the section it is keyed by. */
  predicate ProgramsOf(programs: map<nat, Program>, bytes: seq<u8>, elf: Elf)
    reads programs.Values
  {
    forall k :: k in programs ==> IsProgramOf(programs[k], bytes, elf, k)
  }

  /**
   * One iteration of the first loop of `Module::parse`: section `k` is
   * routed by its type and name. A map the kernel refuses or a badly named
   * program section is the error of section `k`; otherwise `k` joins what
   * has been collected, and only a program section adds a (fresh) object.
   */
  method RouteSection(bytes: seq<u8>, elf: Elf, kernel: Kernel, k: nat, acc: Sections) returns (r: Result<Sections>)
    requires SectionReady(bytes, elf, kernel, k) && FirstError(bytes, elf, kernel, k).None?
    requires Collected(acc, bytes, elf, kernel, k)
    ensures r.Err? ==> FirstError(bytes, elf, kernel, k + 1) == Some(r.error)
    ensures r.Ok? ==> FirstError(bytes, elf, kernel, k + 1).None? && Collected(r.value, bytes, elf, kernel, k + 1)
    ensures r.Ok? ==> forall j :: j in r.value.programs ==>
      (j in acc.programs && r.value.programs[j] == acc.programs[j]) || fresh(r.value.programs[j])
  {
    var sh := elf.sections[k];
    var content := SectionData(bytes, sh.offset, sh.size);
    match RouteOf(sh) {
      case Program =>
        r := RouteProgram(bytes, elf, kernel, k, acc);
      case Maps =>
        var m := LoadMap(sh.name, content, kernel);
        if m.Err? {
          return Err(m.error);
        }
        r := Ok(RouteData(bytes, elf, kernel, k, acc));
      case _ =>
        r := Ok(RouteData(bytes, elf, kernel, k, acc));
    }
  }

  /** A program section: `Program::new` on the section's name and bytes. */
  method RouteProgram(bytes: seq<u8>, elf: Elf, kernel: Kernel, k: nat, acc: Sections) returns (r: Result<Sections>)
    requires k < |elf.sections| && RouteOf(elf.sections[k]) == Program
    requires InFile(bytes, elf.sections[k]) && |Content(bytes, elf.sections[k])| % INSN_SIZE == 0
    requires Collected(acc, bytes, elf, kernel, k)
    ensures r.Err? ==> SplitSectionName(elf.sections[k].name) == Err(r.error)
    ensures r.Ok? ==> SplitSectionName(elf.sections[k].name).Ok? && Collected(r.value, bytes, elf, kernel, k + 1)
    ensures r.Ok? ==> forall j :: j in r.value.programs ==>
      (j in acc.programs && r.value.programs[j] == acc.programs[j]) || fresh(r.value.programs[j])
  {
    var sh := elf.sections[k];
    var p := NewProgram(sh.name, SectionData(bytes, sh.offset, sh.size));
    if p.Err? {
      return Err(p.error);
    }
    CollectProgram(acc, p.value, bytes, elf, kernel, k);
    r := Ok(acc.(programs := acc.programs[k := p.value]));
  }

  /** Keying a new program object by its program section extends what sections up to `k` describe to `k + 1`. */
  lemma CollectProgram(acc: Sections, p: Program, bytes: seq<u8>, elf: Elf, kernel: Kernel, k: nat)
    requires k < |elf.sections| && RouteOf(elf.sections[k]) == Program
    requires Collected(acc, bytes, elf, kernel, k)
    requires p !in acc.programs.Values && IsProgramOf(p, bytes, elf, k)
    ensures Collected(acc.(programs := acc.programs[k := p]), bytes, elf, kernel, k + 1)
  {
    ProgramStep(bytes, elf, kernel, k);
    AddProgram(acc.programs, p, bytes, elf, k);
  }

  /** Adding a new program object for section `k` keeps the programs distinct and each made from its section. */
  lemma AddProgram(programs: map<nat, Program>, p: Program, bytes: seq<u8>, elf: Elf, k: nat)
    requires Distinct(programs) && p !in programs.Values && k !in programs
    requires ProgramsOf(programs, bytes, elf) && IsProgramOf(p, bytes, elf, k)
    ensures Distinct(programs[k := p]) && ProgramsOf(programs[k := p], bytes, elf)
  {
    forall j | j in programs
      ensures programs[j] != p
    {
      assert programs[j] in programs.Values;
    }
  }

  /** A program section adds its program and leaves everything else the sections describe as it was. */
  lemma ProgramStep(bytes: seq<u8>, elf: Elf, kernel: Kernel, k: nat)
    requires k < |elf.sections| && RouteOf(elf.sections[k]) == Program
    ensures RelsUpTo(bytes, elf, k + 1) == RelsUpTo(bytes, elf, k)
    ensures LicenseUpTo(bytes, elf, k + 1) == LicenseUpTo(bytes, elf, k)
    ensures VersionUpTo(bytes, elf, kernel, k + 1) == VersionUpTo(bytes, elf, kernel, k)
    ensures MapsUpTo(bytes, elf, kernel, k + 1) == MapsUpTo(bytes, elf, kernel, k)
    ensures ProgramSections(elf, k + 1) == ProgramSections(elf, k) + {k}
  {
    ProgramSectionsStep(elf, k);
  }

  /** Section `k` joins the program sections exactly when it is routed as a program. */
  lemma ProgramSectionsStep(elf: Elf, k: nat)
    requires k < |elf.sections|
    ensures RouteOf(elf.sections[k]) == Program ==> ProgramSections(elf, k + 1) == ProgramSections(elf, k) + {k}
    ensures RouteOf(elf.sections[k]) != Program ==> ProgramSections(elf, k + 1) == ProgramSections(elf, k)
  {
  }

  /**
   * Any other section that does not fail: relocations are gathered, a
   * license is put in front of the license so far, a version replaces the
   * version so far, a created map is kept, and other section types are
   * skipped.
   */
  function RouteData(bytes: seq<u8>, elf: Elf, kernel: Kernel, k: nat, acc: Sections): (r: Sections)
    requires SectionReady(bytes, elf, kernel, k) && SectionError(bytes, elf, kernel, k).None?
    requires RouteOf(elf.sections[k]) != Program
    requires Collected(acc, bytes, elf, kernel, k)
    reads acc.programs.Values
    ensures r.programs == acc.programs
    ensures Collected(r, bytes, elf, kernel, k + 1)
  {
    ProgramSectionsStep(elf, k);
    var sh := elf.sections[k];
    var content := SectionData(bytes, sh.offset, sh.size);
    match RouteOf(sh)
    case Relocations => acc.(rels := AddRel(acc.rels, k, sh.info, elf.shdrRelocs))
    case License => acc.(license := ReadStr(content) + acc.license)
    case Version => acc.(version := GetVersion(content, kernel.version))
    case Maps => acc.(maps := acc.maps[k := LoadMap(sh.name, content, kernel).value])
    case Ignored => acc
  }

  /**
   * The first loop of `Module::parse`: routes every section. The first map
   * the kernel refuses or the first badly named program section stops the
   * parse with its error; otherwise the relocations, license, version, maps
   * and fresh, unloaded programs are those the sections describe.
   */
  method RouteSections(bytes: seq<u8>, elf: Elf, kernel: Kernel) returns (r: Result<Sections>)
    requires PanicFreeSections(bytes, elf, kernel)
    ensures r.Err? <==> FirstError(bytes, elf, kernel, |elf.sections|).Some?
    ensures r.Err? ==> r.error == FirstError(bytes, elf, kernel, |elf.sections|).value
    ensures r.Ok? ==> Collected(r.value, bytes, elf, kernel, |elf.sections|)
    ensures r.Ok? ==> forall k :: k in r.value.programs ==> fresh(r.value.programs[k])
  {
    var s := Sections([], map[], map[], "", 0);
    var shndx := 0;
    while shndx < |elf.sections|
      invariant shndx <= |elf.sections|
      invariant FirstError(bytes, elf, kernel, shndx).None?
      invariant Collected(s, bytes, elf, kernel, shndx)
      invariant forall k :: k in s.programs ==> fresh(s.programs[k])
    {
      var next := RouteSection(bytes, elf, kernel, shndx, s);
      if next.Err? {
        FirstErrorStays(SectionErrors(bytes, elf, kernel), shndx + 1, |elf.sections|);
        return Err(next.error);
      }
      s := next.value;
      shndx := shndx + 1;
    }
    r := Ok(s);
  }

  // ---------------------------------------------------------------------
  // The relocation pass

  /** The code of program section `k` after the first `n` relocations. */
  function RelocatedUpTo(code: seq<Insn>, k: nat, rels: seq<Rel>, n: nat, programs: set<nat>, maps: map<nat, Map>, symtab: seq<Sym>): (r: seq<Insn>)
    requires n <= |rels|
    ensures |r| == |code|
  {
    if n == 0 then code
    else
      var c := RelocatedUpTo(code, k, rels, n - 1, programs, maps, symtab);
      var rel := rels[n - 1];
      if rel.target == k && RelResolves(rel, programs, maps, symtab)
      then PatchAt(c, InsnIndex(rel), maps[symtab[rel.sym].shndx].fd)
      else c
  }

  /** The index of the first relocation that does not resolve, or the number of relocations. */
  function FirstUnresolved(rels: seq<Rel>, programs: set<nat>, maps: map<nat, Map>, symtab: seq<Sym>): (n: nat)
    ensures n <= |rels|
    ensures forall j :: 0 <= j < n ==> RelResolves(rels[j], programs, maps, symtab)
    ensures n < |rels| ==> !RelResolves(rels[n], programs, maps, symtab)
  {
    if rels == [] then 0
    else if !RelResolves(rels[0], programs, maps, symtab) then 0
    else 1 + FirstUnresolved(rels[1..], programs, maps, symtab)
  }

  /**
   * Applying relocation `rel` does not panic: a relocation aimed at a program
   * names a symbol in the table, and one that resolves names an instruction
   * of that program. `codeLen` gives each program's number of instructions.
   */
  predicate RelSafe(rel: Rel, codeLen: map<nat, nat>, maps: map<nat, Map>, symtab: seq<Sym>) {
    rel.target in codeLen ==>
      rel.sym < |symtab| && (symtab[rel.sym].shndx in maps ==> InsnIndex(rel) < codeLen[rel.target])
  }

  /** The relocations up to and including the first that fails are safe to apply. */
  predicate RelsPanicFree(rels: seq<Rel>, codeLen: map<nat, nat>, maps: map<nat, Map>, symtab: seq<Sym>) {
    var n := FirstUnresolved(rels, codeLen.Keys, maps, symtab);
    forall j :: 0 <= j < |rels| && j <= n ==> RelSafe(rels[j], codeLen, maps, symtab)
  }

  /** The number of instructions of each program. */
  function CodeLengths(codes: map<nat, seq<Insn>>): (lens: map<nat, nat>)
    ensures lens.Keys == codes.Keys
    ensures forall k :: k in codes ==> lens[k] == |codes[k]|
  {
    map k | k in codes :: |codes[k]|
  }

  /**
   * The second loop of `Module::parse`: applies every relocation in order
   * and stops at the first that fails, with `Reloc`. On success each
   * program's code is its old code with every relocation aimed at it
   * applied, and nothing else about the programs changes.
   */
  method ApplyRelocations(rels: seq<Rel>, programs: map<nat, Program>, maps: map<nat, Map>, symtab: seq<Sym>) returns (r: Result<()>)
    requires Distinct(programs)
    requires RelsPanicFree(rels, CodeLengths(Codes(programs)), maps, symtab)
    modifies programs.Values
    ensures r.Ok? <==> FirstUnresolved(rels, programs.Keys, maps, symtab) == |rels|
    ensures r.Err? ==> r.error == Reloc
    ensures forall k :: k in programs ==> programs[k].fd == old(programs[k].fd) && programs[k].pfd == old(programs[k].pfd)
    ensures r.Ok? ==> forall k :: k in programs ==>
      programs[k].code == RelocatedUpTo(old(programs[k].code), k, rels, |rels|, programs.Keys, maps, symtab)
  {
    ghost var codes := Codes(programs);
    ghost var fds := Descriptors(programs);
    var i := 0;
    while i < |rels|
      invariant i <= |rels| && i <= FirstUnresolved(rels, programs.Keys, maps, symtab)
      invariant KeepsDescriptors(programs, fds)
      invariant RelocatedAll(programs, codes, rels, i, maps, symtab)
    {
      assert RelSafe(rels[i], CodeLengths(codes), maps, symtab);
      r := ApplyNext(rels, i, programs, maps, symtab, codes, fds);
      if r.Err? {
        return;
      }
      i := i + 1;
    }
    r := Ok(());
  }

  /** The descriptors of every program are those in `fds`. */
  predicate KeepsDescriptors(programs: map<nat, Program>, fds: map<nat, (Option<int>, Option<int>)>)
    reads programs.Values
  {
    forall k :: k in programs ==> k in fds && (programs[k].fd, programs[k].pfd) == fds[k]
  }

  /**
   * One iteration of the relocation loop: relocation `i` either fails, and
   * is then the first that does not resolve, or is applied, and the first
   * `i + 1` relocations have been applied to every program.
   */
  method ApplyNext(rels: seq<Rel>, i: nat, programs: map<nat, Program>, maps: map<nat, Map>, symtab: seq<Sym>,
                   ghost codes: map<nat, seq<Insn>>, ghost fds: map<nat, (Option<int>, Option<int>)>) returns (r: Result<()>)
    requires i < |rels| && i <= FirstUnresolved(rels, programs.Keys, maps, symtab)
    requires Distinct(programs)
    requires RelocatedAll(programs, codes, rels, i, maps, symtab)
    requires RelSafe(rels[i], CodeLengths(codes), maps, symtab)
    requires KeepsDescriptors(programs, fds)
    modifies programs.Values
    ensures r.Err? ==> r.error == Reloc && FirstUnresolved(rels, programs.Keys, maps, symtab) == i
    ensures r.Ok? ==> i + 1 <= FirstUnresolved(rels, programs.Keys, maps, symtab)
    ensures r.Ok? ==> RelocatedAll(programs, codes, rels, i + 1, maps, symtab)
    ensures KeepsDescriptors(programs, fds)
  {
    var rel := rels[i];
    r := Apply(rel, programs, maps, symtab);
    if r.Ok? {
      ResolvedStep(rels, programs.Keys, maps, symtab, i);
    }
  }

  /** A relocation that resolves, right after the resolved ones, extends them. */
  lemma ResolvedStep(rels: seq<Rel>, programs: set<nat>, maps: map<nat, Map>, symtab: seq<Sym>, i: nat)
    requires i < |rels| && i <= FirstUnresolved(rels, programs, maps, symtab) && RelResolves(rels[i], programs, maps, symtab)
    ensures i + 1 <= FirstUnresolved(rels, programs, maps, symtab)
  {
  }

  /** The descriptors of each program, which relocation leaves alone. */
  function Descriptors(programs: map<nat, Program>): (fds: map<nat, (Option<int>, Option<int>)>)
    reads programs.Values
    ensures fds.Keys == programs.Keys
    ensures forall k :: k in programs ==> fds[k] == (programs[k].fd, programs[k].pfd)
  {
    map k | k in programs :: (programs[k].fd, programs[k].pfd)
  }

  /** The code of each program. */
  function Codes(programs: map<nat, Program>): (codes: map<nat, seq<Insn>>)
    reads programs.Values
    ensures codes.Keys == programs.Keys
    ensures forall k :: k in programs ==> codes[k] == programs[k].code
  {
    map k | k in programs :: programs[k].code
  }

  /** Every program's code is its code in `codes` after the first `n` relocations. */
  predicate RelocatedAll(programs: map<nat, Program>, codes: map<nat, seq<Insn>>, rels: seq<Rel>, n: nat, maps: map<nat, Map>, symtab: seq<Sym>)
    requires n <= |rels|
    reads programs.Values
  {
    codes.Keys == programs.Keys &&
    forall k :: k in programs ==> programs[k].code == RelocatedUpTo(codes[k], k, rels, n, programs.Keys, maps, symtab)
  }

  // ---------------------------------------------------------------------
  // The whole parse

  /** The loaded object file; the programs and maps keep the index of the section they came from. */
  datatype Module = Module(bytes: seq<u8>, programs: map<nat, Program>, maps: map<nat, Map>, license: string, version: u32)

  /** The number of instructions of each program section. */
  function SectionCodeLengths(bytes: seq<u8>, elf: Elf): map<nat, nat>
  {
    map k | k in ProgramSections(elf, |elf.sections|) :: |SectionCode(bytes, elf, k)|
  }

  /** The programs collected from all sections have the section code lengths. */
  lemma CollectedLengths(programs: map<nat, Program>, bytes: seq<u8>, elf: Elf)
    requires programs.Keys == ProgramSections(elf, |elf.sections|)
    requires forall k :: k in programs ==> programs[k].code == SectionCode(bytes, elf, k)
    ensures CodeLengths(Codes(programs)) == SectionCodeLengths(bytes, elf)
  {
    var lens := CodeLengths(Codes(programs));
    var expected := SectionCodeLengths(bytes, elf);
    assert lens.Keys == expected.Keys;
  }

  /**
   * `Module::parse`: the first section that fails gives the error; then the
   * first relocation that does not resolve gives `Reloc`. Otherwise the
   * module holds the license, version and maps of its sections and one
   * fresh, unloaded program per program section, whose code has every
   * relocation aimed at it applied.
   */
  method Parse(bytes: seq<u8>, elf: Elf, kernel: Kernel) returns (r: Result<Module>)
    requires PanicFreeSections(bytes, elf, kernel)
    requires FirstError(bytes, elf, kernel, |elf.sections|).None? ==>
      RelsPanicFree(RelsUpTo(bytes, elf, |elf.sections|), SectionCodeLengths(bytes, elf),
                    MapsUpTo(bytes, elf, kernel, |elf.sections|), elf.symtab)
    ensures FirstError(bytes, elf, kernel, |elf.sections|).Some? ==>
      r == Err(FirstError(bytes, elf, kernel, |elf.sections|).value)
    ensures FirstError(bytes, elf, kernel, |elf.sections|).None? ==>
      var rels := RelsUpTo(bytes, elf, |elf.sections|);
      var unresolved := FirstUnresolved(rels, ProgramSections(elf, |elf.sections|), MapsUpTo(bytes, elf, kernel, |elf.sections|), elf.symtab);
      (r.Err? <==> unresolved < |rels|) && (r.Err? ==> r.error == Reloc)
    ensures r.Ok? ==> var n := |elf.sections|;
      var m := r.value;
      var rels := RelsUpTo(bytes, elf, n);
      && m.bytes == bytes
      && m.license == LicenseUpTo(bytes, elf, n)
      && m.version == VersionUpTo(bytes, elf, kernel, n)
      && m.maps == MapsUpTo(bytes, elf, kernel, n)
      && m.programs.Keys == ProgramSections(elf, n)
      && forall k :: k in m.programs ==>
        var p := m.programs[k];
        fresh(p) && FromSection(p, elf, k)
        && p.code == RelocatedUpTo(SectionCode(bytes, elf, k), k, rels, |rels|, m.programs.Keys, m.maps, elf.symtab)
  {
    var sections := RouteSections(bytes, elf, kernel);
    if sections.Err? {
      return Err(sections.error);
    }
    var s := sections.value;
    CollectedLengths(s.programs, bytes, elf);
    var applied := ApplyRelocations(s.rels, s.programs, s.maps, elf.symtab);
    if applied.Err? {
      return Err(applied.error);
    }
    r := Ok(Module(bytes, s.programs, s.maps, s.license, s.version));
  }
}
