/**
 * Loading and attaching a grain's programs (src/grains/grain.rs). This file
 * sees redbpf's programs with four kinds, XDP and socket filters among
 * them. Each syscall's outcome is a parameter: the descriptor it returns
 * for what the call is given (the program's kind, name, code or current
 * descriptor). `unwrap` on a failed syscall panics, so success is a
 * precondition. Log lines are returned instead of written.
 */
module Grains {
  import opened Common
  import opened Text
  import Redbpf

  datatype ProgramKind = Kprobe | Kretprobe | XDP | SocketFilter

  /** The `Debug` rendering of a kind. */
  function KindName(kind: ProgramKind): string
  {
    match kind
    case Kprobe => "Kprobe"
    case Kretprobe => "Kretprobe"
    case XDP => "XDP"
    case SocketFilter => "SocketFilter"
  }

  /** A program of the parsed module; the loader fills in `fd`, attaching fills in `pfd`. */
  class Program {
    const kind: ProgramKind
    const name: string
    const code: seq<Redbpf.Insn>
    var fd: Option<i32>
    var pfd: Option<i32>

    constructor (kind: ProgramKind, name: string, code: seq<Redbpf.Insn>)
      ensures this.kind == kind && this.name == name && this.code == code && fd.None? && pfd.None?
    {
      this.kind := kind;
      this.name := name;
      this.code := code;
      fd := None;
      pfd := None;
    }
  }

  /** A map of the parsed module; kind 4 is `BPF_MAP_TYPE_PERF_EVENT_ARRAY`. */
  datatype Map = Map(name: string, kind: u32)

  const BPF_MAP_TYPE_PERF_EVENT_ARRAY: u32 := 4

  /** An output backend, by identity. */
  datatype Backend = Backend(id: nat)

  /** A perf buffer reader: the map it reads, the CPU, the handler id and the backends it feeds. */
  datatype PerfHandler = PerfHandler(name: string, cpu: u32, callback: string, backends: seq<Backend>)

  /** A socket reader: the filter's socket, the handler id and the backends it feeds. */
  datatype SocketHandler = SocketHandler(socket: i32, callback: string, backends: seq<Backend>)

  /** The kinds each attach step works on: its `filter` closure. */
  const PROBES: set<ProgramKind> := {Kprobe, Kretprobe}
  const XDPS: set<ProgramKind> := {XDP}
  const SOCKET_FILTERS: set<ProgramKind> := {SocketFilter}

  /** The log line written before a program is attached. */
  function AttachedLine(p: Program): string
  {
    "Attached: " + p.name + ", " + KindName(p.kind)
  }

  /** The log lines of the selected programs, in program order. */
  function AttachLog(programs: seq<Program>, sel: set<ProgramKind>): (log: seq<string>)
    ensures |log| <= |programs|
  {
    if programs == [] then []
    else
      var init := AttachLog(programs[..|programs| - 1], sel);
      var p := programs[|programs| - 1];
      if p.kind in sel then init + [AttachedLine(p)] else init
  }

  lemma AttachLogStep(programs: seq<Program>, n: nat, sel: set<ProgramKind>)
    requires n < |programs|
    ensures AttachLog(programs[..n + 1], sel)
            == AttachLog(programs[..n], sel) + (if programs[n].kind in sel then [AttachedLine(programs[n])] else [])
  {
    assert programs[..n + 1][..n] == programs[..n];
  }

  /** The maps that perf handlers are bound to, in order. */
  function PerfMaps(maps: seq<Map>): (perf: seq<Map>)
    ensures |perf| <= |maps|
  {
    if maps == [] then []
    else
      var init := PerfMaps(maps[..|maps| - 1]);
      var m := maps[|maps| - 1];
      if m.kind == BPF_MAP_TYPE_PERF_EVENT_ARRAY then init + [m] else init
  }

  /** Exactly the maps of kind 4 are bound. */
  lemma {:induction false} PerfMapsMembers(maps: seq<Map>, m: Map)
    ensures m in PerfMaps(maps) <==> m in maps && m.kind == BPF_MAP_TYPE_PERF_EVENT_ARRAY
  {
    if maps != [] {
      var init := maps[..|maps| - 1];
      PerfMapsMembers(init, m);
      assert m in maps <==> m in init || m == maps[|maps| - 1];
    }
  }

  /** One handler per online CPU for one map. */
  function CpuHandlers(m: Map, cpus: seq<u32>, backends: seq<Backend>): (hs: seq<PerfHandler>)
    ensures |hs| == |cpus|
    ensures forall j :: 0 <= j < |cpus| ==> hs[j] == PerfHandler(m.name, cpus[j], m.name, backends)
  {
    seq(|cpus|, j requires 0 <= j < |cpus| => PerfHandler(m.name, cpus[j], m.name, backends))
  }

  /** What `bind_perf` returns: for each perf map in order, one handler per CPU. */
  function PerfHandlers(maps: seq<Map>, cpus: seq<u32>, backends: seq<Backend>): seq<PerfHandler>
  {
    if maps == [] then []
    else
      var m := maps[|maps| - 1];
      PerfHandlers(maps[..|maps| - 1], cpus, backends)
      + (if m.kind == BPF_MAP_TYPE_PERF_EVENT_ARRAY then CpuHandlers(m, cpus, backends) else [])
  }

  lemma MulSucc(k: nat, c: nat)
    ensures (k + 1) * c == k * c + c
  {
  }

  /** Row `i`, column `j` of a `k` by `c` grid, laid out row by row, lies inside it. */
  lemma IndexBelow(i: nat, j: nat, k: nat, c: nat)
    requires i < k && j < c
    ensures i * c + j < k * c
  {
    MulAtLeast(k - i, c);
    assert k * c == i * c + (k - i) * c;
  }

  /** There are as many handlers as perf maps times CPUs. */
  lemma {:induction false} PerfHandlersCount(maps: seq<Map>, cpus: seq<u32>, backends: seq<Backend>)
    ensures |PerfHandlers(maps, cpus, backends)| == |PerfMaps(maps)| * |cpus|
  {
    if maps != [] {
      var init := maps[..|maps| - 1];
      PerfHandlersCount(init, cpus, backends);
      var k, c := |PerfMaps(init)|, |cpus|;
      if maps[|maps| - 1].kind == BPF_MAP_TYPE_PERF_EVENT_ARRAY {
        assert |PerfMaps(maps)| == k + 1;
        assert |PerfHandlers(maps, cpus, backends)| == k * c + c;
        MulSucc(k, c);
      } else {
        assert |PerfMaps(maps)| == k;
      }
    }
  }

  /** Handlers come map-major: the `j`-th CPU of the `i`-th perf map is at `i * |cpus| + j`. */
  lemma {:induction false} PerfHandlersAt(maps: seq<Map>, cpus: seq<u32>, backends: seq<Backend>, i: nat, j: nat)
    requires i < |PerfMaps(maps)| && j < |cpus|
    ensures i * |cpus| + j < |PerfHandlers(maps, cpus, backends)|
    ensures PerfHandlers(maps, cpus, backends)[i * |cpus| + j]
               == PerfHandler(PerfMaps(maps)[i].name, cpus[j], PerfMaps(maps)[i].name, backends)
  {
    PerfHandlersCount(maps, cpus, backends);
    var init := maps[..|maps| - 1];
    var k := |PerfMaps(init)|;
    PerfHandlersCount(init, cpus, backends);
    if i < k {
      PerfHandlersAt(init, cpus, backends, i, j);
      IndexBelow(i, j, k, |cpus|);
    } else {
      assert i == k && PerfMaps(maps)[i] == maps[|maps| - 1];
    }
  }

  /** The socket handlers `attach_socketfilters` returns: one per socket filter, in program order. */
  function SocketHandlers(programs: seq<Program>, socket: string -> i32, backends: seq<Backend>): (hs: seq<SocketHandler>)
    ensures |hs| <= |programs|
  {
    if programs == [] then []
    else
      var init := SocketHandlers(programs[..|programs| - 1], socket, backends);
      var p := programs[|programs| - 1];
      if p.kind == SocketFilter then init + [SocketHandler(socket(p.name), p.name, backends)] else init
  }

  /** Exactly the socket filters get a handler, each with the descriptor its attachment returns. */
  lemma {:induction false} SocketHandlersMembers(programs: seq<Program>, socket: string -> i32, backends: seq<Backend>, h: SocketHandler)
    ensures h in SocketHandlers(programs, socket, backends) <==>
            exists i :: 0 <= i < |programs| && programs[i].kind == SocketFilter
                        && h == SocketHandler(socket(programs[i].name), programs[i].name, backends)
  {
    if programs != [] {
      var init := programs[..|programs| - 1];
      SocketHandlersMembers(init, socket, backends, h);
      if h in SocketHandlers(programs, socket, backends) && h !in SocketHandlers(init, socket, backends) {
        var i := |programs| - 1;
        assert programs[i].kind == SocketFilter && h == SocketHandler(socket(programs[i].name), programs[i].name, backends);
      }
      if exists i :: 0 <= i < |programs| && programs[i].kind == SocketFilter
                     && h == SocketHandler(socket(programs[i].name), programs[i].name, backends) {
        var i :| 0 <= i < |programs| && programs[i].kind == SocketFilter
                 && h == SocketHandler(socket(programs[i].name), programs[i].name, backends);
        if i < |programs| - 1 {
          assert init[i] == programs[i];
        }
      }
    }
  }

  /** A vector owns its programs: no program appears twice. */
  predicate Distinct(programs: seq<Program>)
  {
    forall i, j :: 0 <= i < j < |programs| ==> programs[i] != programs[j]
  }

  /** A grain owns the module its programs and maps were parsed into. */
  class Grain {
    const programs: seq<Program>
    const maps: seq<Map>
    const version: u32
    const license: string

    constructor (programs: seq<Program>, maps: seq<Map>, version: u32, license: string)
      ensures this.programs == programs && this.maps == maps
      ensures this.version == version && this.license == license
    {
      this.programs := programs;
      this.maps := maps;
      this.version := version;
      this.license := license;
    }

    /**
     * `EBPFGrain::load` after the module is parsed: loads every program with
     * the module's version and license. `progLoad` is `bpf_prog_load`'s
     * descriptor for (kind, name, code, version, license).
     */
    method Load(progLoad: (ProgramKind, string, seq<Redbpf.Insn>, u32, string) -> i32)
      requires Distinct(programs)
      requires forall i :: 0 <= i < |programs| ==>
                 progLoad(programs[i].kind, programs[i].name, programs[i].code, version, license) >= 0
      modifies programs
      ensures forall i :: 0 <= i < |programs| ==>
                programs[i].fd == Some(progLoad(programs[i].kind, programs[i].name, programs[i].code, version, license))
      ensures forall i :: 0 <= i < |programs| ==> programs[i].pfd == old(programs[i].pfd)
    {
      ghost var pfds := seq(|programs|, i requires 0 <= i < |programs| reads programs => programs[i].pfd);
      for n := 0 to |programs|
        invariant forall i :: 0 <= i < n ==>
                    programs[i].fd == Some(progLoad(programs[i].kind, programs[i].name, programs[i].code, version, license))
        invariant forall i :: 0 <= i < |programs| ==> programs[i].pfd == pfds[i]
      {
        var prog := programs[n];
        prog.fd := Some(progLoad(prog.kind, prog.name, prog.code, version, license));
      }
    }

    /**
     * Logs and attaches each selected program in order, storing the
     * descriptor `attach` gives for its kind, name and load descriptor.
     */
    method AttachSelected(sel: set<ProgramKind>, attach: (ProgramKind, string, Option<i32>) -> i32) returns (logged: seq<string>)
      requires Distinct(programs)
      requires forall i :: 0 <= i < |programs| && programs[i].kind in sel ==>
                 attach(programs[i].kind, programs[i].name, programs[i].fd) >= 0
      modifies programs
      ensures logged == AttachLog(programs, sel)
      ensures forall i :: 0 <= i < |programs| ==> programs[i].fd == old(programs[i].fd)
      ensures forall i :: 0 <= i < |programs| ==>
                programs[i].pfd == (if programs[i].kind in sel then Some(attach(programs[i].kind, programs[i].name, programs[i].fd))
                                    else old(programs[i].pfd))
    {
      ghost var fds := seq(|programs|, i requires 0 <= i < |programs| reads programs => programs[i].fd);
      ghost var pfds := seq(|programs|, i requires 0 <= i < |programs| reads programs => programs[i].pfd);
      logged := [];
      for n := 0 to |programs|
        invariant logged == AttachLog(programs[..n], sel)
        invariant forall i :: 0 <= i < |programs| ==> programs[i].fd == fds[i]
        invariant forall i :: 0 <= i < |programs| ==>
                    programs[i].pfd == (if i < n && programs[i].kind in sel then Some(attach(programs[i].kind, programs[i].name, fds[i]))
                                        else pfds[i])
      {
        var prog := programs[n];
        AttachLogStep(programs, n, sel);
        if prog.kind in sel {
          logged := logged + [AttachedLine(prog)];
          SetPfd(n, Some(attach(prog.kind, prog.name, prog.fd)));
        }
      }
      assert programs[..|programs|] == programs;
    }

    /** Stores an attachment descriptor in one program; the others are distinct objects and keep theirs. */
    method SetPfd(n: nat, pfd: Option<i32>)
      requires n < |programs| && Distinct(programs)
      modifies programs[n]
      ensures programs[n].pfd == pfd && programs[n].fd == old(programs[n].fd)
      ensures forall i :: 0 <= i < |programs| && i != n ==> programs[i].pfd == old(programs[i].pfd)
      ensures forall i :: 0 <= i < |programs| && i != n ==> programs[i].fd == old(programs[i].fd)
    {
      programs[n].pfd := pfd;
    }

    /** `bind_perf`: for each perf map, one handler per online CPU, each with the full backend list. */
    method BindPerf(backends: seq<Backend>, cpus: seq<u32>) returns (output: seq<PerfHandler>)
      ensures output == PerfHandlers(maps, cpus, backends)
    {
      output := [];
      for n := 0 to |maps|
        invariant output == PerfHandlers(maps[..n], cpus, backends)
      {
        var m := maps[n];
        assert maps[..n + 1][..n] == maps[..n];
        if m.kind == BPF_MAP_TYPE_PERF_EVENT_ARRAY {
          ghost var before := output;
          for j := 0 to |cpus|
            invariant output == before + CpuHandlers(m, cpus[..j], backends)
          {
            assert cpus[..j + 1] == cpus[..j] + [cpus[j]];
            output := output + [PerfHandler(m.name, cpus[j], m.name, backends)];
          }
          assert cpus[..|cpus|] == cpus;
        }
      }
      assert maps[..|maps|] == maps;
    }

    /** `attach_kprobes`: attaches exactly the kprobes and kretprobes, then binds the perf maps. */
    method AttachKprobes(backends: seq<Backend>, cpus: seq<u32>, attachProbe: (ProgramKind, string, Option<i32>) -> i32)
      returns (handlers: seq<PerfHandler>, logged: seq<string>)
      requires Distinct(programs)
      requires forall i :: 0 <= i < |programs| && programs[i].kind in PROBES ==>
                 attachProbe(programs[i].kind, programs[i].name, programs[i].fd) >= 0
      modifies programs
      ensures handlers == PerfHandlers(maps, cpus, backends) && logged == AttachLog(programs, PROBES)
      ensures forall i :: 0 <= i < |programs| ==> programs[i].fd == old(programs[i].fd)
      ensures forall i :: 0 <= i < |programs| ==>
                programs[i].pfd == (if programs[i].kind in PROBES then Some(attachProbe(programs[i].kind, programs[i].name, programs[i].fd))
                                    else old(programs[i].pfd))
    {
      logged := AttachSelected(PROBES, attachProbe);
      handlers := BindPerf(backends, cpus);
    }

    /** `attach_xdps`: attaches exactly the XDP programs to the interface, then binds the perf maps. */
    method AttachXdps(iface: string, backends: seq<Backend>, cpus: seq<u32>, attachXdp: (string, string, Option<i32>) -> i32)
      returns (handlers: seq<PerfHandler>, logged: seq<string>)
      requires Distinct(programs)
      requires forall i :: 0 <= i < |programs| && programs[i].kind in XDPS ==>
                 attachXdp(iface, programs[i].name, programs[i].fd) >= 0
      modifies programs
      ensures handlers == PerfHandlers(maps, cpus, backends) && logged == AttachLog(programs, XDPS)
      ensures forall i :: 0 <= i < |programs| ==> programs[i].fd == old(programs[i].fd)
      ensures forall i :: 0 <= i < |programs| ==>
                programs[i].pfd == (if programs[i].kind in XDPS then Some(attachXdp(iface, programs[i].name, programs[i].fd))
                                    else old(programs[i].pfd))
    {
      logged := AttachSelected(XDPS, (kind, name, fd) => attachXdp(iface, name, fd));
      handlers := BindPerf(backends, cpus);
    }

    /**
     * `attach_socketfilters`: one socket handler per socket filter, in
     * program order, with the descriptor the attachment returns.
     */
    method AttachSocketfilters(iface: string, backends: seq<Backend>, attachSocket: (string, string) -> i32)
      returns (handlers: seq<SocketHandler>, logged: seq<string>)
      requires forall i :: 0 <= i < |programs| && programs[i].kind == SocketFilter ==>
                 attachSocket(iface, programs[i].name) >= 0
      ensures handlers == SocketHandlers(programs, name => attachSocket(iface, name), backends)
      ensures logged == AttachLog(programs, SOCKET_FILTERS)
    {
      handlers := [];
      logged := [];
      for n := 0 to |programs|
        invariant handlers == SocketHandlers(programs[..n], name => attachSocket(iface, name), backends)
        invariant logged == AttachLog(programs[..n], SOCKET_FILTERS)
      {
        var prog := programs[n];
        assert programs[..n + 1][..n] == programs[..n];
        AttachLogStep(programs, n, SOCKET_FILTERS);
        if prog.kind == SocketFilter {
          logged := logged + [AttachedLine(prog)];
          var fd := attachSocket(iface, prog.name);
          handlers := handlers + [SocketHandler(fd, prog.name, backends)];
        }
      }
      assert programs[..|programs|] == programs;
    }
  }
}
