/**
 * The kprobe `syscall_enter` (ingraind-probes/src/syscalls/main.rs): it
 * reports the calling process's clone calls, except those of the agent's
 * own process, whose pid user space stores in the `host_pid` map under key
 * 1. The pid/tgid helper, the register read of the syscall number and the
 * command name are parameters.
 */
module SyscallsProbe {
  import opened Common

  /** `SyscallTracepoint`: the process, the syscall number and the command name. */
  datatype Tracepoint = Tracepoint(id: u64, syscallNr: u64, comm: seq<u8>)

  /** `pid_tgid >> 32`: the thread group id, which user space calls the pid. */
  function Pid(pidTgid: u64): u64
  {
    pidTgid / 0x1_0000_0000
  }

  /** `bpf_get_current_pid_tgid`: the thread group id in the upper half, the thread id in the lower. */
  function PidTgid(tgid: u32, tid: u32): u64
  {
    tgid * 0x1_0000_0000 + tid
  }

  /** The shift recovers the thread group id whatever the thread. */
  lemma PidOfPidTgid(tgid: u32, tid: u32)
    ensures Pid(PidTgid(tgid, tid)) == tgid
  {
    DivModUnique(PidTgid(tgid, tid), 0x1_0000_0000, tgid, tid);
  }

  /** The probe: its return value and the record it inserts, if any. */
  function SyscallEnter(hostPid: map<u8, u64>, pidTgid: u64, syscallNr: u64, comm: seq<u8>): (r: (i32, Option<Tracepoint>))
    ensures r.0 == 0
    ensures r.1.None? <==> 1 in hostPid && hostPid[1] == Pid(pidTgid)
    ensures r.1.Some? ==> r.1.value.id == Pid(pidTgid) && r.1.value.syscallNr == syscallNr && r.1.value.comm == comm
  {
    var ignorePid := if 1 in hostPid then Some(hostPid[1]) else None;
    if ignorePid.Some? && ignorePid.value == pidTgid / 0x1_0000_0000 then (0, None)
    else (0, Some(Tracepoint(pidTgid / 0x1_0000_0000, syscallNr, comm)))
  }

  /** Every thread of the agent's own process is suppressed, and every thread of any other is reported. */
  lemma SuppressesHostProcess(hostPid: map<u8, u64>, tgid: u32, tid: u32, syscallNr: u64, comm: seq<u8>)
    ensures SyscallEnter(hostPid, PidTgid(tgid, tid), syscallNr, comm).1.None?
            <==> 1 in hostPid && hostPid[1] == tgid
  {
    PidOfPidTgid(tgid, tid);
  }
}
