/** Records of the perf_event stream: header, body and `struct sample_id` trailer,
    as include/perf_event.h lays them out. */
module Records {
  import opened Bytes
  import opened Layout

  datatype Mapping = Mapping(pid: u32, tid: u32, addr: u64, len: u64, pgoff: u64)

  datatype Inode = Inode(maj: u32, min: u32, ino: u64, generation: u64, prot: u32, flags: u32)

  datatype Task = Task(pid: u32, ppid: u32, tid: u32, ptid: u32, time: u64)

  datatype Body =
    | Mmap(mapping: Mapping, filename: seq<byte>)
    | Lost(id: u64, lost: u64)
    | Comm(pid: u32, tid: u32, comm: seq<byte>)
    | Exit(task: Task)
    | Throttle(time: u64, throttleId: u64, streamId: u64)
    | Unthrottle(time: u64, throttleId: u64, streamId: u64)
    | Fork(task: Task)
    | Sample(fields: seq<Field>)
    | Mmap2(mapping: Mapping, inode: Inode, filename: seq<byte>)
    | Aux(auxOffset: u64, auxSize: u64, auxFlags: u64)
    | ItraceStart(pid: u32, tid: u32)
    | LostSamples(lost: u64)
    | Switch
    | SwitchCpuWide(pid: u32, tid: u32)
    | Other(typ: u32, payload: seq<byte>)

  /** `size` is the declared size; `sampleId` the words of the trailer. */
  datatype Record = Record(misc: u16, size: u16, body: Body, sampleId: seq<u64>)

  function TypeOf(b: Body): u32 {
    match b
    case Mmap(_, _) => 1
    case Lost(_, _) => 2
    case Comm(_, _, _) => 3
    case Exit(_) => 4
    case Throttle(_, _, _) => 5
    case Unthrottle(_, _, _) => 6
    case Fork(_) => 7
    case Sample(_) => 9
    case Mmap2(_, _, _) => 10
    case Aux(_, _, _) => 11
    case ItraceStart(_, _) => 12
    case LostSamples(_) => 13
    case Switch => 14
    case SwitchCpuWide(_, _) => 15
    case Other(typ, _) => typ
  }

  /** The record types that have a constructor above. READ, NAMESPACES and types yet to be
      defined are kept as their bytes. */
  predicate BodyType(typ: u32) {
    1 <= typ <= 15 && typ != 8
  }

  function EncodePair(a: u32, b: u32): (e: seq<byte>)
    ensures |e| == 8
  {
    U32(a) + U32(b)
  }

  function EncodeThree(a: u64, b: u64, c: u64): (e: seq<byte>)
    ensures |e| == 24
  {
    U64(a) + U64(b) + U64(c)
  }

  function EncodeMapping(m: Mapping): (e: seq<byte>)
    ensures |e| == 32
  {
    EncodePair(m.pid, m.tid) + EncodeThree(m.addr, m.len, m.pgoff)
  }

  function EncodeInode(i: Inode): (e: seq<byte>)
    ensures |e| == 32
  {
    EncodePair(i.maj, i.min) + U64(i.ino) + U64(i.generation) + EncodePair(i.prot, i.flags)
  }

  function EncodeTask(t: Task): (e: seq<byte>)
    ensures |e| == 24
  {
    EncodePair(t.pid, t.ppid) + EncodePair(t.tid, t.ptid) + U64(t.time)
  }

  function EncodeBody(b: Body): seq<byte> {
    match b
    case Mmap(m, filename) => EncodeMapping(m) + filename
    case Lost(id, lost) => U64(id) + U64(lost)
    case Comm(pid, tid, comm) => EncodePair(pid, tid) + comm
    case Exit(t) => EncodeTask(t)
    case Throttle(time, id, stream) => EncodeThree(time, id, stream)
    case Unthrottle(time, id, stream) => EncodeThree(time, id, stream)
    case Fork(t) => EncodeTask(t)
    case Sample(fields) => EncodeFields(fields)
    case Mmap2(m, i, filename) => EncodeMapping(m) + EncodeInode(i) + filename
    case Aux(offset, size, flags) => EncodeThree(offset, size, flags)
    case ItraceStart(pid, tid) => EncodePair(pid, tid)
    case LostSamples(lost) => U64(lost)
    case Switch => []
    case SwitchCpuWide(pid, tid) => EncodePair(pid, tid)
    case Other(_, payload) => payload
  }

  function EncodeHeader(typ: u32, misc: u16, size: u16): (e: seq<byte>)
    ensures |e| == 8
  {
    U32(typ) + U16(misc) + U16(size)
  }

  function Encode(r: Record): (e: seq<byte>)
    ensures |e| >= 8
  {
    EncodeHeader(TypeOf(r.body), r.misc, r.size) + EncodeBody(r.body) + EncodeWords(r.sampleId)
  }

  function EncodeAll(rs: seq<Record>): seq<byte> {
    if rs == [] then [] else Encode(rs[0]) + EncodeAll(rs[1..])
  }

  lemma {:induction false} EncodeAllAppend(a: seq<Record>, b: seq<Record>)
    ensures EncodeAll(a + b) == EncodeAll(a) + EncodeAll(b)
  {
    hide Encode;
    if a == [] {
      assert a + b == b;
    } else {
      assert (a + b)[0] == a[0] && (a + b)[1..] == a[1..] + b;
      EncodeAllAppend(a[1..], b);
    }
  }

  // ---- What the kernel may write ----

  /** Words of `struct sample_id` at the end of every non-sample record. */
  function TrailerWords(cfg: Config): nat {
    if !cfg.sampleIdAll then 0
    else
      |Wanted(cfg, TID)| + |Wanted(cfg, TIME)| + |Wanted(cfg, ID)| +
      |Wanted(cfg, STREAM_ID)| + |Wanted(cfg, CPU)| + |Wanted(cfg, IDENTIFIER)|
  }

  /** The declared size is the true one, and a sample ends with its fields. */
  predicate WellFormed(r: Record) {
    && r.size == |Encode(r)|
    && (r.body.Sample? ==> r.sampleId == [])
    && (r.body.Other? ==> !BodyType(r.body.typ))
  }

  /** A record of the layout in the header file. */
  ghost predicate HeaderRecord(cfg: Config, r: Record) {
    && WellFormed(r)
    && (if r.body.Sample? then HeaderSample(cfg, r.body.fields) else |r.sampleId| == TrailerWords(cfg))
  }
}
