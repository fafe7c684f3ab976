/** The record switch of perf_mmap_read and the loop around it, as functions. */
module RecordDecoder {
  import opened Bytes
  import opened Layout
  import opened Decoder
  import opened Records

  /** The record types that the switch has a case for. */
  predicate HandledType(typ: u32) {
    typ in {1, 2, 3, 4, 5, 6, 7, 9, 10, 11, 12, 13, 14, 15}
  }

  /** Trailer words that the decoder reads after a body. The three string records
      take the trailer for a part of the string. */
  function TrailerRead(b: Body): nat {
    if b.Aux? || b.LostSamples? || b.Switch? || b.SwitchCpuWide? then 1 else 0
  }

  predicate AbsorbsTrailer(b: Body) { b.Comm? || b.Mmap? || b.Mmap2? }

  /** The decoder's idea of where the record ends agrees with the kernel's. */
  predicate TrailerFits(r: Record) {
    AbsorbsTrailer(r.body) || |r.sampleId| == TrailerRead(r.body)
  }

  function GetPair(d: seq<byte>, off: nat): Result<(u32, u32)> {
    var a :- GetU32(d, off);
    var b :- GetU32(d, off + 4);
    Ok((a, b))
  }

  function GetThree(d: seq<byte>, off: nat): Result<(u64, u64, u64)> {
    var a :- GetU64(d, off);
    var b :- GetU64(d, off + 8);
    var c :- GetU64(d, off + 16);
    Ok((a, b, c))
  }

  function GetMapping(d: seq<byte>, off: nat): Result<Mapping> {
    var (pid, tid) :- GetPair(d, off);
    var (addr, len, pgoff) :- GetThree(d, off + 8);
    Ok(Mapping(pid, tid, addr, len, pgoff))
  }

  function GetInode(d: seq<byte>, off: nat): Result<Inode> {
    var (maj, min) :- GetPair(d, off);
    var ino :- GetU64(d, off + 8);
    var generation :- GetU64(d, off + 16);
    var (prot, flags) :- GetPair(d, off + 24);
    Ok(Inode(maj, min, ino, generation, prot, flags))
  }

  function GetTask(d: seq<byte>, off: nat): Result<Task> {
    var (pid, ppid) :- GetPair(d, off);
    var (tid, ptid) :- GetPair(d, off + 8);
    var time :- GetU64(d, off + 16);
    Ok(Task(pid, ppid, tid, ptid, time))
  }

  /** The body of a record whose header, ending at `off`, declares `typ` and `size`,
      and the cursor after it. */
  function DecodeBody(cfg: Config, typ: u32, size: u16, d: seq<byte>, off: nat): Result<(Body, nat)>
    requires HandledType(typ)
  {
    match typ
    case 1 =>
      var m :- GetMapping(d, off);
      var filename :- GetBytes(d, off + 32, size - 40);
      Ok((Mmap(m, filename), off + 32 + |filename|))
    case 2 =>
      var id :- GetU64(d, off);
      var lost :- GetU64(d, off + 8);
      Ok((Lost(id, lost), off + 16))
    case 3 =>
      var (pid, tid) :- GetPair(d, off);
      var comm :- GetBytes(d, off + 8, size - 16);
      Ok((Comm(pid, tid, comm), off + 8 + |comm|))
    case 4 =>
      var t :- GetTask(d, off);
      Ok((Exit(t), off + 24))
    case 5 =>
      var (time, id, stream) :- GetThree(d, off);
      Ok((Throttle(time, id, stream), off + 24))
    case 6 =>
      var (time, id, stream) :- GetThree(d, off);
      Ok((Unthrottle(time, id, stream), off + 24))
    case 7 =>
      var t :- GetTask(d, off);
      Ok((Fork(t), off + 24))
    case 9 =>
      var (fields, o) :- DecodeSample(cfg, d, off);
      Ok((Sample(fields), o))
    case 10 =>
      var m :- GetMapping(d, off);
      var i :- GetInode(d, off + 32);
      var filename :- GetBytes(d, off + 64, size - 72);
      Ok((Mmap2(m, i, filename), off + 64 + |filename|))
    case 11 =>
      var (offset, auxSize, flags) :- GetThree(d, off);
      Ok((Aux(offset, auxSize, flags), off + 24))
    case 12 =>
      var (pid, tid) :- GetPair(d, off);
      Ok((ItraceStart(pid, tid), off + 8))
    case 13 =>
      var lost :- GetU64(d, off);
      Ok((LostSamples(lost), off + 8))
    case 14 =>
      Ok((Switch, off))
    case _ =>
      var (pid, tid) :- GetPair(d, off);
      Ok((SwitchCpuWide(pid, tid), off + 8))
  }

  /** One turn of the loop: a record and the cursor after it. A type without a case
      of its own moves the cursor to the end of the batch. */
  function DecodeRecord(cfg: Config, d: seq<byte>, off: nat, limit: nat): Result<(Record, nat)> {
    var typ :- GetU32(d, off);
    var misc :- GetU16(d, off + 4);
    var size :- GetU16(d, off + 6);
    if !HandledType(typ) then
      Ok((Record(misc, size, Other(typ, []), []), limit))
    else
      var (body, o) :- DecodeBody(cfg, typ, size, d, off + 8);
      var sampleId :- GetWords(d, o, TrailerRead(body));
      Ok((Record(misc, size, body, sampleId), o + 8 * |sampleId|))
  }
}
