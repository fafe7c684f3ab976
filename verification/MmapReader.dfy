/** perf_mmap_read: window, unwrapping copy, record loop, clearing of the scratch array and
    publication of the tail, on the objects that the C code updates in place. */
module MmapReader {
  import opened Bytes
  import opened Layout
  import opened Decoder
  import opened Records
  import opened RecordDecoder
  import opened Batch
  import opened RingWindow
  import opened SampleReader

  /** The control page and the data area behind it. */
  class PerfPage {
    var dataHead: nat
    var dataTail: nat
    const buf: array<byte>

    constructor (size: nat)
      ensures dataHead == 0 && dataTail == 0 && fresh(buf) && buf.Length == size
    {
      dataHead, dataTail := 0, 0;
      buf := new byte[size];
    }

    ghost function State(): Ring
      reads this, buf
    {
      Ring(buf[..], dataHead, dataTail)
    }

    /** The kernel's side: a record is written where it does not overwrite unread data,
        and then published by moving the head. */
    method Publish(b: seq<byte>) returns (ok: bool)
      requires buf.Length > 0
      modifies this, buf
      ensures ok == Fits(old(State()), b)
      ensures State() == if ok then Append(old(State()), b) else old(State())
    {
      ok := dataHead + |b| <= dataTail + buf.Length;
      if ok {
        ghost var whole := Put(buf[..], dataHead, b);
        var k := 0;
        while k < |b|
          invariant 0 <= k <= |b|
          invariant dataHead == old(dataHead) && dataTail == old(dataTail)
          invariant Put(buf[..], dataHead + k, b[k..]) == whole
        {
          ghost var before := buf[..];
          buf[(dataHead + k) % buf.Length] := b[k];
          assert buf[..] == before[(dataHead + k) % |before| := b[k]];
          assert b[k..][0] == b[k] && b[k..][1..] == b[k + 1..];
          k := k + 1;
        }
        dataHead := dataHead + |b|;
      }
    }
  }

  /** The output stream. */
  class LogFile {
    var lines: seq<Record>

    constructor ()
      ensures lines == []
    {
      lines := [];
    }
  }

  // ---- the record switch ----

  method ReadU16(data: array<byte>, off: nat) returns (r: Result<u16>)
    ensures r == GetU16(data[..], off)
  {
    if off + 2 <= data.Length {
      Widths();
      assert data[..][off..off + 2] == data[off..off + 2];
      return Ok(FromLE(data[off..off + 2]));
    }
    return Fault;
  }

  method ReadPair(data: array<byte>, off: nat) returns (r: Result<(u32, u32)>)
    ensures r == GetPair(data[..], off)
  {
    hide GetU32;
    var a :- ReadU32(data, off);
    var b :- ReadU32(data, off + 4);
    return Ok((a, b));
  }

  method ReadThree(data: array<byte>, off: nat) returns (r: Result<(u64, u64, u64)>)
    ensures r == GetThree(data[..], off)
  {
    hide GetU64;
    var a :- ReadU64(data, off);
    var b :- ReadU64(data, off + 8);
    var c :- ReadU64(data, off + 16);
    return Ok((a, b, c));
  }

  method ReadMapping(data: array<byte>, off: nat) returns (r: Result<Mapping>)
    ensures r == GetMapping(data[..], off)
  {
    hide GetPair, GetThree;
    var ids :- ReadPair(data, off);
    var range :- ReadThree(data, off + 8);
    return Ok(Mapping(ids.0, ids.1, range.0, range.1, range.2));
  }

  method ReadInode(data: array<byte>, off: nat) returns (r: Result<Inode>)
    ensures r == GetInode(data[..], off)
  {
    hide GetPair, GetU64;
    var dev :- ReadPair(data, off);
    var ino :- ReadU64(data, off + 8);
    var generation :- ReadU64(data, off + 16);
    var mode :- ReadPair(data, off + 24);
    return Ok(Inode(dev.0, dev.1, ino, generation, mode.0, mode.1));
  }

  method ReadTask(data: array<byte>, off: nat) returns (r: Result<Task>)
    ensures r == GetTask(data[..], off)
  {
    hide GetPair, GetU64;
    var parent :- ReadPair(data, off);
    var thread :- ReadPair(data, off + 8);
    var time :- ReadU64(data, off + 16);
    return Ok(Task(parent.0, parent.1, thread.0, thread.1, time));
  }

  method ReadSampleId(data: array<byte>, off: nat) returns (r: Result<seq<u64>>)
    ensures r == GetWords(data[..], off, 1)
  {
    hide GetU64;
    WordStep(data[..], off, 1);
    WordStep(data[..], off + 8, 1);
    var v :- ReadU64(data, off);
    assert [v] + [] == [v];
    return Ok([v]);
  }

  /** What a case of the switch must yield: a body, its trailer, and the cursor after both. */
  function CaseOf(cfg: Config, typ: u32, size: u16, d: seq<byte>, off: nat): Result<(Body, seq<u64>, nat)>
    requires HandledType(typ)
  {
    var (body, o) :- DecodeBody(cfg, typ, size, d, off);
    var sampleId :- GetWords(d, o, TrailerRead(body));
    Ok((body, sampleId, o + 8 * |sampleId|))
  }

  lemma NoTrailer(d: seq<byte>, off: nat)
    ensures GetWords(d, off, 0) == Ok([])
  {
  }

  /** The cases that end in a string. */
  method ReadStringCase(cfg: Config, typ: u32, size: u16, data: array<byte>, start: nat)
    returns (r: Result<(Body, seq<u64>, nat)>)
    requires typ == 1 || typ == 3 || typ == 10
    ensures r == CaseOf(cfg, typ, size, data[..], start)
  {
    hide GetPair, GetMapping, GetInode, GetBytes, GetWords;
    var offset := start;
    if typ == 3 {
      var ids :- ReadPair(data, offset);
      offset := offset + 8;
      var stringSize := size - 16;
      var comm :- ReadBytes(data, offset, stringSize);
      offset := offset + |comm|;
      NoTrailer(data[..], offset);
      return Ok((Comm(ids.0, ids.1, comm), [], offset));
    } else if typ == 1 {
      var m :- ReadMapping(data, offset);
      offset := offset + 32;
      var stringSize := size - 40;
      var filename :- ReadBytes(data, offset, stringSize);
      offset := offset + |filename|;
      NoTrailer(data[..], offset);
      return Ok((Mmap(m, filename), [], offset));
    } else {
      var m :- ReadMapping(data, offset);
      offset := offset + 32;
      var i :- ReadInode(data, offset);
      offset := offset + 32;
      var stringSize := size - 72;
      var filename :- ReadBytes(data, offset, stringSize);
      offset := offset + |filename|;
      NoTrailer(data[..], offset);
      return Ok((Mmap2(m, i, filename), [], offset));
    }
  }

  /** The cases of fixed length that read no trailer. */
  method ReadPlainCase(cfg: Config, typ: u32, size: u16, data: array<byte>, start: nat)
    returns (r: Result<(Body, seq<u64>, nat)>)
    requires typ in {2, 4, 5, 6, 7, 12}
    ensures r == CaseOf(cfg, typ, size, data[..], start)
  {
    hide GetPair, GetThree, GetTask, GetU64, GetWords;
    var offset := start;
    NoTrailer(data[..], offset + 8);
    NoTrailer(data[..], offset + 16);
    NoTrailer(data[..], offset + 24);
    if typ == 2 {
      var id :- ReadU64(data, offset);
      offset := offset + 8;
      var lost :- ReadU64(data, offset);
      offset := offset + 8;
      return Ok((Lost(id, lost), [], offset));
    } else if typ == 7 {
      var t :- ReadTask(data, offset);
      return Ok((Fork(t), [], offset + 24));
    } else if typ == 4 {
      var t :- ReadTask(data, offset);
      return Ok((Exit(t), [], offset + 24));
    } else if typ == 5 || typ == 6 {
      var w :- ReadThree(data, offset);
      offset := offset + 24;
      return Ok((if typ == 5 then Throttle(w.0, w.1, w.2) else Unthrottle(w.0, w.1, w.2), [], offset));
    } else {
      var ids :- ReadPair(data, offset);
      return Ok((ItraceStart(ids.0, ids.1), [], offset + 8));
    }
  }

  /** The cases that read one word of trailer. */
  method ReadTrailedCase(cfg: Config, typ: u32, size: u16, data: array<byte>, start: nat)
    returns (r: Result<(Body, seq<u64>, nat)>)
    requires typ in {11, 13, 14, 15}
    ensures r == CaseOf(cfg, typ, size, data[..], start)
  {
    hide GetPair, GetThree, GetU64, GetWords;
    var offset := start;
    if typ == 11 {
      var w :- ReadThree(data, offset);
      offset := offset + 24;
      var sampleId :- ReadSampleId(data, offset);
      return Ok((Aux(w.0, w.1, w.2), sampleId, offset + 8));
    } else if typ == 13 {
      var lost :- ReadU64(data, offset);
      offset := offset + 8;
      var sampleId :- ReadSampleId(data, offset);
      return Ok((LostSamples(lost), sampleId, offset + 8));
    } else if typ == 14 {
      var sampleId :- ReadSampleId(data, offset);
      return Ok((Switch, sampleId, offset + 8));
    } else {
      var ids :- ReadPair(data, offset);
      offset := offset + 8;
      var sampleId :- ReadSampleId(data, offset);
      return Ok((SwitchCpuWide(ids.0, ids.1), sampleId, offset + 8));
    }
  }

  method ReadSampleCase(cfg: Config, size: u16, data: array<byte>, start: nat)
    returns (r: Result<(Body, seq<u64>, nat)>)
    ensures r == CaseOf(cfg, 9, size, data[..], start)
  {
    hide DecodeSample, GetWords;
    var p :- ReadSample(cfg, data, start);
    NoTrailer(data[..], p.1);
    return Ok((Sample(p.0), [], p.1));
  }

  /** One turn of the loop body: header, then the switch on the type. */
  method ReadRecord(cfg: Config, data: array<byte>, start: nat, limit: nat) returns (r: Result<(Record, nat)>)
    ensures r == DecodeRecord(cfg, data[..], start, limit)
  {
    hide GetU32, GetU16, DecodeBody, GetWords;
    var typ :- ReadU32(data, start);
    var misc :- ReadU16(data, start + 4);
    var size :- ReadU16(data, start + 6);
    var offset := start + 8;
    if !HandledType(typ) {
      return Ok((Record(misc, size, Other(typ, []), []), limit));
    }
    var c: Result<(Body, seq<u64>, nat)>;
    if typ == 9 {
      c := ReadSampleCase(cfg, size, data, offset);
    } else if typ == 1 || typ == 3 || typ == 10 {
      c := ReadStringCase(cfg, typ, size, data, offset);
    } else if typ in {11, 13, 14, 15} {
      c := ReadTrailedCase(cfg, typ, size, data, offset);
    } else {
      c := ReadPlainCase(cfg, typ, size, data, offset);
    }
    var p :- c;
    return Ok((Record(misc, size, p.0, p.1), p.2));
  }

  // ---- perf_mmap_read ----

  datatype Outcome =
    | NoFile              // the program exits
    | Returned(head: int)
    | Undefined           // a read left the scratch array

  method Memcpy(dst: array<byte>, to: nat, src: array<byte>, from: nat, n: nat)
    requires to + n <= dst.Length && from + n <= src.Length && dst != src
    modifies dst
    ensures dst[..] == old(dst[..to]) + src[from..from + n] + old(dst[to + n..])
  {
    var k := 0;
    while k < n
      invariant 0 <= k <= n
      invariant forall j :: 0 <= j < dst.Length ==>
                  dst[j] == if to <= j < to + k then src[from + (j - to)] else old(dst[j])
    {
      dst[to + k] := src[from + k];
      k := k + 1;
    }
  }

  method Memset(dst: array<byte>)
    modifies dst
    ensures dst[..] == Zeros(dst.Length)
  {
    var k := 0;
    while k < dst.Length
      invariant 0 <= k <= dst.Length
      invariant forall j :: 0 <= j < k ==> dst[j] == 0
    {
      dst[k] := 0;
      k := k + 1;
    }
  }

  /** The copy of the circular area into the scratch array. */
  method CopyWindow(buf: array<byte>, prevHead: nat, data: array<byte>)
    requires 0 < buf.Length == data.Length && buf != data
    modifies data
    ensures data[..] == Unwrap(buf[..], prevHead)
  {
    var bytesize := buf.Length;
    var prevHeadWrap := prevHead % bytesize;
    Memcpy(data, 0, buf, prevHeadWrap, bytesize - prevHeadWrap);
    Memcpy(data, bytesize - prevHeadWrap, buf, 0, prevHeadWrap);
    assert buf[..][prevHeadWrap..] == buf[prevHeadWrap..bytesize];
    assert buf[..][..prevHeadWrap] == buf[0..prevHeadWrap];
  }

  lemma BatchStep(cfg: Config, d: seq<byte>, off: nat, size: int)
    requires off < size
    ensures DecodeBatch(cfg, d, off, size) ==
            (match DecodeRecord(cfg, d, off, size)
             case Fault => Fault
             case Ok(p) => Front([p.0], DecodeBatch(cfg, d, p.1, size)))
  {
    hide DecodeRecord;
  }

  lemma BatchEnd(cfg: Config, d: seq<byte>, off: nat, size: int)
    requires off >= size
    ensures DecodeBatch(cfg, d, off, size) == Ok([])
  {
  }

  /** The record loop. The cursor moves by what each type reads, never by the declared size. */
  method ParseBatch(cfg: Config, data: array<byte>, size: int, quiet: bool, file: LogFile)
    returns (r: Result<nat>)
    modifies file
    ensures var batch := DecodeBatch(cfg, data[..], 0, size);
            match r
            case Fault => batch == Fault
            case Ok(n) => batch.Ok? && n == |batch.value| &&
                          file.lines == old(file.lines) + if quiet then [] else batch.value
  {
    hide DecodeRecord, DecodeBatch, Front;
    ghost var d := data[..];
    ghost var all := DecodeBatch(cfg, d, 0, size);
    ghost var done: seq<Record> := [];
    FrontNone(all);
    var offset: nat, eventsRead: nat := 0, 0;
    while offset < size
      invariant all == Front(done, DecodeBatch(cfg, d, offset, size))
      invariant eventsRead == |done|
      invariant file.lines == old(file.lines) + if quiet then [] else done
      decreases if offset < size then size - offset else 0
    {
      BatchStep(cfg, d, offset, size);
      Progress(cfg, d, offset, size);
      FrontFault<Record>(done);
      var p :- ReadRecord(cfg, data, offset, size);
      FrontLaw(done, p.0, DecodeBatch(cfg, d, p.1, size));
      if !quiet {
        file.lines := file.lines + [p.0];
      }
      done := done + [p.0];
      eventsRead := eventsRead + 1;
      offset := p.1;
    }
    BatchEnd(cfg, d, offset, size);
    FrontDone(done);
    return Ok(eventsRead);
  }

  /** perf_mmap_read. `counting` says whether `events_read` is non-null; `overflowed` is the
      overflow message on stderr. */
  method PerfMmapRead(page: PerfPage?, mmapSize: nat, pageSize: nat, prevHead: nat, cfg: Config,
                      quiet: bool, counting: bool, file: LogFile?, data: array<byte>)
    returns (out: Outcome, eventsRead: Option<nat>, overflowed: bool)
    requires page != null && mmapSize > 0 ==>
               0 < page.buf.Length == data.Length == mmapSize * pageSize < 0x8000_0000 && page.buf != data
    modifies if page == null then {} else {page}, if file == null then {} else {file}, data
    ensures file == null ==> out == NoFile
    ensures file != null && mmapSize == 0 ==> out == Returned(0)
    ensures file != null && mmapSize > 0 && page == null ==> out == Returned(-1)
    ensures file == null || mmapSize == 0 || page == null ==>
              data[..] == old(data[..]) && (page != null ==> page.State() == old(page.State()))
              && (file != null ==> file.lines == old(file.lines))
    ensures file != null && mmapSize > 0 && page != null ==>
              var ring := old(page.State());
              var size := ToInt32(ring.head - prevHead);
              && overflowed == (size > |ring.buf|)
              && match DecodeBatch(cfg, Unwrap(ring.buf, prevHead), 0, size)
                 case Fault => out == Undefined && page.State() == ring
                 case Ok(rs) =>
                   && out == Returned(ring.head)
                   && page.State() == ring.(tail := ring.head)
                   && data[..] == Zeros(data.Length)
                   && file.lines == old(file.lines) + (if quiet then [] else rs)
                   && eventsRead == if counting then Some(|rs|) else None
  {
    hide DecodeBatch, Unwrap, Zeros;
    eventsRead, overflowed := None, false;
    if file == null {
      return NoFile, None, false;
    }
    if mmapSize == 0 {
      return Returned(0), None, false;
    }
    if page == null {
      return Returned(-1), None, false;
    }
    var head := page.dataHead;
    // rmb() stands here
    var size := ToInt32(head - prevHead);
    var bytesize := mmapSize * pageSize;
    if size > bytesize {
      overflowed := true;
    }
    CopyWindow(page.buf, prevHead, data);
    var n := ParseBatch(cfg, data, size, quiet, file);
    if n.Fault? {
      return Undefined, None, overflowed;
    }
    if counting {
      eventsRead := Some(n.value);
    }
    Memset(data);
    page.dataTail := head;
    return Returned(head), eventsRead, overflowed;
  }
}
