/** The record reader is the inverse of the record encoder, for every record type. */
module RecordLaws {
  import opened Bytes
  import opened Layout
  import opened Decoder
  import opened FieldLaws
  import opened Records
  import opened RecordDecoder

  lemma PairLaw(d: seq<byte>, off: nat, a: u32, b: u32)
    ensures GetPair(d, off) == Ok((a, b)) <==> At(d, off, EncodePair(a, b))
  {
    hide At, GetU32, U32;
    GetU32Law(d, off, a);
    GetU32Law(d, off + 4, b);
    AtConcat(d, off, U32(a), U32(b));
  }

  lemma ThreeLaw(d: seq<byte>, off: nat, a: u64, b: u64, c: u64)
    ensures GetThree(d, off) == Ok((a, b, c)) <==> At(d, off, EncodeThree(a, b, c))
  {
    hide At, GetU64, U64;
    GetU64Law(d, off, a);
    GetU64Law(d, off + 8, b);
    GetU64Law(d, off + 16, c);
    AtConcat(d, off, U64(a), U64(b));
    AtConcat(d, off, U64(a) + U64(b), U64(c));
  }

  lemma MappingLaw(d: seq<byte>, off: nat, m: Mapping)
    ensures GetMapping(d, off) == Ok(m) <==> At(d, off, EncodeMapping(m))
  {
    hide At, GetU32, GetU64, EncodePair, EncodeThree;
    PairLaw(d, off, m.pid, m.tid);
    ThreeLaw(d, off + 8, m.addr, m.len, m.pgoff);
    AtConcat(d, off, EncodePair(m.pid, m.tid), EncodeThree(m.addr, m.len, m.pgoff));
  }

  lemma InodeLaw(d: seq<byte>, off: nat, i: Inode)
    ensures GetInode(d, off) == Ok(i) <==> At(d, off, EncodeInode(i))
  {
    hide At, GetU32, GetU64, EncodePair, U64;
    var a, b, c, e := EncodePair(i.maj, i.min), U64(i.ino), U64(i.generation), EncodePair(i.prot, i.flags);
    PairLaw(d, off, i.maj, i.min);
    GetU64Law(d, off + 8, i.ino);
    GetU64Law(d, off + 16, i.generation);
    PairLaw(d, off + 24, i.prot, i.flags);
    AtConcat(d, off, a, b);
    AtConcat(d, off, a + b, c);
    AtConcat(d, off, a + b + c, e);
  }

  lemma TaskLaw(d: seq<byte>, off: nat, t: Task)
    ensures GetTask(d, off) == Ok(t) <==> At(d, off, EncodeTask(t))
  {
    hide At, GetU32, GetU64, EncodePair, U64;
    var a, b, c := EncodePair(t.pid, t.ppid), EncodePair(t.tid, t.ptid), U64(t.time);
    PairLaw(d, off, t.pid, t.ppid);
    PairLaw(d, off + 8, t.tid, t.ptid);
    GetU64Law(d, off + 16, t.time);
    AtConcat(d, off, a, b);
    AtConcat(d, off, a + b, c);
  }

  /** A body that the decoder can produce from a record of the given declared size. */
  ghost predicate BodyShape(cfg: Config, size: u16, b: Body) {
    match b
    case Mmap(_, filename) => size == 40 + |filename|
    case Comm(_, _, comm) => size == 16 + |comm|
    case Mmap2(_, _, filename) => size == 72 + |filename|
    case Sample(fields) => Kinds(fields) == DecoderKinds(cfg) && Shapes(cfg, fields)
    case Other(_, _) => false
    case _ => true
  }

  lemma DecodedType(cfg: Config, typ: u32, size: u16, d: seq<byte>, off: nat)
    requires HandledType(typ)
    ensures var r := DecodeBody(cfg, typ, size, d, off); r.Ok? ==> TypeOf(r.value.0) == typ && !r.value.0.Other?
  {
    hide GetMapping, GetInode, GetTask, GetPair, GetThree, GetU64, GetBytes, DecodeSample;
  }

  lemma StringLaws(cfg: Config, size: u16, d: seq<byte>, off: nat, b: Body, o: nat)
    requires AbsorbsTrailer(b)
    ensures DecodeBody(cfg, TypeOf(b), size, d, off) == Ok((b, o)) <==>
            BodyShape(cfg, size, b) && At(d, off, EncodeBody(b)) && o == off + |EncodeBody(b)|
  {
    hide At, GetMapping, GetInode, GetU32, GetBytes, EncodeMapping, EncodeInode, EncodePair;
    match b
    case Mmap(m, filename) =>
      MappingLaw(d, off, m);
      GetBytesLaw(d, off + 32, filename);
      AtConcat(d, off, EncodeMapping(m), filename);
    case Comm(pid, tid, comm) =>
      PairLaw(d, off, pid, tid);
      GetBytesLaw(d, off + 8, comm);
      AtConcat(d, off, EncodePair(pid, tid), comm);
    case Mmap2(m, i, filename) =>
      MappingLaw(d, off, m);
      InodeLaw(d, off + 32, i);
      GetBytesLaw(d, off + 64, filename);
      AtConcat(d, off, EncodeMapping(m), EncodeInode(i));
      AtConcat(d, off, EncodeMapping(m) + EncodeInode(i), filename);
  }

  lemma SampleBodyLaw(cfg: Config, size: u16, d: seq<byte>, off: nat, fields: seq<Field>, o: nat)
    ensures DecodeBody(cfg, 9, size, d, off) == Ok((Sample(fields), o)) <==>
            && Kinds(fields) == DecoderKinds(cfg) && Shapes(cfg, fields)
            && At(d, off, EncodeFields(fields)) && o == off + |EncodeFields(fields)|
  {
    hide At, DecodeFields, EncodeFields, DecoderKinds, Shapes;
    FieldsLaw(cfg, DecoderKinds(cfg), d, off, fields, o);
    if DecodeBody(cfg, 9, size, d, off) == Ok((Sample(fields), o)) {
      assert DecodeSample(cfg, d, off).value.0 == fields;
    }
  }

  lemma PlainLaws(cfg: Config, size: u16, d: seq<byte>, off: nat, b: Body, o: nat)
    requires !AbsorbsTrailer(b) && !b.Sample? && !b.Other?
    ensures DecodeBody(cfg, TypeOf(b), size, d, off) == Ok((b, o)) <==>
            BodyShape(cfg, size, b) && At(d, off, EncodeBody(b)) && o == off + |EncodeBody(b)|
  {
    hide At, GetTask, GetU32, GetU64, EncodeTask, EncodePair, EncodeThree, U64;
    match b
    case Lost(id, lost) =>
      GetU64Law(d, off, id);
      GetU64Law(d, off + 8, lost);
      AtConcat(d, off, U64(id), U64(lost));
    case Exit(t) => TaskLaw(d, off, t);
    case Fork(t) => TaskLaw(d, off, t);
    case Throttle(x, y, z) => ThreeLaw(d, off, x, y, z);
    case Unthrottle(x, y, z) => ThreeLaw(d, off, x, y, z);
    case Aux(x, y, z) => ThreeLaw(d, off, x, y, z);
    case ItraceStart(pid, tid) => PairLaw(d, off, pid, tid);
    case SwitchCpuWide(pid, tid) => PairLaw(d, off, pid, tid);
    case LostSamples(lost) => GetU64Law(d, off, lost);
    case Switch => AtEmpty(d, off);
  }

  lemma BodyLaw(cfg: Config, typ: u32, size: u16, d: seq<byte>, off: nat, b: Body, o: nat)
    requires HandledType(typ)
    ensures DecodeBody(cfg, typ, size, d, off) == Ok((b, o)) <==>
            && TypeOf(b) == typ && BodyShape(cfg, size, b)
            && At(d, off, EncodeBody(b)) && o == off + |EncodeBody(b)|
  {
    hide At, DecodeBody, EncodeBody, BodyShape;
    DecodedType(cfg, typ, size, d, off);
    OtherShape(cfg, size, b);
    if TypeOf(b) == typ && !b.Other? {
      if AbsorbsTrailer(b) {
        StringLaws(cfg, size, d, off, b, o);
      } else if b.Sample? {
        SampleBodyLaw(cfg, size, d, off, b.fields, o);
        SampleBody(cfg, size, b);
      } else {
        PlainLaws(cfg, size, d, off, b, o);
      }
    }
  }

  lemma OtherShape(cfg: Config, size: u16, b: Body)
    ensures b.Other? ==> !BodyShape(cfg, size, b)
  {
  }

  lemma SampleBody(cfg: Config, size: u16, b: Body)
    requires b.Sample?
    ensures EncodeBody(b) == EncodeFields(b.fields)
    ensures BodyShape(cfg, size, b) <==> Kinds(b.fields) == DecoderKinds(cfg) && Shapes(cfg, b.fields)
  {
  }

  lemma HeaderLaw(d: seq<byte>, off: nat, typ: u32, misc: u16, size: u16)
    ensures GetU32(d, off) == Ok(typ) && GetU16(d, off + 4) == Ok(misc) && GetU16(d, off + 6) == Ok(size) <==>
            At(d, off, EncodeHeader(typ, misc, size))
  {
    hide At, GetU32, GetU16, U32, U16;
    GetU32Law(d, off, typ);
    GetU16Law(d, off + 4, misc);
    GetU16Law(d, off + 6, size);
    AtConcat(d, off, U32(typ), U16(misc));
    AtConcat(d, off, U32(typ) + U16(misc), U16(size));
  }

  /** A record that the decoder can produce from a type it handles. */
  ghost predicate DecoderRecord(cfg: Config, r: Record) {
    BodyShape(cfg, r.size, r.body) && |r.sampleId| == TrailerRead(r.body)
  }

  /** The central law of a record. */
  lemma RecordLaw(cfg: Config, d: seq<byte>, off: nat, limit: nat, r: Record, o: nat)
    requires !r.body.Other?
    ensures DecodeRecord(cfg, d, off, limit) == Ok((r, o)) <==>
            DecoderRecord(cfg, r) && At(d, off, Encode(r)) && o == off + |Encode(r)|
  {
    hide At, GetU32, GetU16, DecodeBody, GetWords, EncodeHeader, EncodeBody, EncodeWords, BodyShape;
    var typ := TypeOf(r.body);
    var o1 := off + 8 + |EncodeBody(r.body)|;
    HeaderLaw(d, off, typ, r.misc, r.size);
    AtConcat(d, off, EncodeHeader(typ, r.misc, r.size), EncodeBody(r.body));
    AtConcat(d, off, EncodeHeader(typ, r.misc, r.size) + EncodeBody(r.body), EncodeWords(r.sampleId));
    WordsLaw(d, o1, TrailerRead(r.body), r.sampleId);
    BodyLaw(cfg, typ, r.size, d, off + 8, r.body, o1);
    if DecodeRecord(cfg, d, off, limit).Ok? {
      var t, size := GetU32(d, off).value, GetU16(d, off + 6).value;
      if HandledType(t) {
        var p := DecodeBody(cfg, t, size, d, off + 8).value;
        BodyLaw(cfg, t, size, d, off + 8, p.0, p.1);
      }
    }
  }

  /** A type without a case: only the header is read, and the batch is abandoned. */
  lemma OtherLaw(cfg: Config, d: seq<byte>, off: nat, limit: nat, r: Record)
    requires r.body.Other? && !HandledType(r.body.typ)
    requires At(d, off, Encode(r))
    ensures DecodeRecord(cfg, d, off, limit) == Ok((Record(r.misc, r.size, Other(r.body.typ, []), []), limit))
  {
    hide At, GetU32, GetU16, DecodeBody, GetWords, EncodeHeader, EncodeBody, EncodeWords;
    HeaderLaw(d, off, r.body.typ, r.misc, r.size);
    AtConcat(d, off, EncodeHeader(r.body.typ, r.misc, r.size), EncodeBody(r.body));
    AtConcat(d, off, EncodeHeader(r.body.typ, r.misc, r.size) + EncodeBody(r.body), EncodeWords(r.sampleId));
  }
}
