/** A batch is what one call of perf_mmap_read parses: the bytes published since the
    previous call. This module says what is reported for a batch of records. */
module Batch {
  import opened Bytes
  import opened Layout
  import opened Decoder
  import opened FieldLaws
  import opened SampleSync
  import opened SampleSyncNecessary
  import opened SampleOrder
  import opened Records
  import opened RecordDecoder
  import opened RecordLaws

  // ---- What is reported for one record ----

  function SampleView(cfg: Config, fs: seq<Field>): seq<Field> {
    match DecodeSample(cfg, EncodeFields(fs), 0)
    case Ok(p) => p.0
    case Fault => []
  }

  /** The record as the decoder reports it: strings absorb the trailer, samples list
      their fields in the decoder's order, unhandled types keep only their header. */
  function View(cfg: Config, r: Record): Record {
    match r.body
    case Comm(pid, tid, comm) => Record(r.misc, r.size, Comm(pid, tid, comm + EncodeWords(r.sampleId)), [])
    case Mmap(m, name) => Record(r.misc, r.size, Mmap(m, name + EncodeWords(r.sampleId)), [])
    case Mmap2(m, i, name) => Record(r.misc, r.size, Mmap2(m, i, name + EncodeWords(r.sampleId)), [])
    case Sample(fields) => r.(body := Sample(SampleView(cfg, fields)))
    case Other(typ, _) => Record(r.misc, r.size, Other(typ, []), [])
    case _ => r
  }

  /** The decoder's idea of where the record ends agrees with the kernel's. Whether it does
      is for SyncMask to say about samples (SyncExact), and for the trailer about the rest. */
  predicate InStep(cfg: Config, r: Record) {
    if r.body.Sample? then InSync(cfg, r.body.fields) else TrailerFits(r)
  }

  /** A kernel record that the decoder can walk over, or gives up on. What the kernel was
      configured with does not matter, only what it wrote. */
  predicate Decodable(cfg: Config, r: Record) {
    WellFormed(r) && (r.body.Other? || InStep(cfg, r))
  }

  /** In particular, what the kernel writes under a configuration in SyncMask. */
  lemma HeaderDecodable(cfg: Config, r: Record)
    requires HeaderRecord(cfg, r)
    requires if r.body.Sample? then SyncMask(cfg) else r.body.Other? || TrailerFits(r)
    ensures Decodable(cfg, r)
  {
    hide Encode, HeaderSample, SyncMask, InSync;
    if r.body.Sample? { HeaderInSync(cfg, r.body.fields); }
  }

  lemma SampleViewLaw(cfg: Config, fs: seq<Field>)
    requires InSync(cfg, fs)
    ensures var v := SampleView(cfg, fs);
            Kinds(v) == DecoderKinds(cfg) && Shapes(cfg, v) && EncodeFields(v) == EncodeFields(fs)
  {
    hide DecodeFields, EncodeFields, DecoderKinds, Shape;
    var e := EncodeFields(fs);
    var v := SampleView(cfg, fs);
    FieldsLaw(cfg, DecoderKinds(cfg), e, 0, v, |e|);
    assert e[0..|e|] == e;
  }

  /** A string that absorbs what follows it. */
  lemma Absorb(h: seq<byte>, front: seq<byte>, name: seq<byte>, t: seq<byte>)
    ensures h + (front + name) + t == h + (front + (name + t)) + []
  {
    assert front + name + t == front + (name + t);
  }

  lemma StringViewLaw(cfg: Config, r: Record)
    requires Decodable(cfg, r) && AbsorbsTrailer(r.body)
    ensures DecoderRecord(cfg, View(cfg, r)) && Encode(View(cfg, r)) == Encode(r)
  {
    hide EncodeWords, EncodeMapping, EncodeInode, EncodePair, EncodeHeader;
    var h := EncodeHeader(TypeOf(r.body), r.misc, r.size);
    var t := EncodeWords(r.sampleId);
    NoWords();
    match r.body
    case Comm(pid, tid, comm) => Absorb(h, EncodePair(pid, tid), comm, t);
    case Mmap(m, name) => Absorb(h, EncodeMapping(m), name, t);
    case Mmap2(m, i, name) => Absorb(h, EncodeMapping(m) + EncodeInode(i), name, t);
  }

  lemma ViewLaw(cfg: Config, r: Record)
    requires Decodable(cfg, r) && !r.body.Other?
    ensures DecoderRecord(cfg, View(cfg, r)) && Encode(View(cfg, r)) == Encode(r)
  {
    hide EncodeWords, EncodeFields, EncodeHeader, SampleView, Shapes, DecoderKinds, InSync;
    if AbsorbsTrailer(r.body) {
      StringViewLaw(cfg, r);
    } else if r.body.Sample? {
      SampleViewLaw(cfg, r.body.fields);
    } else {
      assert View(cfg, r) == r;
    }
  }

  lemma NoWords()
    ensures EncodeWords([]) == []
  {
  }

  /** Wherever a kernel record stands, and whatever surrounds it, one turn of the loop
      reports its view and moves by the size the record declares, which the turn never
      looks at except to find the length of a string. */
  lemma RecordDelivered(cfg: Config, r: Record, d: seq<byte>, off: nat, limit: nat)
    requires Decodable(cfg, r) && At(d, off, Encode(r))
    ensures DecodeRecord(cfg, d, off, limit) ==
            Ok((View(cfg, r), if r.body.Other? then limit else off + r.size))
    ensures r.size == |Encode(r)|
  {
    hide At, DecodeRecord, Encode, DecoderRecord;
    if r.body.Other? {
      OtherLaw(cfg, d, off, limit, r);
    } else {
      ViewLaw(cfg, r);
      ViewHandled(cfg, r);
      RecordLaw(cfg, d, off, limit, View(cfg, r), off + |Encode(r)|);
    }
  }

  /** Whatever the mask does to the tail of a sample, the fields before the interrupt
      registers are reported as written, unless IDENTIFIER comes first. */
  lemma FrontExact(cfg: Config, fs: seq<Field>)
    requires HeaderSample(cfg, fs) && SyncMask(cfg) && !Has(cfg, IDENTIFIER)
    ensures var n := |CommonKinds(cfg)|;
            n <= |fs| && n <= |SampleView(cfg, fs)| && SampleView(cfg, fs)[..n] == fs[..n]
  {
    hide DecodeFields, EncodeFields, Shapes, CommonKinds, HeaderTail, DecoderTail;
    assert |Kinds(fs)| == |fs|;
    if Has(cfg, REGS_INTR) {
      var v2 := SyncPermutedTail(cfg, fs);
    } else {
      UntouchedOrder(cfg);
      AtWhole(EncodeFields(fs));
      SameOrder(cfg, fs, EncodeFields(fs), 0);
    }
  }

  lemma ViewHandled(cfg: Config, r: Record)
    ensures View(cfg, r).body.Other? == r.body.Other?
  {
  }

  // ---- Which records are reported as they are ----

  /** The fields stand in the decoder's order, and there is nothing the report leaves out. */
  predicate Verbatim(cfg: Config, r: Record) {
    match r.body
    case Sample(fields) => Kinds(fields) == DecoderKinds(cfg) && forall f <- fields :: Shape(cfg, f)
    case Other(_, payload) => payload == [] && r.sampleId == []
    case _ => AbsorbsTrailer(r.body) ==> r.sampleId == []
  }

  lemma SampleViewExact(cfg: Config, fs: seq<Field>)
    requires InSync(cfg, fs)
    ensures SampleView(cfg, fs) == fs <==> Kinds(fs) == DecoderKinds(cfg) && forall f <- fs :: Shape(cfg, f)
  {
    hide DecodeFields, EncodeFields, DecoderKinds, Shape;
    SampleViewLaw(cfg, fs);
    AtWhole(EncodeFields(fs));
    FieldsLaw(cfg, DecoderKinds(cfg), EncodeFields(fs), 0, fs, |EncodeFields(fs)|);
  }

  /** A record is reported unchanged if and only if it is Verbatim. */
  lemma ViewExact(cfg: Config, r: Record)
    requires Decodable(cfg, r)
    ensures View(cfg, r) == r <==> Verbatim(cfg, r)
  {
    hide Encode, InSync, SampleView, DecoderKinds, Shape, EncodeWords;
    NoWords();
    match r.body
    case Sample(fields) => SampleViewExact(cfg, fields);
    case Comm(_, _, comm) => assert comm + [] == comm;
    case Mmap(_, name) => assert name + [] == name;
    case Mmap2(_, _, name) => assert name + [] == name;
    case _ =>
  }

  /** What the kernel writes under a configuration in OrderMask is Verbatim, but for
      unhandled types and strings that have a trailer to absorb. */
  lemma HeaderVerbatim(cfg: Config, r: Record)
    requires HeaderRecord(cfg, r) && !r.body.Other?
    requires r.body.Sample? ==> OrderMask(cfg)
    ensures Verbatim(cfg, r) <==> (AbsorbsTrailer(r.body) ==> r.sampleId == [])
  {
    hide Encode, OrderMask, HeaderKinds, DecoderKinds, Shape, Written, EncodeFields;
    if r.body.Sample? { OrderSufficient(cfg); }
  }

  // ---- What is printed of a record ----

  /** What "%s" prints: the bytes before the first NUL. */
  function CString(b: seq<byte>): seq<byte> {
    if b == [] || b[0] == 0 then [] else [b[0]] + CString(b[1..])
  }

  /** That is the one beginning of the bytes that has no NUL and goes on to one or to the end. */
  lemma {:induction false} CStringExact(b: seq<byte>, p: seq<byte>)
    ensures p == CString(b) <==> p <= b && 0 !in p && (|p| < |b| ==> b[|p|] == 0)
  {
    if b != [] && b[0] != 0 && p != [] {
      CStringExact(b[1..], p[1..]);
      assert b == [b[0]] + b[1..] && p == [p[0]] + p[1..];
    }
  }

  /** Names up to their NUL; of a trailer only the word that a case reads as such. */
  function Printed(r: Record): Record {
    match r.body
    case Comm(pid, tid, comm) => Record(r.misc, r.size, Comm(pid, tid, CString(comm)), [])
    case Mmap(m, name) => Record(r.misc, r.size, Mmap(m, CString(name)), [])
    case Mmap2(m, i, name) => Record(r.misc, r.size, Mmap2(m, i, CString(name)), [])
    case Other(typ, _) => Record(r.misc, r.size, Other(typ, []), [])
    case _ => r
  }

  /** Names end in a NUL or are followed by one, and fields stand in the decoder's order. */
  predicate Legible(cfg: Config, r: Record) {
    match r.body
    case Comm(_, _, comm) => NameLegible(comm, EncodeWords(r.sampleId))
    case Mmap(_, name) => NameLegible(name, EncodeWords(r.sampleId))
    case Mmap2(_, _, name) => NameLegible(name, EncodeWords(r.sampleId))
    case Sample(_) => Verbatim(cfg, r)
    case _ => true
  }

  predicate NameLegible(name: seq<byte>, trailer: seq<byte>) {
    0 in name || trailer == [] || trailer[0] == 0
  }

  /** A name prints the same with the trailer absorbed if and only if a NUL stands between
      the two. */
  lemma AbsorbedTrailerUnseen(name: seq<byte>, trailer: seq<byte>)
    ensures CString(name + trailer) == CString(name) <==> NameLegible(name, trailer)
  {
    CStringExact(name, CString(name));
    CStringExact(name + trailer, CString(name));
    assert CString(name) <= name;
    if 0 !in name {
      CStringExact(name, name);
      assert (name + trailer)[..|name|] == name;
    }
  }

  /** A record is printed as it was written, with or without a trailer, if and only if it is
      Legible. */
  lemma ViewPrinted(cfg: Config, r: Record)
    requires Decodable(cfg, r)
    ensures Printed(View(cfg, r)) == Printed(r) <==> Legible(cfg, r)
  {
    hide Encode, InStep, SampleView, CString, EncodeWords, Verbatim, NameLegible;
    match r.body
    case Sample(_) => ViewExact(cfg, r);
    case Comm(_, _, comm) => AbsorbedTrailerUnseen(comm, EncodeWords(r.sampleId));
    case Mmap(_, name) => AbsorbedTrailerUnseen(name, EncodeWords(r.sampleId));
    case Mmap2(_, _, name) => AbsorbedTrailerUnseen(name, EncodeWords(r.sampleId));
    case _ =>
  }

  // ---- Exactly which records keep the cursor in step ----

  function BodyBytes(b: Body): nat {
    match b
    case Lost(_, _) => 16
    case ItraceStart(_, _) | LostSamples(_) | SwitchCpuWide(_, _) => 8
    case Switch => 0
    case _ => 24
  }

  lemma FixedBody(b: Body)
    requires !AbsorbsTrailer(b) && !b.Sample? && !b.Other?
    ensures |EncodeBody(b)| == BodyBytes(b)
  {
  }

  /** Away from names and samples the type fixes the length of the body. */
  lemma SameType(a: Body, b: Body)
    requires TypeOf(a) == TypeOf(b) && !a.Other? && !b.Other? && !b.Sample? && !AbsorbsTrailer(b)
    ensures |EncodeBody(a)| == |EncodeBody(b)| && TrailerRead(a) == TrailerRead(b)
  {
    hide EncodeBody;
    FixedBody(a);
    FixedBody(b);
  }

  lemma SameHeader(d: seq<byte>, off: nat, a: Record, b: Record)
    requires At(d, off, Encode(a)) && At(d, off, Encode(b))
    ensures TypeOf(a.body) == TypeOf(b.body)
  {
    hide At, EncodeBody, EncodeWords, EncodeHeader, GetU32, GetU16;
    HeaderAt(d, off, a);
    HeaderAt(d, off, b);
  }

  lemma HeaderAt(d: seq<byte>, off: nat, r: Record)
    requires At(d, off, Encode(r))
    ensures GetU32(d, off) == Ok(TypeOf(r.body))
  {
    hide At, EncodeBody, EncodeWords, EncodeHeader, GetU32, GetU16;
    var h := EncodeHeader(TypeOf(r.body), r.misc, r.size);
    AtConcat(d, off, h + EncodeBody(r.body), EncodeWords(r.sampleId));
    AtConcat(d, off, h, EncodeBody(r.body));
    HeaderLaw(d, off, TypeOf(r.body), r.misc, r.size);
  }

  predicate EndsAt(res: Result<(Record, nat)>, o: nat) { res.Ok? && res.value.1 == o }

  /** For the types that are not SAMPLE the trailer decides. */
  lemma TrailerSyncExact(cfg: Config, r: Record, d: seq<byte>, off: nat, limit: nat)
    requires WellFormed(r) && !r.body.Sample? && !r.body.Other?
    requires At(d, off, Encode(r))
    ensures TrailerFits(r) <==> EndsAt(DecodeRecord(cfg, d, off, limit), off + |Encode(r)|)
  {
    hide At, DecodeRecord, WellFormed, BodyShape, EncodeBody, TrailerRead;
    if TrailerFits(r) {
      RecordDelivered(cfg, r, d, off, limit);
    } else if EndsAt(DecodeRecord(cfg, d, off, limit), off + |Encode(r)|) {
      var e := DecodeRecord(cfg, d, off, limit).value.0;
      HandledResult(cfg, d, off, limit, e, r);
      RecordLaw(cfg, d, off, limit, e, off + |Encode(r)|);
      SameHeader(d, off, e, r);
      SameType(e.body, r.body);
    }
  }

  /** The same type by type. */
  lemma TrailerByType(cfg: Config, r: Record, d: seq<byte>, off: nat, limit: nat)
    requires WellFormed(r) && !r.body.Sample? && !r.body.Other?
    requires At(d, off, Encode(r))
    ensures var inStep := EndsAt(DecodeRecord(cfg, d, off, limit), off + r.size);
            match r.body
            case Lost(_, _) | Fork(_) | Exit(_) | Throttle(_, _, _) | Unthrottle(_, _, _) | ItraceStart(_, _) =>
              inStep <==> r.sampleId == []
            case Aux(_, _, _) | LostSamples(_) | Switch | SwitchCpuWide(_, _) =>
              inStep <==> |r.sampleId| == 1
            case Comm(_, _, _) | Mmap(_, _) | Mmap2(_, _, _) => inStep
  {
    hide At, DecodeRecord, Encode;
    TrailerSyncExact(cfg, r, d, off, limit);
  }

  lemma SampleSyncExact(cfg: Config, r: Record, d: seq<byte>, off: nat, limit: nat)
    requires r.body.Sample? && r.sampleId == [] && At(d, off, Encode(r))
    ensures InSync(cfg, r.body.fields) <==> EndsAt(DecodeRecord(cfg, d, off, limit), off + |Encode(r)|)
  {
    hide At, GetU32, GetU16, DecodeSample, EncodeFields, EncodeHeader, InSync;
    var h, fs := EncodeHeader(9, r.misc, r.size), r.body.fields;
    NoWords();
    assert h + EncodeFields(fs) + [] == h + EncodeFields(fs);
    AtConcat(d, off, h, EncodeFields(fs));
    HeaderLaw(d, off, 9, r.misc, r.size);
    InSyncAnywhere(cfg, fs, d, off + 8);
  }

  /** A turn of the loop ends on the boundary of a record, wherever it stands, if and only
      if the record is InStep. */
  lemma RecordSyncExact(cfg: Config, r: Record, d: seq<byte>, off: nat, limit: nat)
    requires WellFormed(r) && !r.body.Other?
    requires At(d, off, Encode(r))
    ensures InStep(cfg, r) <==> EndsAt(DecodeRecord(cfg, d, off, limit), off + |Encode(r)|)
  {
    hide At, DecodeRecord, InSync, TrailerFits, Encode;
    if r.body.Sample? {
      SampleSyncExact(cfg, r, d, off, limit);
    } else {
      TrailerSyncExact(cfg, r, d, off, limit);
    }
  }

  lemma HandledResult(cfg: Config, d: seq<byte>, off: nat, limit: nat, e: Record, r: Record)
    requires At(d, off, Encode(r)) && HandledType(TypeOf(r.body))
    requires DecodeRecord(cfg, d, off, limit).Ok? && DecodeRecord(cfg, d, off, limit).value.0 == e
    ensures !e.body.Other?
  {
    hide At, Encode, DecodeBody, GetWords, GetU32, GetU16;
    HeaderAt(d, off, r);
    var size := GetU16(d, off + 6).value;
    DecodedType(cfg, TypeOf(r.body), size, d, off + 8);
  }

  lemma RecordBytes(r: Record)
    ensures |Encode(r)| == 8 + |EncodeBody(r.body)| + 8 * |r.sampleId|
  {
  }

  lemma TrailerRoom(cfg: Config)
    ensures TrailerWords(cfg) <= 6
  {
  }

  /** No configuration keeps every record type in step: with a trailer LOST comes out
      short, without one SWITCH runs over. */
  lemma NoTrailerFitsAll(cfg: Config) returns (r: Record)
    ensures HeaderRecord(cfg, r) && !r.body.Sample? && !r.body.Other? && !TrailerFits(r)
  {
    hide TrailerWords, Encode, EncodeBody;
    var w := TrailerWords(cfg);
    TrailerRoom(cfg);
    if w == 0 {
      r := Record(0, 8, Switch, []);
    } else {
      r := Record(0, (24 + 8 * w) as u16, Lost(0, 0), seq(w, _ => 0));
    }
    FixedBody(r.body);
    RecordBytes(r);
  }

  // ---- The loop ----

  /** Every turn moves the cursor forward, by a header at least or to the end. */
  lemma Progress(cfg: Config, d: seq<byte>, off: nat, limit: nat)
    requires off < limit
    ensures var r := DecodeRecord(cfg, d, off, limit);
            r.Ok? ==> off + 8 <= r.value.1 || r.value.1 == limit
  {
    hide Encode, DecodeBody, GetWords, GetU32, GetU16, DecoderRecord;
    var r := DecodeRecord(cfg, d, off, limit);
    if r.Ok? && !r.value.0.body.Other? {
      RecordLaw(cfg, d, off, limit, r.value.0, r.value.1);
    } else if r.Ok? {
      var typ, size := GetU32(d, off).value, GetU16(d, off + 6).value;
      if HandledType(typ) { DecodedType(cfg, typ, size, d, off + 8); }
    }
  }

  /** The record loop from cursor `off` on: the records reported, in order. */
  function DecodeBatch(cfg: Config, d: seq<byte>, off: nat, size: int): Result<seq<Record>>
    decreases if off < size then size - off else 0
  {
    if off >= size then Ok([])
    else
      var (r, o) :- DecodeRecord(cfg, d, off, size);
      Progress(cfg, d, off, size);
      var rest :- DecodeBatch(cfg, d, o, size);
      Ok([r] + rest)
  }

  /** What one call reports for a batch of records. */
  function Deliver(cfg: Config, rs: seq<Record>): seq<Record> {
    if rs == [] then []
    else if rs[0].body.Other? then [View(cfg, rs[0])]
    else [View(cfg, rs[0])] + Deliver(cfg, rs[1..])
  }

  predicate DecodableStream(cfg: Config, rs: seq<Record>) {
    forall r <- rs :: Decodable(cfg, r)
  }

  predicate NoOther(rs: seq<Record>) {
    forall r <- rs :: !r.body.Other?
  }

  /** Parsing the bytes of a batch reports the batch, whatever lies around it in the buffer. */
  lemma {:induction false} BatchDelivered(cfg: Config, rs: seq<Record>, d: seq<byte>, off: nat)
    requires DecodableStream(cfg, rs) && At(d, off, EncodeAll(rs))
    ensures DecodeBatch(cfg, d, off, off + |EncodeAll(rs)|) == Ok(Deliver(cfg, rs))
  {
    hide At, Encode, DecodeRecord, View, Decodable;
    if rs != [] {
      var limit := off + |EncodeAll(rs)|;
      AtConcat(d, off, Encode(rs[0]), EncodeAll(rs[1..]));
      RecordDelivered(cfg, rs[0], d, off, limit);
      if !rs[0].body.Other? {
        BatchDelivered(cfg, rs[1..], d, off + |Encode(rs[0])|);
      } else {
        assert DecodeBatch(cfg, d, limit, limit) == Ok([]);
        assert [View(cfg, rs[0])] + [] == Deliver(cfg, rs);
      }
    }
  }

  predicate VerbatimStream(cfg: Config, rs: seq<Record>) {
    forall r <- rs :: !r.body.Other? && Verbatim(cfg, r)
  }

  lemma {:induction false} DeliverVerbatim(cfg: Config, rs: seq<Record>)
    requires DecodableStream(cfg, rs) && VerbatimStream(cfg, rs)
    ensures Deliver(cfg, rs) == rs
  {
    hide View, Decodable, Verbatim;
    if rs != [] {
      assert rs[0] in rs;
      ViewExact(cfg, rs[0]);
      DeliverVerbatim(cfg, rs[1..]);
      assert rs == [rs[0]] + rs[1..];
    }
  }

  /** The round trip: parsing the encoding of a list of records gives that list back. */
  lemma BatchRoundTrip(cfg: Config, rs: seq<Record>, d: seq<byte>, off: nat)
    requires DecodableStream(cfg, rs) && VerbatimStream(cfg, rs) && At(d, off, EncodeAll(rs))
    ensures DecodeBatch(cfg, d, off, off + |EncodeAll(rs)|) == Ok(rs)
  {
    hide At, EncodeAll, Decodable, Verbatim, DecodeBatch, Deliver;
    BatchDelivered(cfg, rs, d, off);
    DeliverVerbatim(cfg, rs);
  }

  /** Where a batch is cut makes no difference as long as its types are handled. */
  lemma {:induction false} DeliverAppend(cfg: Config, a: seq<Record>, b: seq<Record>)
    requires NoOther(a)
    ensures Deliver(cfg, a + b) == Deliver(cfg, a) + Deliver(cfg, b)
  {
    hide View;
    if a == [] {
      assert a + b == b;
    } else {
      assert (a + b)[0] == a[0] && (a + b)[1..] == a[1..] + b;
      DeliverAppend(cfg, a[1..], b);
    }
  }

  /** An unhandled type is reported, as its header, and ends the batch there. */
  lemma {:induction false} DeliverStops(cfg: Config, a: seq<Record>, o: Record, b: seq<Record>)
    requires NoOther(a) && o.body.Other?
    ensures Deliver(cfg, a + [o] + b) == Deliver(cfg, a) + [View(cfg, o)]
  {
    hide View;
    if a == [] {
      assert ([] + [o] + b)[0] == o;
    } else {
      assert (a + [o] + b)[0] == a[0] && (a + [o] + b)[1..] == a[1..] + [o] + b;
      DeliverStops(cfg, a[1..], o, b);
    }
  }

  /** Without unhandled types every record is reported, in its place. */
  lemma {:induction false} DeliverAll(cfg: Config, rs: seq<Record>)
    requires NoOther(rs)
    ensures |Deliver(cfg, rs)| == |rs|
    ensures forall i :: 0 <= i < |rs| ==> Deliver(cfg, rs)[i] == View(cfg, rs[i])
  {
    hide View;
    if rs != [] { DeliverAll(cfg, rs[1..]); }
  }

  /** A batch loses records exactly when an unhandled type is not its last record. */
  lemma {:induction false} DeliverComplete(cfg: Config, rs: seq<Record>)
    ensures |Deliver(cfg, rs)| <= |rs|
    ensures |Deliver(cfg, rs)| == |rs| <==> forall i :: 0 <= i < |rs| - 1 ==> !rs[i].body.Other?
  {
    hide View;
    if rs != [] {
      DeliverComplete(cfg, rs[1..]);
      assert forall i :: 0 <= i < |rs| - 2 ==> rs[1..][i] == rs[i + 1];
      assert forall i :: 1 <= i < |rs| - 1 ==> rs[i] == rs[1..][i - 1];
    }
  }
}
