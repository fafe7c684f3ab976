/** The PERF_RECORD_SAMPLE case of perf_mmap_read, and the two functions it calls, as the
    imperative code they are: a cursor moved through the scratch array. */
module SampleReader {
  import opened Bytes
  import opened Layout
  import opened Decoder
  import FieldLaws
  import opened SampleSync

  /** Results read so far, put in front of what the rest of a run will give. */
  function Prepend<T>(xs: seq<T>, r: Result<(seq<T>, nat)>): Result<(seq<T>, nat)> {
    match r
    case Fault => Fault
    case Ok(p) => Ok((xs + p.0, p.1))
  }

  function Front<T>(xs: seq<T>, r: Result<seq<T>>): Result<seq<T>> {
    match r
    case Fault => Fault
    case Ok(ys) => Ok(xs + ys)
  }

  lemma PrependLaw<T>(xs: seq<T>, x: T, r: Result<(seq<T>, nat)>)
    ensures Prepend(xs, Prepend([x], r)) == Prepend(xs + [x], r)
  {
    if r.Ok? { assert xs + ([x] + r.value.0) == xs + [x] + r.value.0; }
  }

  lemma FrontLaw<T>(xs: seq<T>, x: T, r: Result<seq<T>>)
    ensures Front(xs, Front([x], r)) == Front(xs + [x], r)
  {
    if r.Ok? { assert xs + ([x] + r.value) == xs + [x] + r.value; }
  }

  method ReadU32(data: array<byte>, off: nat) returns (r: Result<u32>)
    ensures r == GetU32(data[..], off)
  {
    if off + 4 <= data.Length {
      Widths();
      assert data[..][off..off + 4] == data[off..off + 4];
      return Ok(FromLE(data[off..off + 4]));
    }
    return Fault;
  }

  method ReadU64(data: array<byte>, off: nat) returns (r: Result<u64>)
    ensures r == GetU64(data[..], off)
  {
    if off + 8 <= data.Length {
      Widths();
      assert data[..][off..off + 8] == data[off..off + 8];
      return Ok(FromLE(data[off..off + 8]));
    }
    return Fault;
  }

  method ReadBytes(data: array<byte>, off: nat, n: int) returns (r: Result<seq<byte>>)
    ensures r == GetBytes(data[..], off, n)
  {
    if n == 0 {
      return Ok([]);
    }
    if 0 <= n && off + n <= data.Length {
      assert data[..][off..off + n] == data[off..off + n];
      return Ok(data[off..off + n]);
    }
    return Fault;
  }

  // ---- handle_struct_read_format ----

  method ReadOption(present: bool, data: array<byte>, off: nat) returns (r: Result<Option<u64>>)
    ensures GetOption(present, data[..], off) ==
            (match r case Fault => Fault case Ok(v) => Ok((v, if present then off + 8 else off)))
  {
    if present {
      var v :- ReadU64(data, off);
      return Ok(Some(v));
    }
    return Ok(None);
  }

  lemma CounterStep(cfg: Config, d: seq<byte>, off: nat, n: nat)
    requires n > 0
    ensures GetCounters(cfg, d, off, n) ==
            (match GetU64(d, off)
             case Fault => Fault
             case Ok(value) =>
               match GetOption(Reports(cfg, FORMAT_ID), d, off + 8)
               case Fault => Fault
               case Ok(p) => Prepend([Counter(value, p.0)], GetCounters(cfg, d, p.1, n - 1)))
  {
    hide GetU64, GetOption;
  }

  /** The group form: `nr` counters, each with its id if ids are reported. */
  method ReadCounters(cfg: Config, data: array<byte>, start: nat, nr: u64) returns (r: Result<(seq<Counter>, nat)>)
    ensures r == GetCounters(cfg, data[..], start, SignedCount(nr))
  {
    hide GetU64, GetOption, GetCounters, Prepend;
    ghost var d := data[..];
    var counters, offset, i, n := [], start, 0, SignedCount(nr);
    PrependNone(GetCounters(cfg, d, start, n));
    while i < n
      invariant 0 <= i <= n
      invariant Prepend(counters, GetCounters(cfg, d, offset, n - i)) == GetCounters(cfg, d, start, n)
    {
      CounterStep(cfg, d, offset, n - i);
      PrependFault<Counter>(counters);
      var value :- ReadU64(data, offset);
      offset := offset + 8;
      var id :- ReadOption(Reports(cfg, FORMAT_ID), data, offset);
      if Reports(cfg, FORMAT_ID) {
        offset := offset + 8;
      }
      PrependLaw(counters, Counter(value, id), GetCounters(cfg, d, offset, n - i - 1));
      counters := counters + [Counter(value, id)];
      i := i + 1;
    }
    PrependDone(counters, offset);
    assert GetCounters(cfg, d, offset, 0) == Ok(([], offset)) by { NoCounters(cfg, d, offset); }
    return Ok((counters, offset));
  }

  lemma NoCounters(cfg: Config, d: seq<byte>, off: nat)
    ensures GetCounters(cfg, d, off, 0) == Ok(([], off))
  {
  }

  lemma PrependNone<T>(r: Result<(seq<T>, nat)>)
    ensures Prepend([], r) == r
  {
    if r.Ok? { assert [] + r.value.0 == r.value.0; }
  }

  lemma PrependDone<T>(xs: seq<T>, o: nat)
    ensures Prepend(xs, Ok(([], o))) == Ok((xs, o))
  {
    assert xs + [] == xs;
  }

  lemma PrependFault<T>(xs: seq<T>)
    ensures Prepend(xs, Fault) == Fault
  {
  }

  /** Returns the values and, like the C function, the number of bytes they took. */
  method HandleStructReadFormat(cfg: Config, data: array<byte>, start: nat) returns (r: Result<(ReadValues, nat)>)
    ensures GetRead(cfg, data[..], start) ==
            (match r case Fault => Fault case Ok(p) => Ok((p.0, start + p.1)))
  {
    hide GetU64, GetOption, GetCounters;
    var offset := 0;
    if Reports(cfg, FORMAT_GROUP) {
      var nr :- ReadU64(data, start + offset);
      offset := offset + 8;
      var enabled :- ReadOption(Reports(cfg, FORMAT_TOTAL_TIME_ENABLED), data, start + offset);
      if Reports(cfg, FORMAT_TOTAL_TIME_ENABLED) {
        offset := offset + 8;
      }
      var running :- ReadOption(Reports(cfg, FORMAT_TOTAL_TIME_RUNNING), data, start + offset);
      if Reports(cfg, FORMAT_TOTAL_TIME_RUNNING) {
        offset := offset + 8;
      }
      var tail :- ReadCounters(cfg, data, start + offset, nr);
      FieldLaws.CountersLaw(cfg, data[..], start + offset, SignedCount(nr), tail.0, tail.1);
      offset := tail.1 - start;
      return Ok((Group(nr, enabled, running, tail.0), offset));
    } else {
      var value :- ReadU64(data, start + offset);
      offset := offset + 8;
      var enabled :- ReadOption(Reports(cfg, FORMAT_TOTAL_TIME_ENABLED), data, start + offset);
      if Reports(cfg, FORMAT_TOTAL_TIME_ENABLED) {
        offset := offset + 8;
      }
      var running :- ReadOption(Reports(cfg, FORMAT_TOTAL_TIME_RUNNING), data, start + offset);
      if Reports(cfg, FORMAT_TOTAL_TIME_RUNNING) {
        offset := offset + 8;
      }
      var id :- ReadOption(Reports(cfg, FORMAT_ID), data, start + offset);
      if Reports(cfg, FORMAT_ID) {
        offset := offset + 8;
      }
      return Ok((Single(value, enabled, running, id), offset));
    }
  }

  // ---- print_regs ----

  lemma RegStep(mask: bv64, d: seq<byte>, off: nat, i: nat)
    requires i < 64
    ensures GetRegs(mask, d, off, i) ==
            if RegBit(mask, i) then
              (match GetU64(d, off)
               case Fault => Fault
               case Ok(v) => Front([Reg(i, v)], GetRegs(mask, d, off + 8, i + 1)))
            else GetRegs(mask, d, off, i + 1)
  {
    hide GetU64;
  }

  method PrintRegs(mask: bv64, data: array<byte>, start: nat) returns (r: Result<(seq<Reg>, nat)>)
    ensures GetRegs(mask, data[..], start, 0) == (match r case Fault => Fault case Ok(p) => Ok(p.0))
    ensures r.Ok? ==> r.value.1 == 8 * |r.value.0| == 8 * Weight(mask)
  {
    hide GetU64, GetRegs, Front, RegBit;
    ghost var d := data[..];
    var regs, returnOffset := [], 0;
    FrontNone(GetRegs(mask, d, start, 0));
    for i := 0 to 64
      invariant returnOffset == 8 * |regs|
      invariant |regs| + |SetBits(mask, i)| == Weight(mask)
      invariant Front(regs, GetRegs(mask, d, start + returnOffset, i)) == GetRegs(mask, d, start, 0)
    {
      RegStep(mask, d, start + returnOffset, i);
      if RegBit(mask, i) {
        FrontFault<Reg>(regs);
        var regValue :- ReadU64(data, start + returnOffset);
        FrontLaw(regs, Reg(i, regValue), GetRegs(mask, d, start + returnOffset + 8, i + 1));
        regs := regs + [Reg(i, regValue)];
        returnOffset := returnOffset + 8;
      }
    }
    assert GetRegs(mask, d, start + returnOffset, 64) == Ok([]) by { NoRegs(mask, d, start + returnOffset); }
    FrontDone(regs);
    return Ok((regs, returnOffset));
  }

  lemma NoRegs(mask: bv64, d: seq<byte>, off: nat)
    ensures GetRegs(mask, d, off, 64) == Ok([])
  {
  }

  lemma FrontNone<T>(r: Result<seq<T>>)
    ensures Front([], r) == r
  {
    if r.Ok? { assert [] + r.value == r.value; }
  }

  lemma FrontDone<T>(xs: seq<T>)
    ensures Front(xs, Ok([])) == Ok(xs)
  {
    assert xs + [] == xs;
  }

  lemma FrontFault<T>(xs: seq<T>)
    ensures Front(xs, Fault) == Fault
  {
  }

  // ---- the counted arrays ----

  lemma WordStep(d: seq<byte>, off: nat, n: nat)
    requires n > 0
    ensures GetWords(d, off, n) ==
            (match GetU64(d, off)
             case Fault => Fault
             case Ok(w) => Front([w], GetWords(d, off + 8, n - 1)))
    ensures GetWords(d, off, 0) == Ok([])
  {
    hide GetU64;
  }

  method ReadCallchain(data: array<byte>, start: nat, nr: u64) returns (r: Result<seq<u64>>)
    ensures r == GetWords(data[..], start, SignedCount(nr))
  {
    hide GetU64, GetWords, Front;
    ghost var d := data[..];
    var ips, offset, i, n := [], start, 0, SignedCount(nr);
    FrontNone(GetWords(d, start, n));
    while i < n
      invariant 0 <= i <= n && offset == start + 8 * i
      invariant Front(ips, GetWords(d, offset, n - i)) == GetWords(d, start, n)
    {
      WordStep(d, offset, n - i);
      FrontFault<u64>(ips);
      var ip :- ReadU64(data, offset);
      FrontLaw(ips, ip, GetWords(d, offset + 8, n - i - 1));
      ips := ips + [ip];
      offset := offset + 8;
      i := i + 1;
    }
    WordStep(d, offset, 1);
    FrontDone(ips);
    return Ok(ips);
  }

  lemma BranchStep(d: seq<byte>, off: nat, n: nat)
    requires n > 0
    ensures GetBranches(d, off, n) ==
            (match GetU64(d, off)
             case Fault => Fault
             case Ok(from) =>
               match GetU64(d, off + 8)
               case Fault => Fault
               case Ok(to) =>
                 match GetU64(d, off + 16)
                 case Fault => Fault
                 case Ok(flags) => Front([Branch(from, to, flags)], GetBranches(d, off + 24, n - 1)))
    ensures GetBranches(d, off, 0) == Ok([])
  {
    hide GetU64;
  }

  method ReadBranchStack(data: array<byte>, start: nat, bnr: u64) returns (r: Result<seq<Branch>>)
    ensures r == GetBranches(data[..], start, SignedCount(bnr))
  {
    hide GetU64, GetBranches, Front;
    ghost var d := data[..];
    var entries, offset, i, n := [], start, 0, SignedCount(bnr);
    FrontNone(GetBranches(d, start, n));
    while i < n
      invariant 0 <= i <= n && offset == start + 24 * i
      invariant Front(entries, GetBranches(d, offset, n - i)) == GetBranches(d, start, n)
    {
      BranchStep(d, offset, n - i);
      FrontFault<Branch>(entries);
      var from :- ReadU64(data, offset);
      var to :- ReadU64(data, offset + 8);
      var flags :- ReadU64(data, offset + 16);
      FrontLaw(entries, Branch(from, to, flags), GetBranches(d, offset + 24, n - i - 1));
      entries := entries + [Branch(from, to, flags)];
      offset := offset + 24;
      i := i + 1;
    }
    BranchStep(d, offset, 1);
    FrontDone(entries);
    return Ok(entries);
  }

  // ---- the `if` ladder ----

  /** One rung: fields read so far, then field k if it is asked for, then the rest. */
  lemma Rung(cfg: Config, k: Kind, rest: seq<Kind>, d: seq<byte>, off: nat, fields: seq<Field>)
    ensures Prepend(fields, DecodeFields(cfg, Wanted(cfg, k) + rest, d, off)) ==
            if Has(cfg, k) then
              (match DecodeField(cfg, k, d, off)
               case Fault => Fault
               case Ok(p) => Prepend(fields + [p.0], DecodeFields(cfg, rest, d, p.1)))
            else Prepend(fields, DecodeFields(cfg, rest, d, off))
  {
    hide DecodeField, Has;
    if Has(cfg, k) {
      var ks := [k] + rest;
      assert ks[0] == k && ks[1..] == rest;
      var r := DecodeField(cfg, k, d, off);
      if r.Ok? {
        assert DecodeFields(cfg, ks, d, off) == Prepend([r.value.0], DecodeFields(cfg, rest, d, r.value.1));
        PrependLaw(fields, r.value.0, DecodeFields(cfg, rest, d, r.value.1));
      }
    } else {
      assert [] + rest == rest;
    }
  }

  lemma NoFields(cfg: Config, d: seq<byte>, off: nat, fields: seq<Field>)
    ensures Prepend(fields, DecodeFields(cfg, [], d, off)) == Ok((fields, off))
  {
    PrependDone(fields, off);
  }

  lemma FourRungs(cfg: Config, a: Kind, b: Kind, c: Kind, e: Kind)
    ensures Wanted(cfg, a) + Wanted(cfg, b) + Wanted(cfg, c) + Wanted(cfg, e) ==
            Wanted(cfg, a) + (Wanted(cfg, b) + (Wanted(cfg, c) + (Wanted(cfg, e) + [])))
  {
    hide Wanted;
  }

  method ReadWordField(cfg: Config, k: Kind, data: array<byte>, off: nat) returns (r: Result<Field>)
    requires WordKind(k)
    ensures DecodeField(cfg, k, data[..], off) ==
            (match r case Fault => Fault case Ok(f) => Ok((f, off + 8)))
  {
    hide GetU64;
    var v :- ReadU64(data, off);
    return Ok(Word(k, v));
  }

  method ReadPairField(cfg: Config, k: Kind, data: array<byte>, off: nat) returns (r: Result<Field>)
    requires PairKind(k)
    ensures DecodeField(cfg, k, data[..], off) ==
            (match r case Fault => Fault case Ok(f) => Ok((f, off + 8)))
  {
    hide GetU32;
    var lo :- ReadU32(data, off);
    var hi :- ReadU32(data, off + 4);
    return Ok(Pair(k, lo, hi));
  }

  /** IP to ADDR. */
  method ReadPlace(cfg: Config, data: array<byte>, start: nat) returns (r: Result<(seq<Field>, nat)>)
    ensures r == DecodeFields(cfg, PlaceKinds(cfg), data[..], start)
  {
    hide DecodeField, DecodeFields, Wanted, Has, Prepend;
    ghost var d := data[..];
    ghost var k3 := Wanted(cfg, ADDR) + [];
    ghost var k2 := Wanted(cfg, TIME) + k3;
    ghost var k1 := Wanted(cfg, TID) + k2;
    FourRungs(cfg, IP, TID, TIME, ADDR);
    var fields, offset := [], start;
    ghost var all := DecodeFields(cfg, PlaceKinds(cfg), d, start);
    PrependNone(all);
    Rung(cfg, IP, k1, d, offset, fields);
    if Has(cfg, IP) {
      var f :- ReadWordField(cfg, IP, data, offset);
      fields, offset := fields + [f], offset + 8;
    }
    assert all == Prepend(fields, DecodeFields(cfg, k1, d, offset));
    Rung(cfg, TID, k2, d, offset, fields);
    if Has(cfg, TID) {
      var f :- ReadPairField(cfg, TID, data, offset);
      fields, offset := fields + [f], offset + 8;
    }
    assert all == Prepend(fields, DecodeFields(cfg, k2, d, offset));
    Rung(cfg, TIME, k3, d, offset, fields);
    if Has(cfg, TIME) {
      var f :- ReadWordField(cfg, TIME, data, offset);
      fields, offset := fields + [f], offset + 8;
    }
    assert all == Prepend(fields, DecodeFields(cfg, k3, d, offset));
    Rung(cfg, ADDR, [], d, offset, fields);
    if Has(cfg, ADDR) {
      var f :- ReadWordField(cfg, ADDR, data, offset);
      fields, offset := fields + [f], offset + 8;
    }
    assert all == Prepend(fields, DecodeFields(cfg, [], d, offset));
    NoFields(cfg, d, offset, fields);
    return Ok((fields, offset));
  }

  /** ID to PERIOD. */
  method ReadOrigin(cfg: Config, data: array<byte>, start: nat) returns (r: Result<(seq<Field>, nat)>)
    ensures r == DecodeFields(cfg, OriginKinds(cfg), data[..], start)
  {
    hide DecodeField, DecodeFields, Wanted, Has, Prepend;
    ghost var d := data[..];
    ghost var k3 := Wanted(cfg, PERIOD) + [];
    ghost var k2 := Wanted(cfg, CPU) + k3;
    ghost var k1 := Wanted(cfg, STREAM_ID) + k2;
    FourRungs(cfg, ID, STREAM_ID, CPU, PERIOD);
    var fields, offset := [], start;
    ghost var all := DecodeFields(cfg, OriginKinds(cfg), d, start);
    PrependNone(all);
    Rung(cfg, ID, k1, d, offset, fields);
    if Has(cfg, ID) {
      var f :- ReadWordField(cfg, ID, data, offset);
      fields, offset := fields + [f], offset + 8;
    }
    assert all == Prepend(fields, DecodeFields(cfg, k1, d, offset));
    Rung(cfg, STREAM_ID, k2, d, offset, fields);
    if Has(cfg, STREAM_ID) {
      var f :- ReadWordField(cfg, STREAM_ID, data, offset);
      fields, offset := fields + [f], offset + 8;
    }
    assert all == Prepend(fields, DecodeFields(cfg, k2, d, offset));
    Rung(cfg, CPU, k3, d, offset, fields);
    if Has(cfg, CPU) {
      var f :- ReadPairField(cfg, CPU, data, offset);
      fields, offset := fields + [f], offset + 8;
    }
    assert all == Prepend(fields, DecodeFields(cfg, k3, d, offset));
    Rung(cfg, PERIOD, [], d, offset, fields);
    if Has(cfg, PERIOD) {
      var f :- ReadWordField(cfg, PERIOD, data, offset);
      fields, offset := fields + [f], offset + 8;
    }
    assert all == Prepend(fields, DecodeFields(cfg, [], d, offset));
    NoFields(cfg, d, offset, fields);
    return Ok((fields, offset));
  }

  lemma BulkRungs(cfg: Config)
    ensures BulkKinds(cfg) ==
            Wanted(cfg, READ) + (Wanted(cfg, CALLCHAIN) + (Wanted(cfg, RAW) + (Wanted(cfg, BRANCH_STACK) +
            (Wanted(cfg, REGS_USER) + []))))
  {
    hide Wanted;
  }

  method ReadCallchainField(cfg: Config, data: array<byte>, off: nat) returns (r: Result<(Field, nat)>)
    ensures r == DecodeField(cfg, CALLCHAIN, data[..], off)
  {
    hide GetU64, GetWords;
    var nr :- ReadU64(data, off);
    var ips :- ReadCallchain(data, off + 8, nr);
    return Ok((Callchain(nr, ips), off + 8 + 8 * |ips|));
  }

  /** The inner `size` is a variable of this case alone. */
  method ReadRawField(cfg: Config, data: array<byte>, off: nat) returns (r: Result<(Field, nat)>)
    ensures r == DecodeField(cfg, RAW, data[..], off)
  {
    hide GetU32, GetBytes;
    var word :- ReadU32(data, off);
    var size: int := if word < 0x8000_0000 then word else (word as int) - 0x1_0000_0000;
    var bytes :- ReadBytes(data, off + 4, size);
    return Ok((Raw(bytes), off + 4 + |bytes|));
  }

  method ReadBranchField(cfg: Config, data: array<byte>, off: nat) returns (r: Result<(Field, nat)>)
    ensures r == DecodeField(cfg, BRANCH_STACK, data[..], off)
  {
    hide GetU64, GetBranches;
    var bnr :- ReadU64(data, off);
    var entries :- ReadBranchStack(data, off + 8, bnr);
    return Ok((BranchStack(bnr, entries), off + 8 + 24 * |entries|));
  }

  method ReadRegsField(cfg: Config, k: Kind, data: array<byte>, off: nat) returns (r: Result<(Field, nat)>)
    requires RegsKind(k)
    ensures r == DecodeField(cfg, k, data[..], off)
  {
    hide GetU64, GetRegs;
    var abi :- ReadU64(data, off);
    var p :- PrintRegs(cfg.regMask, data, off + 8);
    return Ok((Registers(k, abi, p.0), off + 8 + p.1));
  }

  method ReadStackField(cfg: Config, data: array<byte>, off: nat) returns (r: Result<(Field, nat)>)
    ensures r == DecodeField(cfg, STACK_USER, data[..], off)
  {
    hide GetU64, GetBytes;
    var word :- ReadU64(data, off);
    var size: int := if word < 0x8000_0000_0000_0000 then word else -1;
    var stack :- ReadBytes(data, off + 8, size);
    var dynSize :- ReadU64(data, off + 8 + |stack|);
    return Ok((StackUser(stack, dynSize), off + 16 + |stack|));
  }

  method ReadReadField(cfg: Config, data: array<byte>, off: nat) returns (r: Result<(Field, nat)>)
    ensures r == DecodeField(cfg, READ, data[..], off)
  {
    hide GetRead;
    var p :- HandleStructReadFormat(cfg, data, off);
    return Ok((ReadFormat(p.0), off + p.1));
  }

  /** READ to REGS_USER. */
  method ReadBulk(cfg: Config, data: array<byte>, start: nat) returns (r: Result<(seq<Field>, nat)>)
    ensures r == DecodeFields(cfg, BulkKinds(cfg), data[..], start)
  {
    hide DecodeField, DecodeFields, Wanted, Has, Prepend;
    ghost var d := data[..];
    ghost var k4 := Wanted(cfg, REGS_USER) + [];
    ghost var k3 := Wanted(cfg, BRANCH_STACK) + k4;
    ghost var k2 := Wanted(cfg, RAW) + k3;
    ghost var k1 := Wanted(cfg, CALLCHAIN) + k2;
    BulkRungs(cfg);
    var fields, offset := [], start;
    ghost var all := DecodeFields(cfg, BulkKinds(cfg), d, start);
    PrependNone(all);
    Rung(cfg, READ, k1, d, offset, fields);
    if Has(cfg, READ) {
      var p :- ReadReadField(cfg, data, offset);
      fields, offset := fields + [p.0], p.1;
    }
    assert all == Prepend(fields, DecodeFields(cfg, k1, d, offset));
    Rung(cfg, CALLCHAIN, k2, d, offset, fields);
    if Has(cfg, CALLCHAIN) {
      var p :- ReadCallchainField(cfg, data, offset);
      fields, offset := fields + [p.0], p.1;
    }
    assert all == Prepend(fields, DecodeFields(cfg, k2, d, offset));
    Rung(cfg, RAW, k3, d, offset, fields);
    if Has(cfg, RAW) {
      var p :- ReadRawField(cfg, data, offset);
      fields, offset := fields + [p.0], p.1;
    }
    assert all == Prepend(fields, DecodeFields(cfg, k3, d, offset));
    Rung(cfg, BRANCH_STACK, k4, d, offset, fields);
    if Has(cfg, BRANCH_STACK) {
      var p :- ReadBranchField(cfg, data, offset);
      fields, offset := fields + [p.0], p.1;
    }
    assert all == Prepend(fields, DecodeFields(cfg, k4, d, offset));
    Rung(cfg, REGS_USER, [], d, offset, fields);
    if Has(cfg, REGS_USER) {
      var p :- ReadRegsField(cfg, REGS_USER, data, offset);
      fields, offset := fields + [p.0], p.1;
    }
    assert all == Prepend(fields, DecodeFields(cfg, [], d, offset));
    NoFields(cfg, d, offset, fields);
    return Ok((fields, offset));
  }

  function TailFront(cfg: Config): seq<Kind> {
    Wanted(cfg, REGS_INTR) + (Wanted(cfg, STACK_USER) + (Wanted(cfg, WEIGHT) + []))
  }

  function TailBack(cfg: Config): seq<Kind> {
    Wanted(cfg, DATA_SRC) + (Wanted(cfg, IDENTIFIER) + (Wanted(cfg, TRANSACTION) + []))
  }

  lemma TailHalves(cfg: Config)
    ensures DecoderTail(cfg) == TailFront(cfg) + TailBack(cfg)
  {
    hide Wanted;
  }

  method ReadTailFront(cfg: Config, data: array<byte>, start: nat) returns (r: Result<(seq<Field>, nat)>)
    ensures r == DecodeFields(cfg, TailFront(cfg), data[..], start)
  {
    hide DecodeField, DecodeFields, Wanted, Has, Prepend;
    ghost var d := data[..];
    ghost var k2 := Wanted(cfg, WEIGHT) + [];
    ghost var k1 := Wanted(cfg, STACK_USER) + k2;
    var fields, offset := [], start;
    ghost var all := DecodeFields(cfg, TailFront(cfg), d, start);
    PrependNone(all);
    Rung(cfg, REGS_INTR, k1, d, offset, fields);
    if Has(cfg, REGS_INTR) {
      var p :- ReadRegsField(cfg, REGS_INTR, data, offset);
      fields, offset := fields + [p.0], p.1;
    }
    assert all == Prepend(fields, DecodeFields(cfg, k1, d, offset));
    Rung(cfg, STACK_USER, k2, d, offset, fields);
    if Has(cfg, STACK_USER) {
      var p :- ReadStackField(cfg, data, offset);
      fields, offset := fields + [p.0], p.1;
    }
    assert all == Prepend(fields, DecodeFields(cfg, k2, d, offset));
    Rung(cfg, WEIGHT, [], d, offset, fields);
    if Has(cfg, WEIGHT) {
      var f :- ReadWordField(cfg, WEIGHT, data, offset);
      fields, offset := fields + [f], offset + 8;
    }
    assert all == Prepend(fields, DecodeFields(cfg, [], d, offset));
    NoFields(cfg, d, offset, fields);
    return Ok((fields, offset));
  }

  method ReadTailBack(cfg: Config, data: array<byte>, start: nat) returns (r: Result<(seq<Field>, nat)>)
    ensures r == DecodeFields(cfg, TailBack(cfg), data[..], start)
  {
    hide DecodeField, DecodeFields, Wanted, Has, Prepend;
    ghost var d := data[..];
    ghost var k2 := Wanted(cfg, TRANSACTION) + [];
    ghost var k1 := Wanted(cfg, IDENTIFIER) + k2;
    var fields, offset := [], start;
    ghost var all := DecodeFields(cfg, TailBack(cfg), d, start);
    PrependNone(all);
    Rung(cfg, DATA_SRC, k1, d, offset, fields);
    if Has(cfg, DATA_SRC) {
      var f :- ReadWordField(cfg, DATA_SRC, data, offset);
      fields, offset := fields + [f], offset + 8;
    }
    assert all == Prepend(fields, DecodeFields(cfg, k1, d, offset));
    Rung(cfg, IDENTIFIER, k2, d, offset, fields);
    if Has(cfg, IDENTIFIER) {
      var f :- ReadWordField(cfg, IDENTIFIER, data, offset);
      fields, offset := fields + [f], offset + 8;
    }
    assert all == Prepend(fields, DecodeFields(cfg, k2, d, offset));
    Rung(cfg, TRANSACTION, [], d, offset, fields);
    if Has(cfg, TRANSACTION) {
      var f :- ReadWordField(cfg, TRANSACTION, data, offset);
      fields, offset := fields + [f], offset + 8;
    }
    assert all == Prepend(fields, DecodeFields(cfg, [], d, offset));
    NoFields(cfg, d, offset, fields);
    return Ok((fields, offset));
  }

  /** REGS_INTR to TRANSACTION, in the order of the code. */
  method ReadTail(cfg: Config, data: array<byte>, start: nat) returns (r: Result<(seq<Field>, nat)>)
    ensures r == DecodeFields(cfg, DecoderTail(cfg), data[..], start)
  {
    hide DecodeFields, DecoderTail, TailFront, TailBack;
    TailHalves(cfg);
    DecodeAppend(cfg, TailFront(cfg), TailBack(cfg), data[..], start);
    var a :- ReadTailFront(cfg, data, start);
    var b :- ReadTailBack(cfg, data, a.1);
    return Ok((a.0 + b.0, b.1));
  }

  /** The whole PERF_RECORD_SAMPLE case. */
  method ReadSample(cfg: Config, data: array<byte>, start: nat) returns (r: Result<(seq<Field>, nat)>)
    ensures r == DecodeSample(cfg, data[..], start)
  {
    hide DecodeFields, PlaceKinds, OriginKinds, BulkKinds, DecoderTail;
    DecodeAppend(cfg, PlaceKinds(cfg), OriginKinds(cfg), data[..], start);
    DecodeAppend(cfg, PlaceKinds(cfg) + OriginKinds(cfg), BulkKinds(cfg), data[..], start);
    DecodeAppend(cfg, CommonKinds(cfg), DecoderTail(cfg), data[..], start);
    var a :- ReadPlace(cfg, data, start);
    var b :- ReadOrigin(cfg, data, a.1);
    var c :- ReadBulk(cfg, data, b.1);
    var e :- ReadTail(cfg, data, c.1);
    return Ok((a.0 + b.0 + c.0 + e.0, e.1));
  }
}
