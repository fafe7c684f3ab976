/** Where in the buffer each reported number stands. This is a reading of the layout that
    uses neither the encoder nor the cursor: offsets are counted from the start of a field
    or of a record, entry i of an array is found by multiplication, and numbers are spelled
    out byte by byte. */
module Positions {
  import opened Orders
  import opened Bytes
  import opened Layout
  import opened Decoder
  import opened Records
  import opened RecordDecoder
  import opened RecordLaws
  import opened RegisterMasks
  import opened FieldLaws
  import opened FieldOrder

  // ---- Numbers ----

  function Quad(a: nat, b: nat, c: nat, e: nat): nat {
    a + 0x100 * b + 0x1_0000 * c + 0x100_0000 * e
  }

  predicate IsShort(d: seq<byte>, off: nat, v: nat) {
    off + 2 <= |d| && v == Quad(d[off], d[off + 1], 0, 0)
  }

  predicate IsInt(d: seq<byte>, off: nat, v: nat) {
    off + 4 <= |d| && v == Quad(d[off], d[off + 1], d[off + 2], d[off + 3])
  }

  predicate IsLong(d: seq<byte>, off: nat, v: nat) {
    && off + 8 <= |d|
    && v == Quad(d[off], d[off + 1], d[off + 2], d[off + 3]) +
            0x1_0000_0000 * Quad(d[off + 4], d[off + 5], d[off + 6], d[off + 7])
  }

  lemma FromLETwo(b: seq<byte>)
    requires |b| >= 2
    ensures FromLE(b) == Quad(b[0], b[1], FromLE(b[2..]), 0)
  {
    assert b[1..][0] == b[1] && b[1..][1..] == b[2..];
  }

  lemma FromLEFour(b: seq<byte>)
    requires |b| >= 4
    ensures FromLE(b) == Quad(b[0], b[1], b[2], b[3]) + 0x1_0000_0000 * FromLE(b[4..])
  {
    FromLETwo(b);
    FromLETwo(b[2..]);
    assert b[2..][2..] == b[4..];
  }

  lemma ShortAt(d: seq<byte>, off: nat, v: u16)
    ensures GetU16(d, off) == Ok(v) <==> IsShort(d, off, v)
  {
    Widths();
    if off + 2 <= |d| { FromLETwo(d[off..off + 2]); }
  }

  lemma IntAt(d: seq<byte>, off: nat, v: u32)
    ensures GetU32(d, off) == Ok(v) <==> IsInt(d, off, v)
  {
    Widths();
    if off + 4 <= |d| { FromLEFour(d[off..off + 4]); }
  }

  lemma LongAt(d: seq<byte>, off: nat, v: u64)
    ensures GetU64(d, off) == Ok(v) <==> IsLong(d, off, v)
  {
    Widths();
    if off + 8 <= |d| {
      var b := d[off..off + 8];
      FromLEFour(b);
      FromLEFour(b[4..]);
      assert b[4..][4..] == [];
    }
  }

  // ---- Arrays ----

  predicate WordsAt(d: seq<byte>, off: nat, ws: seq<u64>) {
    forall i :: 0 <= i < |ws| ==> IsLong(d, off + 8 * i, ws[i])
  }

  predicate BranchAt(d: seq<byte>, off: nat, b: Branch) {
    IsLong(d, off, b.from) && IsLong(d, off + 8, b.to) && IsLong(d, off + 16, b.flags)
  }

  predicate BranchesAt(d: seq<byte>, off: nat, es: seq<Branch>) {
    forall i :: 0 <= i < |es| ==> BranchAt(d, off + 24 * i, es[i])
  }

  predicate RegsAt(d: seq<byte>, off: nat, regs: seq<Reg>) {
    forall i :: 0 <= i < |regs| ==> IsLong(d, off + 8 * i, regs[i].value)
  }

  predicate OptionAt(present: bool, d: seq<byte>, off: nat, o: Option<u64>) {
    match o
    case None => !present
    case Some(v) => present && IsLong(d, off, v)
  }

  /** A counter, and behind it its id if there is one. */
  predicate CounterAt(ids: bool, d: seq<byte>, off: nat, c: Counter) {
    IsLong(d, off, c.value) && OptionAt(ids, d, off + 8, c.id)
  }

  predicate CountersAt(ids: bool, d: seq<byte>, off: nat, cs: seq<Counter>) {
    forall i :: 0 <= i < |cs| ==> CounterAt(ids, d, off + if ids then 16 * i else 8 * i, cs[i])
  }

  lemma WordsAtCons(d: seq<byte>, off: nat, ws: seq<u64>)
    requires ws != []
    ensures WordsAt(d, off, ws) <==> IsLong(d, off, ws[0]) && WordsAt(d, off + 8, ws[1..])
  {
    hide IsLong;
    if WordsAt(d, off, ws) {
      forall i | 0 <= i < |ws| - 1 ensures IsLong(d, off + 8 + 8 * i, ws[1..][i]) {
        assert off + 8 + 8 * i == off + 8 * (i + 1);
      }
    }
    if IsLong(d, off, ws[0]) && WordsAt(d, off + 8, ws[1..]) {
      forall i | 0 <= i < |ws| ensures IsLong(d, off + 8 * i, ws[i]) {
        if i > 0 { assert ws[1..][i - 1] == ws[i] && off + 8 + 8 * (i - 1) == off + 8 * i; }
      }
    }
  }

  lemma {:induction false} WordsPositions(d: seq<byte>, off: nat, n: nat, ws: seq<u64>)
    ensures GetWords(d, off, n) == Ok(ws) <==> |ws| == n && WordsAt(d, off, ws)
    decreases n
  {
    if n > 0 && ws != [] {
      WordsAtCons(d, off, ws);
      LongAt(d, off, ws[0]);
      WordsPositions(d, off + 8, n - 1, ws[1..]);
      assert ws == [ws[0]] + ws[1..];
      hide GetU64, IsLong, WordsAt;
    }
  }

  lemma BranchesAtCons(d: seq<byte>, off: nat, es: seq<Branch>)
    requires es != []
    ensures BranchesAt(d, off, es) <==> BranchAt(d, off, es[0]) && BranchesAt(d, off + 24, es[1..])
  {
    hide IsLong, BranchAt;
    if BranchesAt(d, off, es) {
      forall i | 0 <= i < |es| - 1 ensures BranchAt(d, off + 24 + 24 * i, es[1..][i]) {
        assert off + 24 + 24 * i == off + 24 * (i + 1);
      }
    }
    if BranchAt(d, off, es[0]) && BranchesAt(d, off + 24, es[1..]) {
      forall i | 0 <= i < |es| ensures BranchAt(d, off + 24 * i, es[i]) {
        if i > 0 { assert es[1..][i - 1] == es[i] && off + 24 + 24 * (i - 1) == off + 24 * i; }
      }
    }
  }

  lemma {:induction false} BranchesPositions(d: seq<byte>, off: nat, n: nat, es: seq<Branch>)
    ensures GetBranches(d, off, n) == Ok(es) <==> |es| == n && BranchesAt(d, off, es)
    decreases n
  {
    hide GetU64, IsLong;
    if n > 0 && es != [] {
      BranchesAtCons(d, off, es);
      LongAt(d, off, es[0].from);
      LongAt(d, off + 8, es[0].to);
      LongAt(d, off + 16, es[0].flags);
      BranchesPositions(d, off + 24, n - 1, es[1..]);
      assert es == [es[0]] + es[1..];
      hide BranchesAt;
    }
  }

  lemma RegsAtCons(d: seq<byte>, off: nat, regs: seq<Reg>)
    requires regs != []
    ensures RegsAt(d, off, regs) <==> IsLong(d, off, regs[0].value) && RegsAt(d, off + 8, regs[1..])
  {
    hide IsLong;
    if RegsAt(d, off, regs) {
      forall i | 0 <= i < |regs| - 1 ensures IsLong(d, off + 8 + 8 * i, regs[1..][i].value) {
        assert off + 8 + 8 * i == off + 8 * (i + 1);
      }
    }
    if IsLong(d, off, regs[0].value) && RegsAt(d, off + 8, regs[1..]) {
      forall i | 0 <= i < |regs| ensures IsLong(d, off + 8 * i, regs[i].value) {
        if i > 0 { assert regs[1..][i - 1] == regs[i] && off + 8 + 8 * (i - 1) == off + 8 * i; }
      }
    }
  }

  lemma {:induction false} RegsPositions(mask: bv64, d: seq<byte>, off: nat, i: nat, regs: seq<Reg>)
    requires i <= 64
    ensures GetRegs(mask, d, off, i) == Ok(regs) <==> RegIndices(regs) == SetBits(mask, i) && RegsAt(d, off, regs)
    decreases 64 - i
  {
    hide GetU64, IsLong, RegBit, RegsAt;
    if i == 64 {
      NoRegs(d, off);
      assert |RegIndices(regs)| == |regs|;
    } else if !RegBit(mask, i) {
      RegsPositions(mask, d, off, i + 1, regs);
    } else if regs != [] {
      RegsAtCons(d, off, regs);
      LongAt(d, off, regs[0].value);
      RegsPositions(mask, d, off + 8, i + 1, regs[1..]);
      var bits := SetBits(mask, i + 1);
      assert regs == [regs[0]] + regs[1..];
      assert RegIndices(regs)[0] == regs[0].index && RegIndices(regs)[1..] == RegIndices(regs[1..]);
      assert ([i] + bits)[0] == i && ([i] + bits)[1..] == bits;
      assert RegIndices(regs) == [regs[0].index] + RegIndices(regs[1..]);
    } else {
      assert |RegIndices(regs)| == 0;
    }
  }

  lemma NoRegs(d: seq<byte>, off: nat)
    ensures RegsAt(d, off, [])
  {
  }

  lemma OptionPositions(present: bool, d: seq<byte>, off: nat, o: Option<u64>)
    ensures GetOption(present, d, off) == Ok((o, if present then off + 8 else off)) <==> OptionAt(present, d, off, o)
  {
    hide GetU64, IsLong;
    if o.Some? { LongAt(d, off, o.value); }
  }

  function CounterSize(ids: bool): nat { if ids then 16 else 8 }

  lemma CountersAtCons(ids: bool, d: seq<byte>, off: nat, cs: seq<Counter>)
    requires cs != []
    ensures CountersAt(ids, d, off, cs) <==>
            CounterAt(ids, d, off, cs[0]) && CountersAt(ids, d, off + CounterSize(ids), cs[1..])
  {
    hide CounterAt;
    var o1 := off + CounterSize(ids);
    if CountersAt(ids, d, off, cs) {
      forall i | 0 <= i < |cs| - 1 ensures CounterAt(ids, d, o1 + if ids then 16 * i else 8 * i, cs[1..][i]) {
        assert CounterAt(ids, d, off + if ids then 16 * (i + 1) else 8 * (i + 1), cs[i + 1]);
      }
    }
    if CounterAt(ids, d, off, cs[0]) && CountersAt(ids, d, o1, cs[1..]) {
      forall i | 0 <= i < |cs| ensures CounterAt(ids, d, off + if ids then 16 * i else 8 * i, cs[i]) {
        if i > 0 { assert CounterAt(ids, d, o1 + if ids then 16 * (i - 1) else 8 * (i - 1), cs[1..][i - 1]); }
      }
    }
  }

  lemma {:induction false} CountersPositions(cfg: Config, d: seq<byte>, off: nat, n: nat, cs: seq<Counter>)
    ensures var ids := FORMAT_ID in cfg.readFormat;
            GetCounters(cfg, d, off, n) == Ok((cs, off + if ids then 16 * n else 8 * n)) <==>
            |cs| == n && CountersAt(ids, d, off, cs)
    decreases n
  {
    hide GetU64, IsLong, GetOption, OptionAt, CountersAt;
    var ids := FORMAT_ID in cfg.readFormat;
    if n == 0 {
      NoCounters(ids, d, off);
    } else if cs != [] {
      CountersAtCons(ids, d, off, cs);
      LongAt(d, off, cs[0].value);
      OptionPositions(ids, d, off + 8, cs[0].id);
      CountersPositions(cfg, d, off + CounterSize(ids), n - 1, cs[1..]);
      assert cs == [cs[0]] + cs[1..];
    }
  }

  lemma NoCounters(ids: bool, d: seq<byte>, off: nat)
    ensures CountersAt(ids, d, off, [])
  {
  }

  lemma {:induction false} CountersEnd(cfg: Config, d: seq<byte>, off: nat, n: nat)
    ensures var r := GetCounters(cfg, d, off, n);
            r.Ok? ==> r.value.1 == off + if FORMAT_ID in cfg.readFormat then 16 * n else 8 * n
    decreases n
  {
    hide GetU64;
    if n > 0 { CountersEnd(cfg, d, off + CounterSize(FORMAT_ID in cfg.readFormat), n - 1); }
  }

  // ---- Fields ----

  /** A count is taken as it stands, but for a sign bit, which means none. */
  predicate Counted(nr: u64, entries: nat) {
    entries == if nr < 0x8000_0000_0000_0000 then nr else 0
  }

  predicate ReadAt(cfg: Config, d: seq<byte>, off: nat, rv: ReadValues, end: nat) {
    var times := FORMAT_TOTAL_TIME_ENABLED in cfg.readFormat;
    var runs := FORMAT_TOTAL_TIME_RUNNING in cfg.readFormat;
    var ids := FORMAT_ID in cfg.readFormat;
    var o1 := off + if times then 16 else 8;
    var o2 := o1 + if runs then 8 else 0;
    match rv
    case Group(nr, enabled, running, counters) =>
      && FORMAT_GROUP in cfg.readFormat && IsLong(d, off, nr)
      && OptionAt(times, d, off + 8, enabled) && OptionAt(runs, d, o1, running)
      && Counted(nr, |counters|) && CountersAt(ids, d, o2, counters)
      && end == o2 + if ids then 16 * |counters| else 8 * |counters|
    case Single(value, enabled, running, id) =>
      && FORMAT_GROUP !in cfg.readFormat && IsLong(d, off, value)
      && OptionAt(times, d, off + 8, enabled) && OptionAt(runs, d, o1, running)
      && OptionAt(ids, d, o2, id)
      && end == o2 + if ids then 8 else 0
  }

  lemma ReadPositions(cfg: Config, d: seq<byte>, off: nat, rv: ReadValues, end: nat)
    ensures GetRead(cfg, d, off) == Ok((rv, end)) <==> ReadAt(cfg, d, off, rv, end)
  {
    hide GetU64, IsLong, GetOption, OptionAt, GetCounters, CountersAt;
    var times, runs := FORMAT_TOTAL_TIME_ENABLED in cfg.readFormat, FORMAT_TOTAL_TIME_RUNNING in cfg.readFormat;
    var ids := FORMAT_ID in cfg.readFormat;
    var o1 := off + if times then 16 else 8;
    var o2 := o1 + if runs then 8 else 0;
    OptionPositions(times, d, off + 8, rv.enabled);
    OptionPositions(runs, d, o1, rv.running);
    match rv
    case Group(nr, _, _, cs) =>
      LongAt(d, off, nr);
      CountersPositions(cfg, d, o2, SignedCount(nr), cs);
      CountersEnd(cfg, d, o2, SignedCount(nr));
    case Single(value, _, _, id) =>
      LongAt(d, off, value);
      OptionPositions(ids, d, o2, id);
  }

  predicate BytesAt(d: seq<byte>, off: nat, b: seq<byte>) {
    b != [] ==> off + |b| <= |d| && b == d[off..off + |b|]
  }

  /** Field f of kind k stands at off and ends at end. */
  predicate FieldAt(cfg: Config, k: Kind, d: seq<byte>, off: nat, f: Field, end: nat) {
    && KindOf(f) == k
    && match f
       case Word(_, v) =>
         k !in {TID, CPU, READ, CALLCHAIN, RAW, BRANCH_STACK, REGS_USER, REGS_INTR, STACK_USER} &&
         IsLong(d, off, v) && end == off + 8
       case Pair(_, lo, hi) =>
         k in {TID, CPU} && IsInt(d, off, lo) && IsInt(d, off + 4, hi) && end == off + 8
       case ReadFormat(rv) => ReadAt(cfg, d, off, rv, end)
       case Callchain(nr, ips) =>
         IsLong(d, off, nr) && Counted(nr, |ips|) && WordsAt(d, off + 8, ips) && end == off + 8 + 8 * |ips|
       case Raw(bytes) =>
         |bytes| < 0x8000_0000 && IsInt(d, off, |bytes|) && BytesAt(d, off + 4, bytes) && end == off + 4 + |bytes|
       case BranchStack(bnr, entries) =>
         && IsLong(d, off, bnr) && Counted(bnr, |entries|) && BranchesAt(d, off + 8, entries)
         && end == off + 8 + 24 * |entries|
       case Registers(_, abi, regs) =>
         && k in {REGS_USER, REGS_INTR} && IsLong(d, off, abi)
         && Selects(cfg.regMask, RegIndices(regs)) && RegsAt(d, off + 8, regs)
         && end == off + 8 + 8 * |regs|
       case StackUser(stack, dynSize) =>
         && |stack| < 0x8000_0000_0000_0000 && IsLong(d, off, |stack|) && BytesAt(d, off + 8, stack)
         && IsLong(d, off + 8 + |stack|, dynSize) && end == off + 16 + |stack|
  }

  lemma FixedPositions(cfg: Config, d: seq<byte>, off: nat, f: Field, end: nat)
    requires f.Word? || f.Pair?
    ensures DecodeField(cfg, KindOf(f), d, off) == Ok((f, end)) <==> FieldAt(cfg, KindOf(f), d, off, f, end)
  {
    hide GetU64, GetU32, IsLong, IsInt, GetRead, GetWords, GetBranches, GetRegs, GetBytes;
    match f
    case Word(_, v) => LongAt(d, off, v);
    case Pair(_, lo, hi) =>
      IntAt(d, off, lo);
      IntAt(d, off + 4, hi);
  }

  lemma ArrayPositions(cfg: Config, d: seq<byte>, off: nat, f: Field, end: nat)
    requires f.Callchain? || f.BranchStack?
    ensures DecodeField(cfg, KindOf(f), d, off) == Ok((f, end)) <==> FieldAt(cfg, KindOf(f), d, off, f, end)
  {
    hide GetU64, IsLong, GetWords, WordsAt, GetBranches, BranchesAt;
    match f
    case Callchain(nr, ips) =>
      LongAt(d, off, nr);
      WordsPositions(d, off + 8, SignedCount(nr), ips);
    case BranchStack(bnr, entries) =>
      LongAt(d, off, bnr);
      BranchesPositions(d, off + 8, SignedCount(bnr), entries);
  }

  lemma RegistersPositions(cfg: Config, d: seq<byte>, off: nat, f: Field, end: nat)
    requires f.Registers?
    ensures DecodeField(cfg, KindOf(f), d, off) == Ok((f, end)) <==> FieldAt(cfg, KindOf(f), d, off, f, end)
  {
    hide GetU64, GetU32, IsLong, GetRead, GetWords, GetBranches, GetRegs, RegsAt, GetBytes, SetBits, Selects;
    LongAt(d, off, f.abi);
    RegsPositions(cfg.regMask, d, off + 8, 0, f.regs);
    SetBitsExact(cfg.regMask, RegIndices(f.regs));
  }

  lemma BytesPositions(cfg: Config, d: seq<byte>, off: nat, f: Field, end: nat)
    requires f.Raw? || f.StackUser?
    ensures DecodeField(cfg, KindOf(f), d, off) == Ok((f, end)) <==> FieldAt(cfg, KindOf(f), d, off, f, end)
  {
    hide GetU64, GetU32, IsLong, IsInt;
    match f
    case Raw(bytes) => if |bytes| < 0x8000_0000 { IntAt(d, off, |bytes|); }
    case StackUser(stack, dynSize) =>
      if |stack| < 0x8000_0000_0000_0000 { LongAt(d, off, |stack|); }
      LongAt(d, off + 8 + |stack|, dynSize);
  }

  lemma ReadFieldPositions(cfg: Config, d: seq<byte>, off: nat, f: Field, end: nat)
    requires f.ReadFormat?
    ensures DecodeField(cfg, KindOf(f), d, off) == Ok((f, end)) <==> FieldAt(cfg, KindOf(f), d, off, f, end)
  {
    hide GetRead, ReadAt;
    ReadPositions(cfg, d, off, f.values, end);
    var r := GetRead(cfg, d, off);
    assert r.Ok? ==> r == Ok((r.value.0, r.value.1));
  }

  lemma FieldAtKind(cfg: Config, k: Kind, d: seq<byte>, off: nat, f: Field, end: nat)
    requires FieldAt(cfg, k, d, off, f, end)
    ensures KindOf(f) == k
  {
  }

  /** One rung of the ladder reports exactly what stands there. */
  lemma FieldPositions(cfg: Config, k: Kind, d: seq<byte>, off: nat, f: Field, end: nat)
    ensures DecodeField(cfg, k, d, off) == Ok((f, end)) <==> FieldAt(cfg, k, d, off, f, end)
  {
    hide DecodeField, FieldAt;
    if KindOf(f) != k {
      DecodedKind(cfg, k, d, off);
      if FieldAt(cfg, k, d, off, f, end) { FieldAtKind(cfg, k, d, off, f, end); }
    } else {
      match f
      case Word(_, _) | Pair(_, _, _) => FixedPositions(cfg, d, off, f, end);
      case ReadFormat(_) => ReadFieldPositions(cfg, d, off, f, end);
      case Raw(_) | StackUser(_, _) => BytesPositions(cfg, d, off, f, end);
      case Registers(_, _, _) => RegistersPositions(cfg, d, off, f, end);
      case Callchain(_, _) | BranchStack(_, _) => ArrayPositions(cfg, d, off, f, end);
    }
  }

  // ---- Samples ----

  /** Field i stands between ends[i] and ends[i + 1]. */
  predicate Abut(cfg: Config, d: seq<byte>, fs: seq<Field>, ends: seq<nat>) {
    && |ends| == |fs| + 1
    && forall i :: 0 <= i < |fs| ==> FieldAt(cfg, KindOf(fs[i]), d, ends[i], fs[i], ends[i + 1])
  }

  ghost predicate FieldsAt(cfg: Config, d: seq<byte>, off: nat, fs: seq<Field>, end: nat) {
    exists ends :: Abut(cfg, d, fs, ends) && ends[0] == off && ends[|fs|] == end
  }

  lemma FieldsAtCons(cfg: Config, d: seq<byte>, off: nat, mid: nat, f: Field, rest: seq<Field>, end: nat)
    requires FieldAt(cfg, KindOf(f), d, off, f, mid) && FieldsAt(cfg, d, mid, rest, end)
    ensures FieldsAt(cfg, d, off, [f] + rest, end)
  {
    hide FieldAt;
    var ends :| Abut(cfg, d, rest, ends) && ends[0] == mid && ends[|rest|] == end;
    var fs, all := [f] + rest, [off] + ends;
    forall i | 0 <= i < |fs| ensures FieldAt(cfg, KindOf(fs[i]), d, all[i], fs[i], all[i + 1]) {
      if i > 0 { assert fs[i] == rest[i - 1] && all[i] == ends[i - 1] && all[i + 1] == ends[i]; }
    }
    assert Abut(cfg, d, fs, all);
  }

  lemma FieldsAtHead(cfg: Config, d: seq<byte>, off: nat, fs: seq<Field>, end: nat) returns (mid: nat)
    requires fs != [] && FieldsAt(cfg, d, off, fs, end)
    ensures FieldAt(cfg, KindOf(fs[0]), d, off, fs[0], mid) && FieldsAt(cfg, d, mid, fs[1..], end)
  {
    hide FieldAt;
    var ends :| Abut(cfg, d, fs, ends) && ends[0] == off && ends[|fs|] == end;
    mid := ends[1];
    var rest, tail := fs[1..], ends[1..];
    forall i | 0 <= i < |rest| ensures FieldAt(cfg, KindOf(rest[i]), d, tail[i], rest[i], tail[i + 1]) {
      assert rest[i] == fs[i + 1] && tail[i] == ends[i + 1] && tail[i + 1] == ends[i + 2];
    }
    assert Abut(cfg, d, rest, tail);
  }

  lemma {:induction false} FieldsRead(cfg: Config, ks: seq<Kind>, d: seq<byte>, off: nat, fs: seq<Field>, end: nat)
    requires DecodeFields(cfg, ks, d, off) == Ok((fs, end))
    ensures Kinds(fs) == ks && FieldsAt(cfg, d, off, fs, end)
    decreases |ks|
  {
    hide DecodeField, FieldAt;
    if ks == [] {
      assert Abut(cfg, d, fs, [off]);
    } else {
      var p := DecodeField(cfg, ks[0], d, off).value;
      var rest := DecodeFields(cfg, ks[1..], d, p.1).value;
      assert DecodeField(cfg, ks[0], d, off) == Ok((p.0, p.1));
      FieldPositions(cfg, ks[0], d, off, p.0, p.1);
      assert KindOf(p.0) == ks[0] by { FieldAtKind(cfg, ks[0], d, off, p.0, p.1); }
      FieldsRead(cfg, ks[1..], d, p.1, rest.0, rest.1);
      FieldsAtCons(cfg, d, off, p.1, p.0, rest.0, rest.1);
      assert fs == [p.0] + rest.0;
      assert Kinds(fs) == [ks[0]] + Kinds(rest.0);
    }
  }

  lemma {:induction false} FieldsReadable(cfg: Config, d: seq<byte>, off: nat, fs: seq<Field>, end: nat)
    requires FieldsAt(cfg, d, off, fs, end)
    ensures DecodeFields(cfg, Kinds(fs), d, off) == Ok((fs, end))
    decreases |fs|
  {
    hide DecodeField, FieldAt;
    if fs != [] {
      var mid := FieldsAtHead(cfg, d, off, fs, end);
      FieldPositions(cfg, KindOf(fs[0]), d, off, fs[0], mid);
      FieldsReadable(cfg, d, mid, fs[1..], end);
      assert Kinds(fs)[0] == KindOf(fs[0]) && Kinds(fs)[1..] == Kinds(fs[1..]);
      assert fs == [fs[0]] + fs[1..];
    } else {
      var ends :| Abut(cfg, d, fs, ends) && ends[0] == off && ends[|fs|] == end;
    }
  }

  /** The SAMPLE case reports the fields that stand there, one behind the other, in the order
      of the lines that test for them. */
  lemma SamplePositions(cfg: Config, d: seq<byte>, off: nat, fs: seq<Field>, end: nat)
    ensures DecodeSample(cfg, d, off) == Ok((fs, end)) <==>
            && Ascending(Kinds(fs), LadderLine) && Members(Kinds(fs)) == cfg.sampleType - {PHYS_ADDR}
            && FieldsAt(cfg, d, off, fs, end)
  {
    hide DecodeFields, FieldsAt, Ascending, Members, LadderLine;
    LadderOrder(cfg, Kinds(fs));
    if DecodeSample(cfg, d, off) == Ok((fs, end)) {
      FieldsRead(cfg, DecoderKinds(cfg), d, off, fs, end);
    } else if FieldsAt(cfg, d, off, fs, end) {
      FieldsReadable(cfg, d, off, fs, end);
    }
  }

  // ---- Records ----

  predicate TaskAt(d: seq<byte>, off: nat, t: Task) {
    && IsInt(d, off + 8, t.pid) && IsInt(d, off + 12, t.ppid) && IsInt(d, off + 16, t.tid) && IsInt(d, off + 20, t.ptid)
    && IsLong(d, off + 24, t.time)
  }

  predicate MappingAt(d: seq<byte>, off: nat, m: Mapping) {
    && IsInt(d, off + 8, m.pid) && IsInt(d, off + 12, m.tid)
    && IsLong(d, off + 16, m.addr) && IsLong(d, off + 24, m.len) && IsLong(d, off + 32, m.pgoff)
  }

  predicate InodeAt(d: seq<byte>, off: nat, n: Inode) {
    && IsInt(d, off + 40, n.maj) && IsInt(d, off + 44, n.min)
    && IsLong(d, off + 48, n.ino) && IsLong(d, off + 56, n.generation)
    && IsInt(d, off + 64, n.prot) && IsInt(d, off + 68, n.flags)
  }

  /** A record that starts at off has the type, the body and the trailer of r, and the cursor
      goes to end. Names go on to the declared size; four types end in one more word. */
  ghost predicate RecordAt(cfg: Config, d: seq<byte>, off: nat, limit: nat, r: Record, end: nat) {
    && IsShort(d, off + 4, r.misc) && IsShort(d, off + 6, r.size)
    && match r.body
       case Mmap(m, filename) =>
         && IsInt(d, off, 1) && MappingAt(d, off, m) && r.size == 40 + |filename| && BytesAt(d, off + 40, filename)
         && r.sampleId == [] && end == off + r.size
       case Lost(id, lost) =>
         IsInt(d, off, 2) && IsLong(d, off + 8, id) && IsLong(d, off + 16, lost) && r.sampleId == [] && end == off + 24
       case Comm(pid, tid, comm) =>
         && IsInt(d, off, 3) && IsInt(d, off + 8, pid) && IsInt(d, off + 12, tid)
         && r.size == 16 + |comm| && BytesAt(d, off + 16, comm)
         && r.sampleId == [] && end == off + r.size
       case Exit(t) => IsInt(d, off, 4) && TaskAt(d, off, t) && r.sampleId == [] && end == off + 32
       case Throttle(time, id, stream) =>
         && IsInt(d, off, 5) && IsLong(d, off + 8, time) && IsLong(d, off + 16, id) && IsLong(d, off + 24, stream)
         && r.sampleId == [] && end == off + 32
       case Unthrottle(time, id, stream) =>
         && IsInt(d, off, 6) && IsLong(d, off + 8, time) && IsLong(d, off + 16, id) && IsLong(d, off + 24, stream)
         && r.sampleId == [] && end == off + 32
       case Fork(t) => IsInt(d, off, 7) && TaskAt(d, off, t) && r.sampleId == [] && end == off + 32
       case Sample(fields) =>
         && IsInt(d, off, 9) && r.sampleId == [] && FieldsAt(cfg, d, off + 8, fields, end)
         && Ascending(Kinds(fields), LadderLine) && Members(Kinds(fields)) == cfg.sampleType - {PHYS_ADDR}
       case Mmap2(m, n, filename) =>
         && IsInt(d, off, 10) && MappingAt(d, off, m) && InodeAt(d, off, n)
         && r.size == 72 + |filename| && BytesAt(d, off + 72, filename)
         && r.sampleId == [] && end == off + r.size
       case Aux(auxOffset, auxSize, flags) =>
         && IsInt(d, off, 11)
         && IsLong(d, off + 8, auxOffset) && IsLong(d, off + 16, auxSize) && IsLong(d, off + 24, flags)
         && |r.sampleId| == 1 && WordsAt(d, off + 32, r.sampleId) && end == off + 40
       case ItraceStart(pid, tid) =>
         IsInt(d, off, 12) && IsInt(d, off + 8, pid) && IsInt(d, off + 12, tid) && r.sampleId == [] && end == off + 16
       case LostSamples(lost) =>
         && IsInt(d, off, 13) && IsLong(d, off + 8, lost)
         && |r.sampleId| == 1 && WordsAt(d, off + 16, r.sampleId) && end == off + 24
       case Switch => IsInt(d, off, 14) && |r.sampleId| == 1 && WordsAt(d, off + 8, r.sampleId) && end == off + 16
       case SwitchCpuWide(pid, tid) =>
         && IsInt(d, off, 15) && IsInt(d, off + 8, pid) && IsInt(d, off + 12, tid)
         && |r.sampleId| == 1 && WordsAt(d, off + 16, r.sampleId) && end == off + 24
       case Other(typ, payload) =>
         (typ == 0 || typ == 8 || typ > 15) && IsInt(d, off, typ) && payload == [] && r.sampleId == [] && end == limit
  }

  /** What follows the header of a record that the switch has a case for. */
  function Rest(cfg: Config, typ: u32, size: u16, d: seq<byte>, off: nat): Result<(Body, seq<u64>, nat)>
    requires HandledType(typ)
  {
    var (body, o) :- DecodeBody(cfg, typ, size, d, off + 8);
    var sampleId :- GetWords(d, o, TrailerRead(body));
    Ok((body, sampleId, o + 8 * |sampleId|))
  }

  lemma PairAt(d: seq<byte>, off: nat, a: u32, b: u32)
    ensures GetPair(d, off) == Ok((a, b)) <==> IsInt(d, off, a) && IsInt(d, off + 4, b)
  {
    hide GetU32, IsInt;
    IntAt(d, off, a);
    IntAt(d, off + 4, b);
  }

  lemma ThreeAt(d: seq<byte>, off: nat, a: u64, b: u64, c: u64)
    ensures GetThree(d, off) == Ok((a, b, c)) <==> IsLong(d, off, a) && IsLong(d, off + 8, b) && IsLong(d, off + 16, c)
  {
    hide GetU64, IsLong;
    LongAt(d, off, a);
    LongAt(d, off + 8, b);
    LongAt(d, off + 16, c);
  }

  lemma TaskPositions(d: seq<byte>, off: nat, t: Task)
    ensures GetTask(d, off + 8) == Ok(t) <==> TaskAt(d, off, t)
  {
    hide GetU64, GetU32, IsLong, IsInt;
    PairAt(d, off + 8, t.pid, t.ppid);
    PairAt(d, off + 16, t.tid, t.ptid);
    LongAt(d, off + 24, t.time);
  }

  lemma MappingPositions(d: seq<byte>, off: nat, m: Mapping)
    ensures GetMapping(d, off + 8) == Ok(m) <==> MappingAt(d, off, m)
  {
    hide GetU64, GetU32, IsLong, IsInt;
    PairAt(d, off + 8, m.pid, m.tid);
    ThreeAt(d, off + 16, m.addr, m.len, m.pgoff);
  }

  lemma InodePositions(d: seq<byte>, off: nat, n: Inode)
    ensures GetInode(d, off + 40) == Ok(n) <==> InodeAt(d, off, n)
  {
    hide GetU64, GetU32, IsLong, IsInt;
    PairAt(d, off + 40, n.maj, n.min);
    LongAt(d, off + 48, n.ino);
    LongAt(d, off + 56, n.generation);
    PairAt(d, off + 64, n.prot, n.flags);
  }

  lemma WordsOne(d: seq<byte>, off: nat, ws: seq<u64>)
    ensures GetWords(d, off, 1) == Ok(ws) <==> |ws| == 1 && WordsAt(d, off, ws)
    ensures GetWords(d, off, 0) == Ok(ws) <==> ws == []
  {
    hide IsLong, GetU64;
    WordsPositions(d, off, 1, ws);
  }

  lemma NameCases(cfg: Config, d: seq<byte>, off: nat, limit: nat, r: Record, end: nat)
    requires AbsorbsTrailer(r.body)
    ensures RecordAt(cfg, d, off, limit, r, end) <==>
            && IsInt(d, off, TypeOf(r.body)) && IsShort(d, off + 4, r.misc) && IsShort(d, off + 6, r.size)
            && Rest(cfg, TypeOf(r.body), r.size, d, off) == Ok((r.body, r.sampleId, end))
  {
    hide IsInt, IsShort, IsLong, GetU32, GetU64, GetMapping, GetInode, MappingAt, InodeAt, FieldsAt, GetWords;
    match r.body
    case Mmap(m, filename) =>
      MappingPositions(d, off, m);
      WordsOne(d, off + 40 + |filename|, r.sampleId);
    case Comm(pid, tid, comm) =>
      PairAt(d, off + 8, pid, tid);
      WordsOne(d, off + 16 + |comm|, r.sampleId);
    case Mmap2(m, n, filename) =>
      MappingPositions(d, off, m);
      InodePositions(d, off, n);
      WordsOne(d, off + 72 + |filename|, r.sampleId);
  }

  lemma TaskCases(cfg: Config, d: seq<byte>, off: nat, limit: nat, r: Record, end: nat)
    requires r.body.Exit? || r.body.Fork? || r.body.Throttle? || r.body.Unthrottle?
    ensures RecordAt(cfg, d, off, limit, r, end) <==>
            && IsInt(d, off, TypeOf(r.body)) && IsShort(d, off + 4, r.misc) && IsShort(d, off + 6, r.size)
            && Rest(cfg, TypeOf(r.body), r.size, d, off) == Ok((r.body, r.sampleId, end))
  {
    hide IsInt, IsShort, IsLong, GetU32, GetU64, GetTask, TaskAt, FieldsAt, GetWords;
    WordsOne(d, off + 32, r.sampleId);
    match r.body
    case Exit(t) => TaskPositions(d, off, t);
    case Fork(t) => TaskPositions(d, off, t);
    case Throttle(a, b, c) => ThreeAt(d, off + 8, a, b, c);
    case Unthrottle(a, b, c) => ThreeAt(d, off + 8, a, b, c);
  }

  lemma ShortCases(cfg: Config, d: seq<byte>, off: nat, limit: nat, r: Record, end: nat)
    requires r.body.Lost? || r.body.ItraceStart?
    ensures RecordAt(cfg, d, off, limit, r, end) <==>
            && IsInt(d, off, TypeOf(r.body)) && IsShort(d, off + 4, r.misc) && IsShort(d, off + 6, r.size)
            && Rest(cfg, TypeOf(r.body), r.size, d, off) == Ok((r.body, r.sampleId, end))
  {
    hide IsInt, IsShort, IsLong, GetU32, GetU64, FieldsAt, GetWords;
    WordsOne(d, off + 16, r.sampleId);
    WordsOne(d, off + 24, r.sampleId);
    match r.body
    case Lost(id, lost) =>
      LongAt(d, off + 8, id);
      LongAt(d, off + 16, lost);
    case ItraceStart(pid, tid) => PairAt(d, off + 8, pid, tid);
  }

  lemma TrailedCases(cfg: Config, d: seq<byte>, off: nat, limit: nat, r: Record, end: nat)
    requires r.body.Aux? || r.body.LostSamples? || r.body.Switch? || r.body.SwitchCpuWide?
    ensures RecordAt(cfg, d, off, limit, r, end) <==>
            && IsInt(d, off, TypeOf(r.body)) && IsShort(d, off + 4, r.misc) && IsShort(d, off + 6, r.size)
            && Rest(cfg, TypeOf(r.body), r.size, d, off) == Ok((r.body, r.sampleId, end))
  {
    hide IsInt, IsShort, IsLong, GetU32, GetU64, FieldsAt, GetWords, WordsAt;
    match r.body
    case Aux(a, b, c) =>
      ThreeAt(d, off + 8, a, b, c);
      WordsOne(d, off + 32, r.sampleId);
    case LostSamples(lost) =>
      LongAt(d, off + 8, lost);
      WordsOne(d, off + 16, r.sampleId);
    case Switch => WordsOne(d, off + 8, r.sampleId);
    case SwitchCpuWide(pid, tid) =>
      PairAt(d, off + 8, pid, tid);
      WordsOne(d, off + 16, r.sampleId);
  }

  lemma SampleCase(cfg: Config, d: seq<byte>, off: nat, limit: nat, r: Record, end: nat)
    requires r.body.Sample?
    ensures RecordAt(cfg, d, off, limit, r, end) <==>
            && IsInt(d, off, 9) && IsShort(d, off + 4, r.misc) && IsShort(d, off + 6, r.size)
            && Rest(cfg, 9, r.size, d, off) == Ok((r.body, r.sampleId, end))
  {
    hide IsInt, IsShort, DecodeSample, FieldsAt, Ascending, Members, LadderLine, GetWords;
    SamplePositions(cfg, d, off + 8, r.body.fields, end);
    WordsOne(d, end, r.sampleId);
    var p := DecodeSample(cfg, d, off + 8);
    if p.Ok? {
      assert p == Ok((p.value.0, p.value.1));
      WordsOne(d, p.value.1, []);
    }
  }

  lemma RestType(cfg: Config, typ: u32, size: u16, d: seq<byte>, off: nat)
    requires HandledType(typ)
    ensures var c := Rest(cfg, typ, size, d, off); c.Ok? ==> TypeOf(c.value.0) == typ && !c.value.0.Other?
  {
    hide DecodeBody, GetWords;
    DecodedType(cfg, typ, size, d, off + 8);
  }

  lemma RecordCases(cfg: Config, d: seq<byte>, off: nat, limit: nat, r: Record, end: nat)
    requires !r.body.Other?
    ensures RecordAt(cfg, d, off, limit, r, end) <==>
            && IsInt(d, off, TypeOf(r.body)) && IsShort(d, off + 4, r.misc) && IsShort(d, off + 6, r.size)
            && Rest(cfg, TypeOf(r.body), r.size, d, off) == Ok((r.body, r.sampleId, end))
  {
    hide IsInt, IsShort, Rest, RecordAt;
    match r.body
    case Sample(_) => SampleCase(cfg, d, off, limit, r, end);
    case Mmap(_, _) | Comm(_, _, _) | Mmap2(_, _, _) => NameCases(cfg, d, off, limit, r, end);
    case Aux(_, _, _) | LostSamples(_) | Switch | SwitchCpuWide(_, _) => TrailedCases(cfg, d, off, limit, r, end);
    case Lost(_, _) | ItraceStart(_, _) => ShortCases(cfg, d, off, limit, r, end);
    case _ => TaskCases(cfg, d, off, limit, r, end);
  }

  /** One turn of the loop reports exactly the record that stands at the cursor. */
  lemma RecordPositions(cfg: Config, d: seq<byte>, off: nat, limit: nat, r: Record, end: nat)
    ensures DecodeRecord(cfg, d, off, limit) == Ok((r, end)) <==> RecordAt(cfg, d, off, limit, r, end)
  {
    hide IsInt, IsShort, GetU32, GetU16, DecodeBody, GetWords;
    IntAt(d, off, TypeOf(r.body));
    ShortAt(d, off + 4, r.misc);
    ShortAt(d, off + 6, r.size);
    var t, size := GetU32(d, off), GetU16(d, off + 6);
    if t.Ok? && size.Ok? && HandledType(t.value) { RestType(cfg, t.value, size.value, d, off); }
    if r.body.Other? {
      hide FieldsAt, Rest;
    } else {
      RecordCases(cfg, d, off, limit, r, end);
      hide RecordAt;
    }
  }
}
