/** Every field reader is the exact inverse of the encoder, in both directions and
    on arbitrary buffers: it succeeds with value v and cursor o if and only if v is
    well shaped, the buffer holds v's encoding at the cursor, and o is just past it. */
module FieldLaws {
  import opened Bytes
  import opened Layout
  import opened Decoder

  lemma OptionLaw(present: bool, d: seq<byte>, off: nat, v: Option<u64>, o: nat)
    ensures GetOption(present, d, off) == Ok((v, o)) <==>
            Optionally(v, present) && At(d, off, EncodeOption(v)) && o == off + |EncodeOption(v)|
  {
    hide At, GetU32, GetU64, GetBytes, U64;
    AtEmpty(d, off);
    if v.Some? {
      GetU64Law(d, off, v.value);
    }
  }

  lemma NoCounterIds(cfg: Config)
    ensures CounterIds(cfg, [])
  {
  }

  lemma CounterIdsCons(cfg: Config, cs: seq<Counter>)
    requires cs != []
    ensures CounterIds(cfg, cs) <==>
            Optionally(cs[0].id, Reports(cfg, FORMAT_ID)) && CounterIds(cfg, cs[1..])
  {
    hide Optionally, Reports;
    assert cs == [cs[0]] + cs[1..];
  }

  /** One counter. */
  lemma CounterLaw(cfg: Config, d: seq<byte>, off: nat, c: Counter)
    ensures var present := Reports(cfg, FORMAT_ID);
            GetU64(d, off) == Ok(c.value) &&
            GetOption(present, d, off + 8) == Ok((c.id, off + |EncodeCounter(c)|)) <==>
            Optionally(c.id, present) && At(d, off, EncodeCounter(c))
  {
    hide At, GetU64, U64, GetOption, EncodeOption, Reports;
    GetU64Law(d, off, c.value);
    OptionLaw(Reports(cfg, FORMAT_ID), d, off + 8, c.id, off + |EncodeCounter(c)|);
    AtConcat(d, off, U64(c.value), EncodeOption(c.id));
  }

  lemma {:induction false} CountersLaw(cfg: Config, d: seq<byte>, off: nat, n: nat, cs: seq<Counter>, o: nat)
    ensures GetCounters(cfg, d, off, n) == Ok((cs, o)) <==>
            && |cs| == n && CounterIds(cfg, cs)
            && At(d, off, EncodeCounters(cs))
            && o == off + |EncodeCounters(cs)|
    decreases n
  {
    hide At, GetU64, U64, GetOption, EncodeOption, CounterIds, Optionally, Reports;
    if n == 0 || cs == [] {
      AtEmpty(d, off);
      NoCounterIds(cfg);
    } else {
      CounterIdsCons(cfg, cs);
      CounterLaw(cfg, d, off, cs[0]);
      CountersLaw(cfg, d, off + |EncodeCounter(cs[0])|, n - 1, cs[1..], o);
      AtConcat(d, off, EncodeCounter(cs[0]), EncodeCounters(cs[1..]));
      assert cs == [cs[0]] + cs[1..];
    }
  }

  lemma ReadLaw(cfg: Config, d: seq<byte>, off: nat, rv: ReadValues, o: nat)
    ensures GetRead(cfg, d, off) == Ok((rv, o)) <==>
            ReadShape(cfg, rv) && At(d, off, EncodeRead(rv)) && o == off + |EncodeRead(rv)|
  {
    hide At, GetU32, GetU64, GetBytes, U64, GetOption, GetCounters, EncodeCounters;
    var first := if rv.Group? then rv.nr else rv.value;
    var o1 := off + 8 + |EncodeOption(rv.enabled)|;
    var o2 := o1 + |EncodeOption(rv.running)|;
    GetU64Law(d, off, first);
    OptionLaw(Reports(cfg, FORMAT_TOTAL_TIME_ENABLED), d, off + 8, rv.enabled, o1);
    OptionLaw(Reports(cfg, FORMAT_TOTAL_TIME_RUNNING), d, o1, rv.running, o2);
    var front := U64(first) + EncodeOption(rv.enabled);
    AtConcat(d, off, U64(first), EncodeOption(rv.enabled));
    AtConcat(d, off, front, EncodeOption(rv.running));
    if rv.Group? {
      CountersLaw(cfg, d, o2, SignedCount(first), rv.counters, o);
      AtConcat(d, off, front + EncodeOption(rv.running), EncodeCounters(rv.counters));
      if GetRead(cfg, d, off) == Ok((rv, o)) {
        assert GetCounters(cfg, d, o2, SignedCount(first)).value.0 == rv.counters;
      }
    } else {
      OptionLaw(Reports(cfg, FORMAT_ID), d, o2, rv.id, o);
      AtConcat(d, off, front + EncodeOption(rv.running), EncodeOption(rv.id));
    }
  }

  lemma {:induction false} WordsLaw(d: seq<byte>, off: nat, n: nat, ws: seq<u64>)
    ensures GetWords(d, off, n) == Ok(ws) <==> |ws| == n && At(d, off, EncodeWords(ws))
    decreases n
  {
    hide At, GetU32, GetU64, GetBytes, U64;
    AtEmpty(d, off);
    if n > 0 && ws != [] {
      GetU64Law(d, off, ws[0]);
      WordsLaw(d, off + 8, n - 1, ws[1..]);
      AtConcat(d, off, U64(ws[0]), EncodeWords(ws[1..]));
      assert ws == [ws[0]] + ws[1..];
    }
  }

  lemma {:induction false} BranchesLaw(d: seq<byte>, off: nat, n: nat, es: seq<Branch>)
    ensures GetBranches(d, off, n) == Ok(es) <==> |es| == n && At(d, off, EncodeBranches(es))
    decreases n
  {
    hide At, GetU32, GetU64, GetBytes, U64;
    AtEmpty(d, off);
    if n > 0 && es != [] {
      var e := es[0];
      GetU64Law(d, off, e.from);
      GetU64Law(d, off + 8, e.to);
      GetU64Law(d, off + 16, e.flags);
      BranchesLaw(d, off + 24, n - 1, es[1..]);
      AtConcat(d, off, U64(e.from), U64(e.to));
      AtConcat(d, off, U64(e.from) + U64(e.to), U64(e.flags));
      AtConcat(d, off, U64(e.from) + U64(e.to) + U64(e.flags), EncodeBranches(es[1..]));
      assert es == [e] + es[1..];
    }
  }

  lemma {:induction false} RegsLaw(mask: bv64, d: seq<byte>, off: nat, i: nat, regs: seq<Reg>)
    requires i <= 64
    ensures GetRegs(mask, d, off, i) == Ok(regs) <==>
            RegIndices(regs) == SetBits(mask, i) && At(d, off, EncodeRegs(regs))
    decreases 64 - i
  {
    hide At, GetU32, GetU64, GetBytes, U64, RegBit;
    AtEmpty(d, off);
    if i < 64 {
      if !RegBit(mask, i) {
        RegsLaw(mask, d, off, i + 1, regs);
      } else if regs != [] {
        GetU64Law(d, off, regs[0].value);
        RegsLaw(mask, d, off + 8, i + 1, regs[1..]);
        AtConcat(d, off, U64(regs[0].value), EncodeRegs(regs[1..]));
        assert regs == [regs[0]] + regs[1..];
        assert RegIndices(regs) == [regs[0].index] + RegIndices(regs[1..]);
        assert SetBits(mask, i)[1..] == SetBits(mask, i + 1);
      } else {
        assert |RegIndices(regs)| == 0;
      }
    }
  }

  lemma DecodedKind(cfg: Config, k: Kind, d: seq<byte>, off: nat)
    ensures var r := DecodeField(cfg, k, d, off); r.Ok? ==> KindOf(r.value.0) == k
  {
    hide GetU32, GetU64, GetBytes, GetRead, GetWords, GetBranches, GetRegs;
  }

  lemma ReadFieldLaw(cfg: Config, d: seq<byte>, off: nat, rv: ReadValues, o: nat)
    ensures DecodeField(cfg, READ, d, off) == Ok((ReadFormat(rv), o)) <==>
            ReadShape(cfg, rv) && At(d, off, EncodeRead(rv)) && o == off + |EncodeRead(rv)|
  {
    hide At, GetRead, EncodeRead, ReadShape;
    ReadLaw(cfg, d, off, rv, o);
    if DecodeField(cfg, READ, d, off) == Ok((ReadFormat(rv), o)) {
      assert ReadFormat(GetRead(cfg, d, off).value.0) == ReadFormat(rv);
    }
  }

  lemma CallchainLaw(cfg: Config, d: seq<byte>, off: nat, nr: u64, ips: seq<u64>, o: nat)
    ensures DecodeField(cfg, CALLCHAIN, d, off) == Ok((Callchain(nr, ips), o)) <==>
            && |ips| == SignedCount(nr)
            && At(d, off, U64(nr) + EncodeWords(ips))
            && o == off + 8 + 8 * |ips|
  {
    hide At, GetU64, U64, GetWords, EncodeWords;
    GetU64Law(d, off, nr);
    WordsLaw(d, off + 8, SignedCount(nr), ips);
    AtConcat(d, off, U64(nr), EncodeWords(ips));
  }

  lemma BranchStackLaw(cfg: Config, d: seq<byte>, off: nat, bnr: u64, es: seq<Branch>, o: nat)
    ensures DecodeField(cfg, BRANCH_STACK, d, off) == Ok((BranchStack(bnr, es), o)) <==>
            && |es| == SignedCount(bnr)
            && At(d, off, U64(bnr) + EncodeBranches(es))
            && o == off + 8 + 24 * |es|
  {
    hide At, GetU64, U64, GetBranches, EncodeBranches;
    GetU64Law(d, off, bnr);
    BranchesLaw(d, off + 8, SignedCount(bnr), es);
    AtConcat(d, off, U64(bnr), EncodeBranches(es));
  }

  lemma RegistersLaw(cfg: Config, k: Kind, d: seq<byte>, off: nat, abi: u64, regs: seq<Reg>, o: nat)
    requires RegsKind(k)
    ensures DecodeField(cfg, k, d, off) == Ok((Registers(k, abi, regs), o)) <==>
            && RegIndices(regs) == SetBits(cfg.regMask, 0)
            && At(d, off, U64(abi) + EncodeRegs(regs))
            && o == off + 8 + 8 * |regs|
  {
    hide At, GetU64, U64, GetRegs, EncodeRegs, SetBits, RegIndices;
    GetU64Law(d, off, abi);
    RegsLaw(cfg.regMask, d, off + 8, 0, regs);
    AtConcat(d, off, U64(abi), EncodeRegs(regs));
  }

  lemma RawLaw(cfg: Config, d: seq<byte>, off: nat, bytes: seq<byte>, o: nat)
    ensures DecodeField(cfg, RAW, d, off) == Ok((Raw(bytes), o)) <==>
            |bytes| < 0x8000_0000 && At(d, off, LE(|bytes|, 4) + bytes) && o == off + 4 + |bytes|
  {
    hide At, GetU32, GetU64, GetBytes, LE;
    AtConcat(d, off, LE(|bytes|, 4), bytes);
    GetBytesLaw(d, off + 4, bytes);
    if |bytes| < 0x8000_0000 {
      assert U32(|bytes|) == LE(|bytes|, 4);
      GetU32Law(d, off, |bytes|);
    }
  }

  lemma StackLaw(cfg: Config, d: seq<byte>, off: nat, stack: seq<byte>, dynSize: u64, o: nat)
    ensures DecodeField(cfg, STACK_USER, d, off) == Ok((StackUser(stack, dynSize), o)) <==>
            && |stack| < 0x8000_0000_0000_0000
            && At(d, off, LE(|stack|, 8) + stack + U64(dynSize))
            && o == off + 16 + |stack|
  {
    hide At, GetU32, GetU64, GetBytes, LE;
    AtConcat(d, off, LE(|stack|, 8), stack);
    AtConcat(d, off, LE(|stack|, 8) + stack, U64(dynSize));
    GetBytesLaw(d, off + 8, stack);
    GetU64Law(d, off + 8 + |stack|, dynSize);
    if |stack| < 0x8000_0000_0000_0000 {
      assert U64(|stack|) == LE(|stack|, 8);
      GetU64Law(d, off, |stack|);
    }
  }

  /** The central law of a single field. */
  lemma FieldLaw(cfg: Config, k: Kind, d: seq<byte>, off: nat, f: Field, o: nat)
    ensures DecodeField(cfg, k, d, off) == Ok((f, o)) <==>
            KindOf(f) == k && Shape(cfg, f) && At(d, off, EncodeField(f)) && o == off + |EncodeField(f)|
  {
    hide At, GetU32, GetU64, GetRead, U32, U64, LE;
    hide GetWords, GetBranches, GetRegs, EncodeRead, EncodeWords, EncodeBranches, EncodeRegs, SetBits, ReadShape;
    DecodedKind(cfg, k, d, off);
    if KindOf(f) == k {
      match f
      case Word(_, v) =>
        GetU64Law(d, off, v);
      case Pair(_, lo, hi) =>
        GetU32Law(d, off, lo);
        GetU32Law(d, off + 4, hi);
        AtConcat(d, off, U32(lo), U32(hi));
      case ReadFormat(rv) => ReadFieldLaw(cfg, d, off, rv, o);
      case Callchain(nr, ips) => CallchainLaw(cfg, d, off, nr, ips, o);
      case Raw(bytes) => RawLaw(cfg, d, off, bytes, o);
      case BranchStack(bnr, es) => BranchStackLaw(cfg, d, off, bnr, es, o);
      case Registers(_, abi, regs) =>
        if RegsKind(k) { RegistersLaw(cfg, k, d, off, abi, regs, o); }
      case StackUser(stack, dynSize) => StackLaw(cfg, d, off, stack, dynSize, o);
    }
  }

  /** The central law of a list of fields, in whatever order they are asked for. */
  lemma {:induction false} FieldsLaw(cfg: Config, ks: seq<Kind>, d: seq<byte>, off: nat, fs: seq<Field>, o: nat)
    ensures DecodeFields(cfg, ks, d, off) == Ok((fs, o)) <==>
            Kinds(fs) == ks && Shapes(cfg, fs) && At(d, off, EncodeFields(fs)) && o == off + |EncodeFields(fs)|
  {
    hide At, GetU32, GetU64, GetBytes, DecodeField, EncodeField, Shape;
    AtEmpty(d, off);
    if ks != [] && fs != [] {
      match DecodeField(cfg, ks[0], d, off) {
        case Ok((f, o')) => FieldLaw(cfg, ks[0], d, off, f, o');
        case Fault =>
      }
      var o1 := off + |EncodeField(fs[0])|;
      FieldLaw(cfg, ks[0], d, off, fs[0], o1);
      FieldsLaw(cfg, ks[1..], d, o1, fs[1..], o);
      AtConcat(d, off, EncodeField(fs[0]), EncodeFields(fs[1..]));
      assert fs == [fs[0]] + fs[1..];
      assert Kinds(fs) == [KindOf(fs[0])] + Kinds(fs[1..]);
      assert Shapes(cfg, fs) <==> Shape(cfg, fs[0]) && Shapes(cfg, fs[1..]);
    } else {
      assert |Kinds(fs)| == |fs|;
    }
  }
}
