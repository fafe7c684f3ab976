/** Two readings spelled out without the encoder: registers and read_format. */
module FieldFacts {
  import opened Bytes
  import opened Layout
  import opened Decoder
  import opened FieldLaws
  import opened RegisterMasks

  /** Number of set bits below bit i. */
  function Below(mask: bv64, i: nat): nat
    requires i <= 64
  {
    if i == 0 then 0 else Below(mask, i - 1) + if RegBit(mask, i - 1) then 1 else 0
  }

  lemma {:induction false} SetBitsFrom(mask: bv64, i: nat)
    requires i <= 64
    ensures Below(mask, i) <= |SetBits(mask, 0)|
    ensures SetBits(mask, 0)[Below(mask, i)..] == SetBits(mask, i)
  {
    hide RegBit;
    if i > 0 {
      SetBitsFrom(mask, i - 1);
      if RegBit(mask, i - 1) {
        assert SetBits(mask, 0)[Below(mask, i - 1)..][1..] == SetBits(mask, i);
      }
    }
  }

  lemma WeightBelow(mask: bv64)
    ensures Weight(mask) == Below(mask, 64)
  {
    SetBitsFrom(mask, 64);
  }

  /** The weight of a mask is the number of its bits: of the powers of two that make it up. */
  lemma WeightIsPopCount(mask: bv64, ns: seq<nat>)
    requires Selects(mask, ns)
    ensures Weight(mask) == |ns| == Below(mask, 64)
  {
    SetBitsExact(mask, ns);
    WeightBelow(mask);
  }

  lemma {:induction false} RegValueAt(mask: bv64, d: seq<byte>, off: nat, i: nat, regs: seq<Reg>, k: nat)
    requires i <= 64 && GetRegs(mask, d, off, i) == Ok(regs) && k < |regs|
    ensures GetU64(d, off + 8 * k) == Ok(regs[k].value)
    decreases 64 - i
  {
    hide GetU64, RegBit;
    if RegBit(mask, i) {
      if k > 0 {
        var rest := GetRegs(mask, d, off + 8, i + 1).value;
        RegValueAt(mask, d, off + 8, i + 1, rest, k - 1);
      }
    } else {
      RegValueAt(mask, d, off, i + 1, regs, k);
    }
  }

  /** The registers printed are, in ascending order, those whose bits make up the mask. */
  lemma RegistersDumped(mask: bv64, d: seq<byte>, off: nat, regs: seq<Reg>)
    requires GetRegs(mask, d, off, 0) == Ok(regs)
    ensures Selects(mask, RegIndices(regs))
  {
    RegsLaw(mask, d, off, 0, regs);
    SetBitsExact(mask, RegIndices(regs));
    hide *;
  }

  /** Register i comes after the registers below it. */
  lemma SetBitsAt(mask: bv64, i: nat)
    requires i < 64 && RegBit(mask, i)
    ensures Below(mask, i) < |SetBits(mask, 0)| && SetBits(mask, 0)[Below(mask, i)] == i
  {
    hide RegBit;
    SetBitsFrom(mask, i);
    assert SetBits(mask, i)[0] == i;
    hide SetBits, Below;
    var all, k := SetBits(mask, 0), Below(mask, i);
    assert all[k..][0] == all[k];
  }

  lemma DumpedIndices(mask: bv64, d: seq<byte>, off: nat, regs: seq<Reg>)
    requires GetRegs(mask, d, off, 0) == Ok(regs)
    ensures |regs| == |SetBits(mask, 0)| && forall k :: 0 <= k < |regs| ==> regs[k].index == SetBits(mask, 0)[k]
  {
    hide RegBit, GetU64, GetRegs, SetBits, At, EncodeRegs;
    RegsLaw(mask, d, off, 0, regs);
    assert forall k :: 0 <= k < |regs| ==> RegIndices(regs)[k] == regs[k].index;
  }

  /** The value printed for register i is the word whose index is the number of selected
      registers below i, and as many registers are printed as the mask has bits. */
  lemma RegisterDump(mask: bv64, d: seq<byte>, off: nat, regs: seq<Reg>, i: nat)
    requires GetRegs(mask, d, off, 0) == Ok(regs)
    requires i < 64 && RegBit(mask, i)
    ensures |regs| == Below(mask, 64)
    ensures Below(mask, i) < |regs| && regs[Below(mask, i)].index == i
    ensures GetU64(d, off + 8 * Below(mask, i)) == Ok(regs[Below(mask, i)].value)
  {
    WeightBelow(mask);
    hide RegBit, GetU64, GetRegs, SetBits, Below;
    DumpedIndices(mask, d, off, regs);
    SetBitsAt(mask, i);
    RegValueAt(mask, d, off, 0, regs, Below(mask, i));
  }

  function One(b: bool): nat { if b then 1 else 0 }

  lemma {:induction false} CountersLength(cfg: Config, cs: seq<Counter>)
    requires CounterIds(cfg, cs)
    ensures |EncodeCounters(cs)| == 8 * |cs| * (1 + One(Reports(cfg, FORMAT_ID)))
  {
    hide Reports, U64;
    if cs != [] { CountersLength(cfg, cs[1..]); }
  }

  /** The length that handle_struct_read_format returns, for all flags and any count: a count
      with the sign bit set means no counters, any other means as many as it says. */
  lemma ReadLength(cfg: Config, d: seq<byte>, off: nat, rv: ReadValues, o: nat)
    requires GetRead(cfg, d, off) == Ok((rv, o))
    ensures rv.Group? <==> FORMAT_GROUP in cfg.readFormat
    ensures rv.Group? ==> |rv.counters| == if rv.nr < 0x8000_0000_0000_0000 then rv.nr else 0
    ensures var times := 1 + One(FORMAT_TOTAL_TIME_ENABLED in cfg.readFormat) + One(FORMAT_TOTAL_TIME_RUNNING in cfg.readFormat);
            var ids := One(FORMAT_ID in cfg.readFormat);
            o - off == if rv.Group? then 8 * times + 8 * |rv.counters| * (1 + ids)
                       else 8 * times + 8 * ids
  {
    hide U64, At, GetRead;
    ReadLaw(cfg, d, off, rv, o);
    if rv.Group? { CountersLength(cfg, rv.counters); }
  }
}
