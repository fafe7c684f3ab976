/** Where the two orders are incompatible some sample throws the decoder off. The
    witnesses are built as bytes and read back in header order. */
module SampleSyncNecessary {
  import opened Bytes
  import opened Layout
  import opened Decoder
  import opened FieldLaws
  import opened SampleSync

  /** Bytes that the header order covers exactly are the encoding of a sample. */
  lemma WitnessOf(cfg: Config, b: seq<byte>) returns (fs: seq<Field>)
    requires Advances(cfg, HeaderKinds(cfg), b, 0, |b|)
    requires 8 + |b| < MAX_RECORD
    ensures HeaderSample(cfg, fs) && EncodeFields(fs) == b
  {
    hide DecodeFields, HeaderKinds, Written, Shape, EncodeFields;
    fs := DecodeFields(cfg, HeaderKinds(cfg), b, 0).value.0;
    FieldsLaw(cfg, HeaderKinds(cfg), b, 0, fs, |b|);
    assert b[0..|b|] == b;
  }

  /** An entry count larger than any scratch buffer. */
  const HUGE: u64 := 0x7fff_ffff

  lemma {:induction false} LEPrefix(v: nat, m: nat, n: nat)
    ensures LE(v, m + n)[..m] == LE(v, m)
  {
    if m > 0 { LEPrefix(v / 256, m - 1, n); }
  }

  lemma HugeNumbers(d: seq<byte>, off: nat)
    requires At(d, off, U64(HUGE))
    ensures GetU64(d, off) == Ok(HUGE) && GetU32(d, off) == Ok(HUGE)
  {
    hide At, GetU64, GetU32, LE;
    GetU64Law(d, off, HUGE);
    GetU32Law(d, off, HUGE);
    LEPrefix(HUGE, 4, 4);
    var w := U64(HUGE);
    assert w == w[..4] + w[4..];
    AtConcat(d, off, w[..4], w[4..]);
  }

  lemma {:induction false} CountersRoom(cfg: Config, cs: seq<Counter>)
    ensures 8 * |cs| <= |EncodeCounters(cs)|
  {
    hide EncodeOption, U64;
    if cs != [] { CountersRoom(cfg, cs[1..]); }
  }

  /** A variable-length field whose count is read as HUGE runs off the buffer. */
  lemma Overrun(cfg: Config, k: Kind, d: seq<byte>, off: nat)
    requires VariableKind(cfg, k) && At(d, off, U64(HUGE)) && |d| < HUGE
    ensures DecodeField(cfg, k, d, off) == Fault
  {
    hide At, U64, GetU64, GetU32, GetWords, GetBranches, GetRegs, GetBytes, EncodeField, GetCounters;
    HugeNumbers(d, off);
    var r := DecodeField(cfg, k, d, off);
    if r.Ok? {
      FieldLaw(cfg, k, d, off, r.value.0, r.value.1);
      FieldRoom(cfg, r.value.0, d, off);
    }
  }

  /** A field held by a buffer is no longer than the buffer. */
  lemma FieldRoom(cfg: Config, f: Field, d: seq<byte>, off: nat)
    requires Shape(cfg, f) && At(d, off, EncodeField(f))
    ensures f.Callchain? ==> |f.ips| <= |d|
    ensures f.BranchStack? ==> |f.entries| <= |d|
    ensures f.Raw? ==> |f.bytes| <= |d|
    ensures f.StackUser? ==> |f.stack| <= |d|
    ensures f.ReadFormat? && f.values.Group? ==> |f.values.counters| <= |d|
  {
    hide LE, U64, EncodeWords, EncodeBranches, EncodeCounters, EncodeRegs, EncodeOption;
    if f.ReadFormat? && f.values.Group? {
      CountersRoom(cfg, f.values.counters);
    }
  }

  lemma HeaderCount(cfg: Config)
    ensures |HeaderKinds(cfg)| <= 20
  {
    hide Wanted;
  }

  lemma FaultAfter(cfg: Config, a: seq<Kind>, k: Kind, b: seq<Kind>, d: seq<byte>, n: nat)
    requires Advances(cfg, a, d, 0, n) && DecodeField(cfg, k, d, n) == Fault
    ensures DecodeFields(cfg, a + [k] + b, d, 0) == Fault
  {
    hide DecodeField;
    assert a + [k] + b == a + ([k] + b);
    DecodeAppend(cfg, a, [k] + b, d, 0);
  }

  /** One word in the middle of zeros. */
  function Spike(before: nat, v: u64, after: nat): (b: seq<byte>)
    ensures |b| == before + 8 + after
    ensures At(b, before, U64(v))
    ensures ZeroRange(b, 0, before) && ZeroRange(b, before + 8, after)
  {
    var b := Zeros(before) + U64(v) + Zeros(after);
    assert b[before..before + 8] == U64(v);
    b
  }

  /** PHYS_ADDR is never read: every sample is left one word short. */
  lemma PhysAddrBreaks(cfg: Config) returns (fs: seq<Field>)
    requires Has(cfg, PHYS_ADDR)
    ensures HeaderSample(cfg, fs) && !InSync(cfg, fs)
  {
    hide Has, CommonKinds, MinSum, DecodeFields, HeaderSample, MinSize;
    var b := Zeros(MinSum(cfg, HeaderKinds(cfg)));
    HeaderCount(cfg);
    ZeroRun(cfg, HeaderKinds(cfg), b, 0);
    fs := WitnessOf(cfg, b);
    PhysAddrSums(cfg);
    ZeroRun(cfg, DecoderKinds(cfg), b, 0);
  }

  lemma PhysAddrSums(cfg: Config)
    ensures MinSum(cfg, HeaderKinds(cfg)) == MinSum(cfg, DecoderKinds(cfg)) + if Has(cfg, PHYS_ADDR) then 8 else 0
  {
    hide Has, CommonKinds, MinSum;
    var c, i, u := CommonKinds(cfg), Wanted(cfg, IDENTIFIER), Wanted(cfg, STACK_USER);
    var w, s, t, r := Wanted(cfg, WEIGHT), Wanted(cfg, DATA_SRC), Wanted(cfg, TRANSACTION), Wanted(cfg, REGS_INTR);
    var p := Wanted(cfg, PHYS_ADDR);
    assert HeaderTail(cfg) == u + w + s + t + r + p;
    assert DecoderTail(cfg) == r + u + w + s + i + t;
    MinSumFive(cfg, u, w, s, t, r);
    MinSumAppend(cfg, u + w + s + t + r, p);
    MinSumFive(cfg, r, u, w, s, i);
    MinSumAppend(cfg, r + u + w + s + i, t);
    MinSumAppend(cfg, i, c);
    MinSumAppend(cfg, i + c, HeaderTail(cfg));
    MinSumAppend(cfg, c, DecoderTail(cfg));
    WantedSize(cfg, PHYS_ADDR);
  }

  /** Configurations that differ at most in which fields a sample has. */
  predicate SameFormats(a: Config, b: Config) {
    a.readFormat == b.readFormat && a.regMask == b.regMask
  }

  lemma {:induction false} SameSums(a: Config, b: Config, ks: seq<Kind>)
    requires SameFormats(a, b)
    ensures MinSum(a, ks) == MinSum(b, ks)
    ensures AllFixed(a, ks) <==> AllFixed(b, ks)
  {
    if ks != [] { SameSums(a, b, ks[1..]); }
  }

  /** With IDENTIFIER in front, a variable field that the decoder expects after fixed ones
      only is looked for too early. What the kernel writes may be another selection of
      fields (hc) than what the decoder expects (cfg). */
  lemma IdentifierBreaks(hc: Config, cfg: Config, c: seq<Kind>, q: seq<Kind>, k: Kind, p: seq<Kind>)
    returns (fs: seq<Field>)
    requires SameFormats(hc, cfg)
    requires HeaderKinds(hc) == [IDENTIFIER] + c + q
    requires DecoderKinds(cfg) == c + [k] + p
    requires AllFixed(cfg, c) && VariableKind(cfg, k)
    ensures HeaderSample(hc, fs) && !InSync(cfg, fs)
  {
    hide HeaderKinds, DecoderKinds, MinSum, DecodeFields, DecodeField, HeaderSample, VariableKind, EncodeFields, MinSize;
    var n, m := MinSum(cfg, c), MinSum(hc, q);
    var h1 := [IDENTIFIER] + c;
    SameSums(hc, cfg, c);
    assert MinSum(hc, h1) == 8 + n by { MinSumAppend(hc, [IDENTIFIER], c); IdentifierSize(hc); }
    MinSumAppend(hc, h1, q);
    HeaderCount(hc);
    var b := Spike(n, HUGE, m);
    assert AllFixed(hc, h1) by { IdentifierSize(hc); FixedAppend(hc, [IDENTIFIER], c); }
    FixedRun(hc, h1, b, 0);
    ZeroRun(hc, q, b, 8 + n);
    AdvancesAppend(hc, h1, q, b, 0, 8 + n, m);
    fs := WitnessOf(hc, b);
    FixedRun(cfg, c, b, 0);
    Overrun(cfg, k, b, n);
    FaultAfter(cfg, c, k, p, b, n);
  }

  lemma IdentifierSize(cfg: Config)
    ensures MinSum(cfg, [IDENTIFIER]) == 8 && AllFixed(cfg, [IDENTIFIER])
  {
    assert MinSum(cfg, [IDENTIFIER]) == 8 + MinSum(cfg, []);
  }

  /** A user stack of v bytes, all zero but for a last word that reads HUGE. */
  function StackSpike(before: nat, v: u64, after: nat): (b: seq<byte>)
    requires v >= 8
    ensures |b| == before + 16 + v + after
    ensures At(b, before, U64(v)) && At(b, before + v, U64(HUGE))
    ensures ZeroRange(b, 0, before) && ZeroRange(b, before + 8 + v, 8 + after)
  {
    var b := Zeros(before) + U64(v) + Zeros(v - 8) + U64(HUGE) + Zeros(8 + after);
    assert b[before..before + 8] == U64(v);
    assert b[before + v..before + v + 8] == U64(HUGE);
    b
  }

  lemma StackField(cfg: Config, d: seq<byte>, off: nat, v: u64)
    requires v < 0x8000_0000 && At(d, off, U64(v)) && ZeroRange(d, off + 8 + v, 8)
    ensures Advances(cfg, [STACK_USER], d, off, 16 + v)
  {
    hide At, GetU64, U64;
    GetU64Law(d, off, v);
    ZeroNumbers(d, off + 8 + v);
    var p := DecodeField(cfg, STACK_USER, d, off).value;
    assert [STACK_USER][0] == STACK_USER && [STACK_USER][1..] == [];
    assert DecodeFields(cfg, [STACK_USER], d, off) == Ok(([p.0] + [], p.1));
  }

  /** The header's side: this is a sample. */
  lemma StackSpikeSample(cfg: Config, v: nat) returns (fs: seq<Field>)
    requires Has(cfg, STACK_USER) && !Has(cfg, PHYS_ADDR) && 8 <= v <= 520
    ensures var b := StackSpike(MinSum(cfg, HeaderBefore(cfg)), v, MinSum(cfg, HeaderAfter(cfg)));
            HeaderSample(cfg, fs) && EncodeFields(fs) == b && |b| < HUGE
  {
    hide HeaderKinds, DecoderKinds, HeaderBefore, HeaderAfter, DecoderBefore, DecoderAfter, MinSum;
    hide DecodeFields, DecodeField, HeaderSample, EncodeFields, MinSize, Has;
    OrdersAroundStack(cfg);
    HeaderCount(cfg);
    var h, n, m := HeaderBefore(cfg), MinSum(cfg, HeaderBefore(cfg)), MinSum(cfg, HeaderAfter(cfg));
    var b := StackSpike(n, v, m);
    hide StackSpike, At, ZeroRange, Advances;
    assert n + m <= 520 * 20 by {
      MinSumAppend(cfg, h, [STACK_USER]);
      MinSumAppend(cfg, h + [STACK_USER], HeaderAfter(cfg));
    }
    ZeroRun(cfg, h, b, 0);
    StackField(cfg, b, n, v);
    AdvancesAppend(cfg, h, [STACK_USER], b, 0, n, 16 + v);
    ZeroRun(cfg, HeaderAfter(cfg), b, n + 16 + v);
    AdvancesAppend(cfg, h + [STACK_USER], HeaderAfter(cfg), b, 0, n + 16 + v, m);
    fs := WitnessOf(cfg, b);
  }

  /** The decoder looks for the stack size where the header has stack contents. */
  lemma StackBreaks(cfg: Config, z: seq<Kind>, f: seq<Kind>) returns (fs: seq<Field>)
    requires Has(cfg, STACK_USER) && !Has(cfg, PHYS_ADDR)
    requires DecoderBefore(cfg) == z + f && AllFixed(cfg, f)
    requires MinSum(cfg, z) <= MinSum(cfg, HeaderBefore(cfg))
    requires HeaderLead(cfg) + 8 <= DecoderLead(cfg)
    ensures HeaderSample(cfg, fs) && !InSync(cfg, fs)
  {
    hide HeaderKinds, DecoderKinds, HeaderBefore, HeaderAfter, DecoderBefore, DecoderAfter, MinSum;
    hide DecodeFields, DecodeField, HeaderSample, VariableKind, EncodeFields, MinSize, Has, HeaderLead, DecoderLead;
    OrdersAroundStack(cfg);
    LeadSums(cfg);
    LeadBound(cfg);
    var n, v := MinSum(cfg, HeaderBefore(cfg)), DecoderLead(cfg) - HeaderLead(cfg);
    var b := StackSpike(n, v, MinSum(cfg, HeaderAfter(cfg)));
    fs := StackSpikeSample(cfg, v);
    hide StackSpike, At, ZeroRange, AllFixed, Advances;
    MinSumAppend(cfg, z, f);
    ZeroRun(cfg, z, b, 0);
    FixedRun(cfg, f, b, MinSum(cfg, z));
    AdvancesAppend(cfg, z, f, b, 0, MinSum(cfg, z), MinSum(cfg, f));
    Overrun(cfg, STACK_USER, b, n + v) by { StackVariable(cfg); }
    FaultAfter(cfg, z + f, STACK_USER, DecoderAfter(cfg), b, n + v);
  }

  lemma StackVariable(cfg: Config)
    ensures VariableKind(cfg, STACK_USER)
  {
  }

  lemma LeadBound(cfg: Config)
    ensures DecoderLead(cfg) <= 520
  {
  }

  lemma {:induction false} FirstVariable(cfg: Config, ks: seq<Kind>) returns (c: seq<Kind>, k: Kind, p: seq<Kind>)
    requires exists j :: j in ks && VariableKind(cfg, j)
    ensures ks == c + [k] + p && AllFixed(cfg, c) && VariableKind(cfg, k)
  {
    hide VariableKind;
    if VariableKind(cfg, ks[0]) {
      c, k, p := [], ks[0], ks[1..];
    } else {
      assert forall j :: j in ks ==> j == ks[0] || j in ks[1..];
      var c', k', p' := FirstVariable(cfg, ks[1..]);
      c, k, p := [ks[0]] + c', k', p';
    }
  }

  lemma FrontIsCommon(cfg: Config)
    requires VariableFront(cfg)
    ensures exists j :: j in CommonKinds(cfg) && VariableKind(cfg, j)
  {
    hide Has;
    var j := if Has(cfg, CALLCHAIN) then CALLCHAIN else if Has(cfg, RAW) then RAW
             else if Has(cfg, BRANCH_STACK) then BRANCH_STACK else READ;
    assert j in Wanted(cfg, j);
    assert VariableKind(cfg, j);
    hide Wanted;
    assert j in CommonKinds(cfg);
  }

  lemma FrontBreaks(cfg: Config) returns (fs: seq<Field>)
    requires Has(cfg, IDENTIFIER) && VariableFront(cfg)
    ensures HeaderSample(cfg, fs) && !InSync(cfg, fs)
  {
    hide CommonKinds, HeaderTail, DecoderTail, Has, VariableFront, VariableKind, AllFixed, HeaderSample, InSync;
    FrontIsCommon(cfg);
    var c, k, p := FirstVariable(cfg, CommonKinds(cfg));
    assert Wanted(cfg, IDENTIFIER) == [IDENTIFIER];
    assert [IDENTIFIER] + (c + [k] + p) + HeaderTail(cfg) == [IDENTIFIER] + c + ([k] + p + HeaderTail(cfg));
    assert (c + [k] + p) + DecoderTail(cfg) == c + [k] + (p + DecoderTail(cfg));
    fs := IdentifierBreaks(cfg, cfg, c, [k] + p + HeaderTail(cfg), k, p + DecoderTail(cfg));
  }

  lemma LateStackBreaks(cfg: Config) returns (fs: seq<Field>)
    requires Has(cfg, STACK_USER) && !Has(cfg, PHYS_ADDR) && HeaderLead(cfg) < DecoderLead(cfg)
    requires Has(cfg, IDENTIFIER) ==> !VariableFront(cfg)
    ensures HeaderSample(cfg, fs) && !InSync(cfg, fs)
  {
    hide CommonKinds, Has, VariableFront, VariableKind, AllFixed, HeaderSample, InSync, MinSum;
    LeadSums(cfg);
    WantedFixed(cfg, REGS_INTR) by { IntrFixed(cfg); }
    if Has(cfg, IDENTIFIER) {
      CommonFixed(cfg);
      FixedAppend(cfg, CommonKinds(cfg), Wanted(cfg, REGS_INTR));
      NoneFixed(cfg);
      assert DecoderBefore(cfg) == [] + DecoderBefore(cfg);
      fs := StackBreaks(cfg, [], DecoderBefore(cfg));
    } else {
      fs := StackBreaks(cfg, CommonKinds(cfg), Wanted(cfg, REGS_INTR));
    }
  }

  lemma IntrFixed(cfg: Config)
    ensures !VariableKind(cfg, REGS_INTR)
  {
  }

  lemma EarlyStackBreaks(cfg: Config) returns (fs: seq<Field>)
    requires Has(cfg, STACK_USER) && !Has(cfg, PHYS_ADDR) && DecoderLead(cfg) < HeaderLead(cfg)
    requires !VariableFront(cfg)
    ensures HeaderSample(cfg, fs) && !InSync(cfg, fs)
  {
    hide CommonKinds, HeaderAfter, DecoderAfter, Has, VariableFront, VariableKind, AllFixed, HeaderSample, InSync;
    OrdersAroundStack(cfg);
    CommonFixed(cfg);
    StackVariable(cfg);
    assert DecoderBefore(cfg) == CommonKinds(cfg);
    assert HeaderBefore(cfg) + [STACK_USER] + HeaderAfter(cfg) ==
           [IDENTIFIER] + CommonKinds(cfg) + ([STACK_USER] + HeaderAfter(cfg));
    fs := IdentifierBreaks(cfg, cfg, CommonKinds(cfg), [STACK_USER] + HeaderAfter(cfg), STACK_USER, DecoderAfter(cfg));
  }

  lemma SyncNecessary(cfg: Config) returns (fs: seq<Field>)
    requires !SyncMask(cfg)
    ensures HeaderSample(cfg, fs) && !InSync(cfg, fs)
  {
    hide Has, VariableFront, HeaderSample, InSync;
    if Has(cfg, PHYS_ADDR) {
      fs := PhysAddrBreaks(cfg);
    } else if Has(cfg, IDENTIFIER) && VariableFront(cfg) {
      fs := FrontBreaks(cfg);
    } else if HeaderLead(cfg) < DecoderLead(cfg) {
      fs := LateStackBreaks(cfg);
    } else {
      fs := EarlyStackBreaks(cfg);
    }
  }

  /** The exact condition: the cursor lands on the end of every sample the kernel can
      write under a configuration, wherever the sample stands, if and only if the
      configuration satisfies SyncMask. */
  lemma SyncExact(cfg: Config)
    ensures SyncMask(cfg) <==> forall fs :: HeaderSample(cfg, fs) ==> InSync(cfg, fs)
    ensures SyncMask(cfg) <==>
            forall fs, d, off: nat :: HeaderSample(cfg, fs) && At(d, off, EncodeFields(fs)) ==>
              SampleEndsAt(cfg, d, off, off + |EncodeFields(fs)|)
  {
    hide SyncMask, InSync, HeaderSample, At, EncodeFields, SampleEndsAt;
    if SyncMask(cfg) {
      forall fs | HeaderSample(cfg, fs) ensures InSync(cfg, fs) { HeaderInSync(cfg, fs); }
      forall fs, d, off: nat | HeaderSample(cfg, fs) && At(d, off, EncodeFields(fs))
        ensures SampleEndsAt(cfg, d, off, off + |EncodeFields(fs)|)
      {
        InSyncAnywhere(cfg, fs, d, off);
      }
    } else {
      var fs := SyncNecessary(cfg);
      AtWhole(EncodeFields(fs));
      InSyncAnywhere(cfg, fs, EncodeFields(fs), 0);
    }
  }

  lemma HeaderInSync(cfg: Config, fs: seq<Field>)
    requires SyncMask(cfg) && HeaderSample(cfg, fs)
    ensures InSync(cfg, fs)
  {
    SyncSufficient(cfg, fs);
  }
}
