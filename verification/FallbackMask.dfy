/** When an event opens only on the second try, without branch stacks, the handler goes on
    decoding with the mask that was asked for. This module settles when that is harmless. */
module FallbackMask {
  import opened Bytes
  import opened Layout
  import opened Decoder
  import opened FieldLaws
  import opened SampleSync
  import opened SampleSyncNecessary
  import opened Records
  import opened Batch
  import opened Sampler

  /** What the kernel writes under, on a core whose event answered o. */
  function KernelConfig(cfg: Config, o: Open): Config {
    cfg.(sampleType := KernelType(cfg.sampleType, o))
  }

  function Fallback(cfg: Config): Config { cfg.(sampleType := WithoutBranches(cfg.sampleType)) }

  lemma FallbackWanted(cfg: Config, k: Kind)
    ensures Wanted(Fallback(cfg), k) == if k == BRANCH_STACK then [] else Wanted(cfg, k)
  {
  }

  /** Everything up to the place of the branch stack. */
  function FrontKinds(cfg: Config): seq<Kind> {
    PlaceKinds(cfg) + OriginKinds(cfg) + (Wanted(cfg, READ) + Wanted(cfg, CALLCHAIN) + Wanted(cfg, RAW))
  }

  /** What the kernel writes from there on. */
  function RestKinds(cfg: Config): seq<Kind> {
    Wanted(cfg, REGS_USER) + HeaderTail(cfg)
  }

  lemma FallbackParts(cfg: Config)
    ensures PlaceKinds(Fallback(cfg)) == PlaceKinds(cfg)
    ensures OriginKinds(Fallback(cfg)) == OriginKinds(cfg)
    ensures HeaderTail(Fallback(cfg)) == HeaderTail(cfg)
  {
    FallbackWanted(cfg, IP);
    FallbackWanted(cfg, TID);
    FallbackWanted(cfg, TIME);
    FallbackWanted(cfg, ADDR);
    FallbackWanted(cfg, ID);
    FallbackWanted(cfg, STREAM_ID);
    FallbackWanted(cfg, CPU);
    FallbackWanted(cfg, PERIOD);
    FallbackWanted(cfg, STACK_USER);
    FallbackWanted(cfg, WEIGHT);
    FallbackWanted(cfg, DATA_SRC);
    FallbackWanted(cfg, TRANSACTION);
    FallbackWanted(cfg, REGS_INTR);
    FallbackWanted(cfg, PHYS_ADDR);
    hide Has, Fallback, Wanted;
  }

  lemma FallbackBulk(cfg: Config)
    requires Has(cfg, BRANCH_STACK)
    ensures var read := Wanted(cfg, READ) + Wanted(cfg, CALLCHAIN) + Wanted(cfg, RAW);
            && BulkKinds(Fallback(cfg)) == read + Wanted(cfg, REGS_USER)
            && BulkKinds(cfg) == read + [BRANCH_STACK] + Wanted(cfg, REGS_USER)
  {
    FallbackWanted(cfg, READ);
    FallbackWanted(cfg, CALLCHAIN);
    FallbackWanted(cfg, RAW);
    FallbackWanted(cfg, BRANCH_STACK);
    FallbackWanted(cfg, REGS_USER);
    assert Wanted(cfg, BRANCH_STACK) == [BRANCH_STACK];
    hide Has, Fallback, Wanted;
  }

  /** The two orders, cut where the branch stack is expected. */
  lemma FallbackOrders(cfg: Config)
    requires Has(cfg, BRANCH_STACK)
    ensures HeaderKinds(Fallback(cfg)) == Wanted(cfg, IDENTIFIER) + FrontKinds(cfg) + RestKinds(cfg)
    ensures DecoderKinds(cfg) == FrontKinds(cfg) + [BRANCH_STACK] + (Wanted(cfg, REGS_USER) + DecoderTail(cfg))
  {
    hide Has, Fallback, Wanted, PlaceKinds, OriginKinds, BulkKinds, HeaderTail, DecoderTail;
    FallbackParts(cfg);
    FallbackBulk(cfg);
    FallbackWanted(cfg, IDENTIFIER);
    var i, f, u := Wanted(cfg, IDENTIFIER), PlaceKinds(cfg) + OriginKinds(cfg), Wanted(cfg, REGS_USER);
    var read := Wanted(cfg, READ) + Wanted(cfg, CALLCHAIN) + Wanted(cfg, RAW);
    assert i + (f + (read + u)) + HeaderTail(cfg) == i + (f + read) + (u + HeaderTail(cfg));
    assert f + (read + [BRANCH_STACK] + u) + DecoderTail(cfg) == (f + read) + [BRANCH_STACK] + (u + DecoderTail(cfg));
  }

  /** More branch entries than any record of this module has room for. */
  const MANY: u64 := 1000

  lemma BranchOverrun(cfg: Config, d: seq<byte>, off: nat)
    requires At(d, off, U64(MANY)) && |d| < 24 * MANY
    ensures DecodeField(cfg, BRANCH_STACK, d, off) == Fault
  {
    hide At, U64, GetU64, GetBranches, EncodeBranches;
    GetU64Law(d, off, MANY);
    var r := GetBranches(d, off + 8, MANY);
    if r.Ok? {
      BranchesLaw(d, off + 8, MANY, r.value);
      AtRoom(d, off + 8, EncodeBranches(r.value));
    }
  }

  lemma AtRoom(d: seq<byte>, off: nat, b: seq<byte>)
    requires At(d, off, b)
    ensures |b| <= |d|
  {
  }

  /** A field k where the decoder expects branches, with MANY in its first word. */
  lemma OtherFieldBreaks(hc: Config, cfg: Config, z: seq<Kind>, k: Kind, h: seq<Kind>, p: seq<Kind>, m: nat)
    returns (fs: seq<Field>)
    requires SameFormats(hc, cfg)
    requires HeaderKinds(hc) == z + [k] + h && DecoderKinds(cfg) == z + [BRANCH_STACK] + p
    requires m <= MANY + 8
    requires var b := Spike(MinSum(cfg, z), MANY, m + MinSum(hc, h));
             Advances(hc, [k], b, MinSum(cfg, z), 8 + m)
    ensures HeaderSample(hc, fs) && !InSync(cfg, fs)
  {
    hide HeaderKinds, DecoderKinds, MinSum, DecodeFields, DecodeField, HeaderSample, EncodeFields, Advances, At, ZeroRange;
    var n := MinSum(cfg, z);
    var b := Spike(n, MANY, m + MinSum(hc, h));
    SameSums(hc, cfg, z);
    HeaderCount(hc);
    MinSumAppend(hc, z, [k]);
    MinSumAppend(hc, z + [k], h);
    ZeroRun(hc, z, b, 0);
    SubRange(b, n + 8, m + MinSum(hc, h), m, MinSum(hc, h));
    ZeroRun(hc, h, b, n + 8 + m);
    AdvancesAppend(hc, z, [k], b, 0, n, 8 + m);
    AdvancesAppend(hc, z + [k], h, b, 0, n + 8 + m, MinSum(hc, h));
    fs := WitnessOf(hc, b);
    ZeroRun(cfg, z, b, 0);
    BranchOverrun(cfg, b, n);
    FaultAfter(cfg, z, BRANCH_STACK, p, b, n);
  }

  lemma SubRange(b: seq<byte>, off: nat, n: nat, skip: nat, m: nat)
    requires ZeroRange(b, off, n) && skip + m <= n
    ensures ZeroRange(b, off + skip, m)
  {
  }

  lemma RestMember(cfg: Config, k: Kind)
    requires k in RestKinds(cfg)
    ensures k == STACK_USER || (!VariableKind(cfg, k) && MinSize(cfg, k) >= 8)
  {
    hide Wanted, Has;
  }

  lemma FixedFieldStep(hc: Config, k: Kind, n: nat, m: nat)
    requires !VariableKind(hc, k) && MinSize(hc, k) >= 8
    ensures var b := Spike(n, MANY, MinSize(hc, k) - 8 + m);
            Advances(hc, [k], b, n, MinSize(hc, k))
  {
    hide DecodeFields, VariableKind, MinSize, At, ZeroRange;
    var b := Spike(n, MANY, MinSize(hc, k) - 8 + m);
    assert MinSum(hc, [k]) == MinSize(hc, k) + MinSum(hc, []);
    FixedRun(hc, [k], b, n);
  }

  lemma StackFieldStep(hc: Config, n: nat, m: nat)
    ensures var b := Spike(n, MANY, MANY + 8 + m);
            Advances(hc, [STACK_USER], b, n, 16 + MANY)
  {
    hide DecodeFields, At, Advances, ZeroRange;
    var b := Spike(n, MANY, MANY + 8 + m);
    SubRange(b, n + 8, MANY + 8 + m, MANY, 8);
    StackField(hc, b, n, MANY);
  }

  /** Without IDENTIFIER the decoder takes what stands there for branches. */
  lemma PlainFallbackBreaks(cfg: Config) returns (fs: seq<Field>)
    requires Has(cfg, BRANCH_STACK) && !Has(cfg, IDENTIFIER)
    ensures HeaderSample(Fallback(cfg), fs) && !InSync(cfg, fs)
  {
    hide Has, FrontKinds, RestKinds, DecoderTail, HeaderKinds, DecoderKinds, MinSum, HeaderSample, InSync, Advances;
    FallbackOrders(cfg);
    var hc, z, q := Fallback(cfg), FrontKinds(cfg), RestKinds(cfg);
    var p := Wanted(cfg, REGS_USER) + DecoderTail(cfg);
    assert [] + z + q == z + q;
    if q == [] {
      assert z + [] == z;
      fs := NothingThere(hc, cfg, z, p);
    } else {
      var k, h := q[0], q[1..];
      RestMember(cfg, k);
      assert z + q == z + [k] + h;
      if k == STACK_USER {
        StackFieldStep(hc, MinSum(cfg, z), MinSum(hc, h));
        fs := OtherFieldBreaks(hc, cfg, z, k, h, p, MANY + 8);
      } else {
        FixedFieldStep(hc, k, MinSum(cfg, z), MinSum(hc, h));
        fs := OtherFieldBreaks(hc, cfg, z, k, h, p, MinSize(hc, k) - 8);
      }
    }
  }

  /** A sample that ends before the branches the decoder expects. */
  lemma NothingThere(hc: Config, cfg: Config, z: seq<Kind>, p: seq<Kind>) returns (fs: seq<Field>)
    requires SameFormats(hc, cfg) && HeaderKinds(hc) == z && DecoderKinds(cfg) == z + [BRANCH_STACK] + p
    ensures HeaderSample(hc, fs) && !InSync(cfg, fs)
  {
    hide HeaderKinds, DecoderKinds, MinSum, DecodeFields, HeaderSample, EncodeFields;
    var b := Zeros(MinSum(cfg, z));
    SameSums(hc, cfg, z);
    HeaderCount(hc);
    ZeroRun(hc, z, b, 0);
    fs := WitnessOf(hc, b);
    ZeroRun(cfg, z, b, 0);
    FaultAfter(cfg, z, BRANCH_STACK, p, b, |b|);
  }

  /** The first variable field of a list that ends in one. */
  lemma FirstOfSnoc(cfg: Config, f: seq<Kind>, j: Kind)
    returns (c: seq<Kind>, k: Kind, p: seq<Kind>, rest: seq<Kind>)
    requires VariableKind(cfg, j)
    ensures f + [j] == c + [k] + p && f == c + rest
    ensures AllFixed(cfg, c) && VariableKind(cfg, k)
  {
    hide VariableKind, AllFixed;
    var fj := f + [j];
    assert fj[|f|] == j;
    c, k, p := FirstVariable(cfg, fj);
    rest := f[|c|..];
    assert f == fj[..|f|] && c == fj[..|c|];
  }

  lemma Reassociate<T>(i: seq<T>, c: seq<T>, rest: seq<T>, r: seq<T>)
    ensures i + (c + rest) + r == i + c + (rest + r)
  {
  }

  /** With IDENTIFIER in front even an earlier variable field is looked for too early. */
  lemma IdentifiedBreaks(hc: Config, cfg: Config, f: seq<Kind>, j: Kind, r: seq<Kind>, t: seq<Kind>)
    returns (fs: seq<Field>)
    requires SameFormats(hc, cfg) && VariableKind(cfg, j)
    requires HeaderKinds(hc) == [IDENTIFIER] + f + r
    requires DecoderKinds(cfg) == f + [j] + t
    ensures HeaderSample(hc, fs) && !InSync(cfg, fs)
  {
    hide *;
    var c, k, p, rest := FirstOfSnoc(cfg, f, j);
    Reassociate([IDENTIFIER], c, rest, r);
    Reassociate([], c + [k], p, t);
    assert [] + (c + [k] + p) + t == c + [k] + p + t;
    assert [] + (c + [k]) + (p + t) == c + [k] + (p + t);
    fs := IdentifierBreaks(hc, cfg, c, rest + r, k, p + t);
  }

  lemma IdentifiedFallbackBreaks(cfg: Config) returns (fs: seq<Field>)
    requires Has(cfg, BRANCH_STACK) && Has(cfg, IDENTIFIER)
    ensures HeaderSample(Fallback(cfg), fs) && !InSync(cfg, fs)
  {
    assert Wanted(cfg, IDENTIFIER) == [IDENTIFIER] && VariableKind(cfg, BRANCH_STACK);
    assert SameFormats(Fallback(cfg), cfg);
    FallbackOrders(cfg);
    hide *;
    fs := IdentifiedBreaks(Fallback(cfg), cfg, FrontKinds(cfg), BRANCH_STACK, RestKinds(cfg),
                           Wanted(cfg, REGS_USER) + DecoderTail(cfg));
  }

  lemma FallbackBreaks(cfg: Config) returns (fs: seq<Field>)
    requires Has(cfg, BRANCH_STACK)
    ensures HeaderSample(Fallback(cfg), fs) && !InSync(cfg, fs)
  {
    hide HeaderSample, InSync;
    if Has(cfg, IDENTIFIER) {
      fs := IdentifiedFallbackBreaks(cfg);
    } else {
      fs := PlainFallbackBreaks(cfg);
    }
  }

  /** The exact condition, core by core: the handler keeps in step with everything the kernel
      may write there if and only if SyncMask holds and either the first try succeeded or no
      branch stacks were asked for. */
  lemma FallbackExact(cfg: Config, o: Open)
    ensures (forall fs :: HeaderSample(KernelConfig(cfg, o), fs) ==> InSync(cfg, fs)) <==>
            SyncMask(cfg) && (o.first >= 0 || !Has(cfg, BRANCH_STACK))
  {
    hide SyncMask, HeaderSample, InSync;
    if o.first >= 0 || !Has(cfg, BRANCH_STACK) {
      assert KernelConfig(cfg, o) == cfg;
      SyncExact(cfg);
    } else {
      assert KernelConfig(cfg, o) == Fallback(cfg);
      var fs := FallbackBreaks(cfg);
    }
  }

  /** The smallest record around a sample. */
  function SampleRecord(fs: seq<Field>): (r: Record)
    requires 8 + |EncodeFields(fs)| < MAX_RECORD
    ensures WellFormed(r)
  {
    Record(0, 8 + |EncodeFields(fs)|, Sample(fs), [])
  }

  /** The same for records: it is exactly then that the decoder can walk over every sample
      of that core's ring, which is what the theorems about runs ask of the ring. */
  lemma FallbackRecords(cfg: Config, o: Open)
    ensures (forall r: Record :: r.body.Sample? && HeaderRecord(KernelConfig(cfg, o), r) ==> Decodable(cfg, r)) <==>
            SyncMask(cfg) && (o.first >= 0 || !Has(cfg, BRANCH_STACK))
  {
    hide SyncMask, HeaderSample, InSync, EncodeFields, Encode, Has, KernelConfig;
    FallbackExact(cfg, o);
    var kc := KernelConfig(cfg, o);
    if forall r: Record :: r.body.Sample? && HeaderRecord(kc, r) ==> Decodable(cfg, r) {
      forall fs | HeaderSample(kc, fs) ensures InSync(cfg, fs) {
        SampleSize(kc, fs);
        var r := SampleRecord(fs);
        assert HeaderRecord(kc, r);
        assert Decodable(cfg, r);
      }
    }
  }

  lemma SampleSize(cfg: Config, fs: seq<Field>)
    requires HeaderSample(cfg, fs)
    ensures 8 + |EncodeFields(fs)| < MAX_RECORD
  {
  }
}
