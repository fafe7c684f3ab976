/** The sample types that this repository itself asks for, and the fallback that
    PAPI_sample_init takes when an event does not open. */
module Configurations {
  import opened Bytes
  import opened Layout
  import opened Decoder
  import opened FieldLaws
  import opened FieldFacts
  import opened SampleSync
  import opened Sampler

  // ---- The enumerations of the header ----

  /** The shift by which include/perf_event.h defines the bit. */
  function SampleShift(k: Kind): nat {
    match k
    case IP => 0
    case TID => 1
    case TIME => 2
    case ADDR => 3
    case READ => 4
    case CALLCHAIN => 5
    case ID => 6
    case CPU => 7
    case PERIOD => 8
    case STREAM_ID => 9
    case RAW => 10
    case BRANCH_STACK => 11
    case REGS_USER => 12
    case STACK_USER => 13
    case WEIGHT => 14
    case DATA_SRC => 15
    case IDENTIFIER => 16
    case TRANSACTION => 17
    case REGS_INTR => 18
    case PHYS_ADDR => 19
  }

  lemma ShiftedBit(k: Kind)
    ensures SampleBit(k) == 1 << SampleShift(k)
  {
    match k
    case _ =>
  }

  lemma OnlyBit(k: Kind, j: Kind)
    ensures BitSet(1 << SampleShift(k), j) <==> j == k
  {
    ShiftedBit(k);
    match k
    case _ => match j case _ =>
  }

  /** A single bit asks for one field. */
  lemma SampleBitMask(k: Kind)
    ensures KindsOf(1 << SampleShift(k)) == {k}
  {
    var one: bv32 := 1 << SampleShift(k);
    hide BitSet;
    forall j: Kind ensures j in KindsOf(one) <==> j in {k} {
      OnlyBit(k, j);
    }
  }

  lemma BothMasks(a: bv32, b: bv32, j: Kind)
    ensures !BitSet(0, j)
    ensures BitSet(a | b, j) <==> BitSet(a, j) || BitSet(b, j)
  {
    hide SampleBit, Meets;
    MeetsBit(0, j);
    MeetsBit(a, j);
    MeetsBit(b, j);
    MeetsBit(a | b, j);
    MeetsEither(a, b, SampleBit(j));
    hide BitSet;
  }

  /** And a union of masks for the union of the fields. */
  lemma SampleMaskUnion(a: bv32, b: bv32)
    ensures KindsOf(0) == {} && KindsOf(a | b) == KindsOf(a) + KindsOf(b)
  {
    hide BitSet;
    var both := a | b;
    forall j: Kind ensures j in KindsOf(both) <==> j in KindsOf(a) + KindsOf(b) {
      BothMasks(a, b, j);
    }
    forall j: Kind ensures j !in KindsOf(0) {
      BothMasks(a, b, j);
    }
  }

  predicate Meets(a: bv32, b: bv32) { a & b != 0 }

  lemma MeetsEither(a: bv32, b: bv32, c: bv32)
    ensures Meets(a | b, c) <==> Meets(a, c) || Meets(b, c)
    ensures !Meets(0, c)
  {
    EitherBit(a, b, c);
  }

  lemma MeetsBit(mask: bv32, j: Kind)
    ensures BitSet(mask, j) <==> Meets(mask, SampleBit(j))
  {
    hide SampleBit;
  }

  lemma EitherBit(a: bv32, b: bv32, c: bv32)
    ensures (a | b) & c != 0 <==> a & c != 0 || b & c != 0
  {
  }

  lemma FormatMasks(a: bv32, b: bv32)
    ensures FlagsOf(1 << 0) == {FORMAT_TOTAL_TIME_ENABLED} && FlagsOf(1 << 1) == {FORMAT_TOTAL_TIME_RUNNING}
    ensures FlagsOf(1 << 2) == {FORMAT_ID} && FlagsOf(1 << 3) == {FORMAT_GROUP} && FlagsOf(0) == {}
    ensures FlagsOf(a | b) == FlagsOf(a) + FlagsOf(b)
  {
    forall f: Flag ensures (a | b) & FlagBit(f) != 0 <==> a & FlagBit(f) != 0 || b & FlagBit(f) != 0 {
      EitherBit(a, b, FlagBit(f));
    }
  }

  // ---- The masks of this repository ----

  /** `sample_type_handle` as initialised: IP, READ and CPU. */
  lemma DefaultMaskIsExact(cfg: Config)
    requires cfg.sampleType == KindsOf(0x1 | 0x10 | 0x80)
    ensures cfg.sampleType == {IP, READ, CPU}
    ensures OrderMask(cfg) && SyncMask(cfg)
  {
  }

  lemma AllFlags()
    ensures FlagsOf(0x8 | 0x4 | 0x1 | 0x2) ==
            {FORMAT_TOTAL_TIME_ENABLED, FORMAT_TOTAL_TIME_RUNNING, FORMAT_ID, FORMAT_GROUP}
  {
  }

  /** `read_format_handle`: every counter comes with its id, after both times. The group of
      one that each core's event makes takes 40 bytes. */
  lemma HandlerReadLength(cfg: Config, d: seq<byte>, off: nat, rv: ReadValues, o: nat)
    requires cfg.readFormat == FlagsOf(0x8 | 0x4 | 0x1 | 0x2)
    requires GetRead(cfg, d, off) == Ok((rv, o))
    ensures rv.Group? && (rv.nr < 0x8000_0000_0000_0000 ==> |rv.counters| == rv.nr && o - off == 24 + 16 * rv.nr)
    ensures rv.nr >= 0x8000_0000_0000_0000 ==> rv.counters == [] && o - off == 24
    ensures rv.enabled.Some? && rv.running.Some? && forall c <- rv.counters :: c.id.Some?
  {
    AllFlags();
    hide FlagsOf, GetRead, At, EncodeRead;
    ReadLaw(cfg, d, off, rv, o);
    ReadLength(cfg, d, off, rv, o);
  }

  const TEST_EVENTS: bv32 :=
    0x1 | 0x2 | 0x4 | 0x8 | 0x10 | 0x20 | 0x40 | 0x80 | 0x100 | 0x200 | 0x400 | 0x8000 | 0x4_0000

  lemma TestKinds(mask: bv32)
    requires mask == TEST_EVENTS || mask == TEST_EVENTS | 0x800
    ensures BitSet(mask, REGS_INTR) && BitSet(mask, DATA_SRC)
    ensures !BitSet(mask, PHYS_ADDR) && !BitSet(mask, IDENTIFIER) && !BitSet(mask, STACK_USER)
  {
  }

  /** The mask of src/test_events.c, with or without branch stacks, keeps the cursor in step
      but does not report DATA_SRC and the interrupt registers under their own names. */
  lemma TestEventsMask(cfg: Config, mask: bv32)
    requires mask == TEST_EVENTS || mask == TEST_EVENTS | 0x800
    requires cfg.sampleType == KindsOf(mask)
    ensures SyncMask(cfg) && !OrderMask(cfg)
  {
    hide BitSet;
    TestKinds(mask);
  }

  /** Clearing the bit is removing the field. */
  lemma ClearedBit(sampleType: bv32)
    ensures KindsOf(sampleType & !SampleBit(BRANCH_STACK)) == WithoutBranches(KindsOf(sampleType))
  {
    var cleared := sampleType & !SampleBit(BRANCH_STACK);
    hide BitSet;
    forall k: Kind ensures k in KindsOf(cleared) <==> k in WithoutBranches(KindsOf(sampleType)) {
      OneBit(sampleType, k);
    }
  }

  lemma OneBit(sampleType: bv32, k: Kind)
    ensures BitSet(sampleType & !SampleBit(BRANCH_STACK), k) <==> k != BRANCH_STACK && BitSet(sampleType, k)
  {
    match k
    case _ =>
  }
}
