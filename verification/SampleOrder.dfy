/** For which configurations the decoder reports exactly the fields the kernel wrote. */
module SampleOrder {
  import opened Bytes
  import opened Layout
  import opened Decoder
  import opened FieldLaws
  import opened SampleSync
  import opened SampleSyncNecessary

  // ---- Sufficient ----

  lemma CommonBeyond(cfg: Config)
    requires !BeyondIdentity(cfg)
    ensures CommonKinds(cfg) == []
  {
    hide Has, CommonKinds;
    if CommonKinds(cfg) != [] {
      CommonMember(cfg, CommonKinds(cfg)[0]);
    }
  }

  lemma WantedIs(cfg: Config, k: Kind)
    ensures Wanted(cfg, k) == if Has(cfg, k) then [k] else []
  {
  }

  /** Then only TRANSACTION can follow IDENTIFIER. */
  lemma IdentityTails(cfg: Config)
    requires !Has(cfg, PHYS_ADDR) && Has(cfg, IDENTIFIER) && !BeyondIdentity(cfg)
    ensures Wanted(cfg, IDENTIFIER) == [IDENTIFIER]
    ensures HeaderTail(cfg) == Wanted(cfg, TRANSACTION)
    ensures DecoderTail(cfg) == [IDENTIFIER] + Wanted(cfg, TRANSACTION)
  {
    WantedIs(cfg, STACK_USER);
    WantedIs(cfg, WEIGHT);
    WantedIs(cfg, DATA_SRC);
    WantedIs(cfg, REGS_INTR);
    WantedIs(cfg, PHYS_ADDR);
    WantedIs(cfg, IDENTIFIER);
    assert !Has(cfg, REGS_INTR) && !Has(cfg, STACK_USER) && !Has(cfg, WEIGHT) && !Has(cfg, DATA_SRC);
    hide Has, Wanted, BeyondIdentity;
    var t := Wanted(cfg, TRANSACTION);
    assert [] + [] + [] + t + [] + [] == t;
    assert [] + [] + [] + [] + [IDENTIFIER] + t == [IDENTIFIER] + t;
  }

  lemma IdentityOrder(cfg: Config)
    requires !Has(cfg, PHYS_ADDR) && Has(cfg, IDENTIFIER) && !BeyondIdentity(cfg)
    ensures DecoderKinds(cfg) == HeaderKinds(cfg)
  {
    CommonBeyond(cfg);
    IdentityTails(cfg);
    hide Has, CommonKinds, Wanted, BeyondIdentity, HeaderTail, DecoderTail;
    EmptyMiddle([IDENTIFIER], Wanted(cfg, TRANSACTION));
  }

  lemma EmptyMiddle<T>(a: seq<T>, b: seq<T>)
    ensures a + [] + b == [] + (a + b)
  {
  }

  lemma InterruptOrder(cfg: Config)
    requires !Has(cfg, PHYS_ADDR) && !Has(cfg, IDENTIFIER) && Has(cfg, REGS_INTR)
    requires !Has(cfg, STACK_USER) && !Has(cfg, WEIGHT) && !Has(cfg, DATA_SRC) && !Has(cfg, TRANSACTION)
    ensures DecoderKinds(cfg) == HeaderKinds(cfg)
  {
    hide CommonKinds, Has;
    assert HeaderTail(cfg) == [REGS_INTR];
    assert DecoderTail(cfg) == [REGS_INTR];
  }

  lemma OrderSufficient(cfg: Config)
    requires OrderMask(cfg)
    ensures DecoderKinds(cfg) == HeaderKinds(cfg)
  {
    hide Has, HeaderKinds, DecoderKinds, BeyondIdentity;
    if Has(cfg, IDENTIFIER) {
      IdentityOrder(cfg);
    } else if Has(cfg, REGS_INTR) {
      InterruptOrder(cfg);
    } else {
      UntouchedOrder(cfg);
    }
  }

  // ---- Necessary ----

  lemma EncodeNonEmpty(f: Field)
    ensures |EncodeField(f)| >= 4
  {
    hide EncodeOption, EncodeCounters, EncodeWords, EncodeBranches, EncodeRegs, LE, U32, U64;
  }

  ghost predicate AllZero(b: seq<byte>) { forall i :: 0 <= i < |b| ==> b[i] == 0 }

  lemma {:induction false} ZeroEncoded(fs: seq<Field>, f: Field)
    requires f in fs && AllZero(EncodeFields(fs))
    ensures AllZero(EncodeField(f))
  {
    hide EncodeField;
    var a, b := EncodeField(fs[0]), EncodeFields(fs[1..]);
    assert forall i :: 0 <= i < |a| ==> (a + b)[i] == a[i];
    assert forall i :: 0 <= i < |b| ==> (a + b)[|a| + i] == b[i];
    if f != fs[0] {
      ZeroEncoded(fs[1..], f);
    }
  }

  /** After a common stretch z the header has a field of kind k where the decoder
      expects kind j. A sample whose only non-zero field is that one tells them apart. */
  lemma OrdersDiffer(cfg: Config, z: seq<Kind>, k: Kind, h: seq<Kind>, j: Kind, p: seq<Kind>, v: u64, m: nat)
    returns (fs: seq<Field>)
    requires HeaderKinds(cfg) == z + [k] + h && DecoderKinds(cfg) == z + [j] + p && j != k
    requires 0 < v < 256
    requires var b := Spike(MinSum(cfg, z), v, m + MinSum(cfg, h));
             Advances(cfg, [k], b, MinSum(cfg, z), 8 + m)
    requires m <= 16
    ensures HeaderSample(cfg, fs) && !Recovered(cfg, fs)
  {
    hide MinSum, HeaderKinds, DecoderKinds, Shape, EncodeFields, EncodeField, DecodeField, DecodeFields, Written;
    var n := MinSum(cfg, z);
    var b := Spike(n, v, m + MinSum(cfg, h));
    assert b[n] == v by { assert b[n..n + 8][0] == U64(v)[0] == v; }
    HeaderCount(cfg);
    MinSumAppend(cfg, z, [k]);
    MinSumAppend(cfg, z + [k], h);
    ZeroRun(cfg, z, b, 0);
    ZeroRun(cfg, h, b, n + 8 + m);
    var fz, fk, fh := DecodeFields(cfg, z, b, 0).value.0, DecodeFields(cfg, [k], b, n).value.0,
                      DecodeFields(cfg, h, b, n + 8 + m).value.0;
    DecodeThree(cfg, z, [k], h, b, fz, fk, fh, n, n + 8 + m, |b|);
    fs := fz + fk + fh;
    WitnessIs(cfg, b, fs);
    ZeroPart(cfg, z, b, 0, fz);
    ZeroPart(cfg, h, b, n + 8 + m, fh);
    DecodedCount(cfg, [k], b, n);
    var r := DecodeSample(cfg, b, 0);
    if r.Ok? {
      assert z + [j] + p == z + ([j] + p);
      DecodeAppend(cfg, z, [j] + p, b, 0);
      var q := DecodeFields(cfg, [j] + p, b, n);
      DecodeHead(cfg, j, p, b, n);
      var g := DecodeField(cfg, j, b, n).value.0;
      assert g in q.value.0 && g in r.value.0;
      FieldLaw(cfg, j, b, n, g, DecodeField(cfg, j, b, n).value.1);
      EncodeNonEmpty(g);
      assert EncodeField(g)[0] == v;
      assert |fk| == 1 && KindOf(fk[0]) == Kinds(fk)[0] == k;
      assert g !in fs;
    }
  }

  lemma DecodeHead(cfg: Config, j: Kind, p: seq<Kind>, d: seq<byte>, off: nat)
    requires DecodeFields(cfg, [j] + p, d, off).Ok?
    ensures DecodeField(cfg, j, d, off).Ok?
    ensures DecodeField(cfg, j, d, off).value.0 in DecodeFields(cfg, [j] + p, d, off).value.0
  {
    hide DecodeField;
    assert ([j] + p)[0] == j && ([j] + p)[1..] == p;
  }

  lemma WitnessIs(cfg: Config, b: seq<byte>, fs: seq<Field>)
    requires DecodeFields(cfg, HeaderKinds(cfg), b, 0) == Ok((fs, |b|)) && forall f <- fs :: Written(f)
    requires 8 + |b| < MAX_RECORD
    ensures HeaderSample(cfg, fs) && EncodeFields(fs) == b
  {
    hide DecodeFields, HeaderKinds, EncodeFields, Shape, Written;
    var fs' := WitnessOf(cfg, b);
    FieldsLaw(cfg, HeaderKinds(cfg), b, 0, fs, |b|);
    assert b[0..|b|] == b;
  }

  /** Fields read from zeros encode to zeros. */
  lemma ZeroPart(cfg: Config, ks: seq<Kind>, d: seq<byte>, off: nat, fs: seq<Field>)
    requires DecodeFields(cfg, ks, d, off) == Ok((fs, off + MinSum(cfg, ks)))
    requires ZeroRange(d, off, MinSum(cfg, ks))
    ensures forall f <- fs :: AllZero(EncodeField(f))
  {
    hide DecodeFields, EncodeFields, EncodeField, MinSum, Shape;
    FieldsLaw(cfg, ks, d, off, fs, off + MinSum(cfg, ks));
    var e := EncodeFields(fs);
    assert AllZero(e) by {
      forall i | 0 <= i < |e| ensures e[i] == 0 { assert d[off..off + |e|][i] == d[off + i]; }
    }
    forall f | f in fs ensures AllZero(EncodeField(f)) { ZeroEncoded(fs, f); }
  }

  lemma NoPhysAddr(cfg: Config)
    ensures PHYS_ADDR !in DecoderKinds(cfg)
  {
    hide Wanted, CommonKinds;
    if PHYS_ADDR in CommonKinds(cfg) { CommonMember(cfg, PHYS_ADDR); }
  }

  lemma KindsMember(fs: seq<Field>, f: Field)
    requires f in fs
    ensures KindOf(f) in Kinds(fs)
  {
    var i :| 0 <= i < |fs| && fs[i] == f;
    assert Kinds(fs)[i] == KindOf(f);
  }

  lemma PhysAddrUnreported(cfg: Config) returns (fs: seq<Field>)
    requires Has(cfg, PHYS_ADDR)
    ensures HeaderSample(cfg, fs) && !Recovered(cfg, fs)
  {
    hide DecoderKinds, CommonKinds, DecodeFields, EncodeFields, Has, Shape, Written;
    fs := PhysAddrBreaks(cfg);
    assert PHYS_ADDR in HeaderKinds(cfg) by {
      WantedIs(cfg, PHYS_ADDR);
      hide Wanted;
      assert PHYS_ADDR in HeaderTail(cfg);
    }
    var i :| 0 <= i < |Kinds(fs)| && Kinds(fs)[i] == PHYS_ADDR;
    assert KindOf(fs[i]) == PHYS_ADDR;
    NoPhysAddr(cfg);
    var e := EncodeFields(fs);
    DecodedCount(cfg, DecoderKinds(cfg), e, 0);
    var r := DecodeSample(cfg, e, 0);
    if r.Ok? {
      if fs[i] in r.value.0 { KindsMember(r.value.0, fs[i]); }
      assert fs[i] in fs;
    }
  }

  lemma CommonHas(cfg: Config, k: Kind)
    requires Has(cfg, k)
    requires k !in {IDENTIFIER, STACK_USER, WEIGHT, DATA_SRC, TRANSACTION, REGS_INTR, PHYS_ADDR}
    ensures k in CommonKinds(cfg)
  {
    WantedIs(cfg, k);
    hide Has, Wanted;
  }

  /** Some field precedes IDENTIFIER in the decoder's order. */
  lemma IdentifierNotFirst(cfg: Config)
    requires !Has(cfg, PHYS_ADDR) && BeyondIdentity(cfg)
    ensures DecoderKinds(cfg) != [] && DecoderKinds(cfg)[0] != IDENTIFIER
  {
    hide Has, CommonKinds;
    var k :| k != IDENTIFIER && k != TRANSACTION && Has(cfg, k);
    if CommonKinds(cfg) != [] {
      CommonMember(cfg, CommonKinds(cfg)[0]);
    } else {
      if k !in {STACK_USER, WEIGHT, DATA_SRC, REGS_INTR} { CommonHas(cfg, k); }
      WantedIs(cfg, REGS_INTR);
      WantedIs(cfg, STACK_USER);
      WantedIs(cfg, WEIGHT);
      WantedIs(cfg, DATA_SRC);
    }
  }

  lemma IdentifierMisplaced(cfg: Config) returns (fs: seq<Field>)
    requires !Has(cfg, PHYS_ADDR) && Has(cfg, IDENTIFIER) && BeyondIdentity(cfg)
    ensures HeaderSample(cfg, fs) && !Recovered(cfg, fs)
  {
    hide Has, CommonKinds, DecoderKinds, BeyondIdentity, HeaderTail, MinSum, Advances;
    IdentifierNotFirst(cfg);
    var ks := DecoderKinds(cfg);
    var h := CommonKinds(cfg) + HeaderTail(cfg);
    WantedIs(cfg, IDENTIFIER);
    assert HeaderKinds(cfg) == [] + [IDENTIFIER] + h;
    assert ks == [] + [ks[0]] + ks[1..];
    NoneFixed(cfg);
    IdentifierSize(cfg);
    var b := Spike(0, 1, 0 + MinSum(cfg, h));
    FixedRun(cfg, [IDENTIFIER], b, 0);
    fs := OrdersDiffer(cfg, [], IDENTIFIER, h, ks[0], ks[1..], 1, 0);
  }

  lemma StackBeforeRegisters(cfg: Config) returns (fs: seq<Field>)
    requires !Has(cfg, PHYS_ADDR) && !Has(cfg, IDENTIFIER) && Has(cfg, REGS_INTR) && Has(cfg, STACK_USER)
    ensures HeaderSample(cfg, fs) && !Recovered(cfg, fs)
  {
    hide Has, CommonKinds, HeaderKinds, DecoderKinds, HeaderAfter, DecoderAfter, MinSum, Advances, HeaderSample, Recovered;
    OrdersAroundStack(cfg);
    WantedIs(cfg, IDENTIFIER);
    WantedIs(cfg, REGS_INTR);
    var c, h, p := CommonKinds(cfg), HeaderAfter(cfg), [STACK_USER] + DecoderAfter(cfg);
    assert HeaderKinds(cfg) == c + [STACK_USER] + h;
    assert DecoderKinds(cfg) == c + [REGS_INTR] + p;
    var b := Spike(MinSum(cfg, c), 8, 16 + MinSum(cfg, h));
    StackField(cfg, b, MinSum(cfg, c), 8);
    fs := OrdersDiffer(cfg, c, STACK_USER, h, REGS_INTR, p, 8, 16);
  }

  lemma TailBeforeRegisters(cfg: Config) returns (fs: seq<Field>)
    requires !Has(cfg, PHYS_ADDR) && !Has(cfg, IDENTIFIER) && Has(cfg, REGS_INTR) && !Has(cfg, STACK_USER)
    requires Has(cfg, WEIGHT) || Has(cfg, DATA_SRC) || Has(cfg, TRANSACTION)
    ensures HeaderSample(cfg, fs) && !Recovered(cfg, fs)
  {
    hide Has, Wanted, CommonKinds, MinSum, Advances, HeaderTail, DecoderTail, Spike, HeaderSample, Recovered;
    var c := CommonKinds(cfg);
    var k, h := FirstOfTail(cfg);
    var p := DecoderTail(cfg)[1..];
    WantedIs(cfg, IDENTIFIER);
    assert DecoderTail(cfg) == [REGS_INTR] + p;
    assert [] + c + ([k] + h) == c + [k] + h;
    assert c + ([REGS_INTR] + p) == c + [REGS_INTR] + p;
    assert HeaderKinds(cfg) == c + [k] + h;
    assert DecoderKinds(cfg) == c + [REGS_INTR] + p;
    var b := Spike(MinSum(cfg, c), 1, 0 + MinSum(cfg, h));
    WordSize(cfg, k);
    FixedRun(cfg, [k], b, MinSum(cfg, c));
    fs := OrdersDiffer(cfg, c, k, h, REGS_INTR, p, 1, 0);
  }

  lemma WordSize(cfg: Config, k: Kind)
    requires WordKind(k)
    ensures MinSum(cfg, [k]) == 8 && AllFixed(cfg, [k])
  {
    assert MinSum(cfg, [k]) == 8 + MinSum(cfg, []);
  }

  lemma FirstOfTail(cfg: Config) returns (k: Kind, h: seq<Kind>)
    requires !Has(cfg, PHYS_ADDR) && !Has(cfg, IDENTIFIER) && Has(cfg, REGS_INTR) && !Has(cfg, STACK_USER)
    requires Has(cfg, WEIGHT) || Has(cfg, DATA_SRC) || Has(cfg, TRANSACTION)
    ensures HeaderTail(cfg) == [k] + h && WordKind(k)
    ensures DecoderTail(cfg) != [] && DecoderTail(cfg)[0] == REGS_INTR
  {
    hide Has;
    k, h := HeaderTail(cfg)[0], HeaderTail(cfg)[1..];
  }

  lemma OrderNecessary(cfg: Config) returns (fs: seq<Field>)
    requires !OrderMask(cfg)
    ensures HeaderSample(cfg, fs) && !Recovered(cfg, fs)
  {
    hide Has, HeaderSample, Recovered, BeyondIdentity;
    if Has(cfg, PHYS_ADDR) {
      fs := PhysAddrUnreported(cfg);
    } else if Has(cfg, IDENTIFIER) && BeyondIdentity(cfg) {
      fs := IdentifierMisplaced(cfg);
    } else if Has(cfg, IDENTIFIER) {
      IntrBeyond(cfg);
      assert false;
    } else if Has(cfg, STACK_USER) {
      fs := StackBeforeRegisters(cfg);
    } else {
      fs := TailBeforeRegisters(cfg);
    }
  }

  lemma IntrBeyond(cfg: Config)
    requires Has(cfg, REGS_INTR)
    ensures BeyondIdentity(cfg)
  {
  }

  /** The exact condition: the decoder reports exactly the fields of every sample the
      kernel can write under a configuration if and only if it satisfies OrderMask. */
  lemma OrderExact(cfg: Config)
    ensures OrderMask(cfg) <==> forall fs :: HeaderSample(cfg, fs) ==> Recovered(cfg, fs)
  {
    hide OrderMask;
    if OrderMask(cfg) {
      OrderSufficient(cfg);
      forall fs | HeaderSample(cfg, fs) ensures Recovered(cfg, fs) {
        hide DecodeFields, HeaderKinds, DecoderKinds;
        AtWhole(EncodeFields(fs));
        SameOrder(cfg, fs, EncodeFields(fs), 0);
      }
    } else {
      var fs := OrderNecessary(cfg);
    }
  }

  /** Recovering the fields is the stronger demand. */
  lemma OrderImpliesSync(cfg: Config)
    requires OrderMask(cfg)
    ensures SyncMask(cfg)
  {
    hide Has;
    if Has(cfg, IDENTIFIER) {
      assert !Has(cfg, STACK_USER);
      assert !Has(cfg, CALLCHAIN) && !Has(cfg, RAW) && !Has(cfg, BRANCH_STACK) && !Has(cfg, READ);
    }
  }
}
