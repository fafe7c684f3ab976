/** The two orders of a sample's fields, checked against the lines of the two files that list
    the fields: each order is the one ascending sequence of the configured kinds. */
module FieldOrder {
  import opened Bytes
  import opened Orders
  import opened Layout
  import opened Decoder
  import opened RegisterMasks
  import opened Records

  /** The line of include/perf_event.h that gives the field its place. */
  function HeaderLine(k: Kind): nat {
    match k
    case IDENTIFIER => 805
    case IP => 806
    case TID => 807
    case TIME => 808
    case ADDR => 809
    case ID => 810
    case STREAM_ID => 811
    case CPU => 812
    case PERIOD => 813
    case READ => 815
    case CALLCHAIN => 818
    case RAW => 832
    case BRANCH_STACK => 835
    case REGS_USER => 838
    case STACK_USER => 842
    case WEIGHT => 844
    case DATA_SRC => 845
    case TRANSACTION => 846
    case REGS_INTR => 848
    case PHYS_ADDR => 849
  }

  /** The line of src/parse_record.c that tests for the field. Nothing tests for PHYS_ADDR. */
  function LadderLine(k: Kind): nat {
    match k
    case IP => 712
    case TID => 718
    case TIME => 736
    case ADDR => 742
    case ID => 748
    case STREAM_ID => 754
    case CPU => 762
    case PERIOD => 769
    case READ => 775
    case CALLCHAIN => 784
    case RAW => 796
    case BRANCH_STACK => 821
    case REGS_USER => 883
    case REGS_INTR => 902
    case STACK_USER => 921
    case WEIGHT => 948
    case DATA_SRC => 958
    case IDENTIFIER => 1042
    case TRANSACTION => 1052
    case PHYS_ADDR => 2000
  }

  // ---- Both orders are ascending ----

  ghost predicate Within(ks: seq<Kind>, line: Kind -> nat, lo: nat, hi: nat) {
    Ascending(ks, line) && forall k <- ks :: lo <= line(k) < hi
  }

  lemma WithinAppend(a: seq<Kind>, b: seq<Kind>, line: Kind -> nat, lo: nat, mid: nat, hi: nat)
    requires Within(a, line, lo, mid) && Within(b, line, mid, hi) && lo <= mid <= hi
    ensures Within(a + b, line, lo, hi)
  {
  }

  /** The kinds of a list that are wanted. */
  function Chosen(cfg: Config, all: seq<Kind>): seq<Kind> {
    if all == [] then [] else Wanted(cfg, all[0]) + Chosen(cfg, all[1..])
  }

  lemma {:induction false} ChosenAppend(cfg: Config, a: seq<Kind>, b: seq<Kind>)
    ensures Chosen(cfg, a + b) == Chosen(cfg, a) + Chosen(cfg, b)
  {
    hide Wanted;
    if a == [] {
      assert a + b == b;
    } else {
      assert (a + b)[0] == a[0] && (a + b)[1..] == a[1..] + b;
      ChosenAppend(cfg, a[1..], b);
    }
  }

  lemma {:induction false} ChosenMembers(cfg: Config, all: seq<Kind>)
    ensures forall k :: k in Chosen(cfg, all) <==> k in all && k in cfg.sampleType
  {
    if all != [] { ChosenMembers(cfg, all[1..]); }
  }

  lemma {:induction false} ChosenAscends(cfg: Config, all: seq<Kind>, line: Kind -> nat)
    requires Ascending(all, line)
    ensures Ascending(Chosen(cfg, all), line)
  {
    if all != [] {
      var rest := all[1..];
      ChosenAscends(cfg, rest, line);
      ChosenMembers(cfg, rest);
      var w, c := Wanted(cfg, all[0]), Chosen(cfg, rest);
      assert forall k <- c :: k in rest;
      assert forall k <- rest :: line(all[0]) < line(k);
    }
  }

  lemma ChosenTwo(cfg: Config, a: Kind, b: Kind)
    ensures Chosen(cfg, [a, b]) == Wanted(cfg, a) + Wanted(cfg, b)
    ensures Chosen(cfg, [a]) == Wanted(cfg, a)
  {
    hide Wanted;
    assert [a, b][1..] == [b] && [b][1..] == [];
    assert Chosen(cfg, [b]) == Wanted(cfg, b) + [];
    assert Chosen(cfg, [a]) == Wanted(cfg, a) + [];
  }

  lemma ChosenFour(cfg: Config, a: Kind, b: Kind, c: Kind, e: Kind)
    ensures Chosen(cfg, [a, b, c, e]) == Wanted(cfg, a) + Wanted(cfg, b) + Wanted(cfg, c) + Wanted(cfg, e)
  {
    hide Wanted, Chosen;
    ChosenTwo(cfg, a, b);
    ChosenTwo(cfg, c, e);
    assert [a, b, c, e] == [a, b] + [c, e];
    ChosenAppend(cfg, [a, b], [c, e]);
  }

  const COMMON :=
    [IP, TID, TIME, ADDR] + [ID, STREAM_ID, CPU, PERIOD] + [READ, CALLCHAIN, RAW, BRANCH_STACK] + [REGS_USER]

  const HEADER_TAIL := [STACK_USER, WEIGHT, DATA_SRC, TRANSACTION] + [REGS_INTR, PHYS_ADDR]

  const LADDER_TAIL := [REGS_INTR, STACK_USER, WEIGHT, DATA_SRC] + [IDENTIFIER, TRANSACTION]

  lemma ChosenCommon(cfg: Config)
    ensures Chosen(cfg, COMMON) == CommonKinds(cfg)
  {
    hide Wanted, Chosen;
    var a, b, c := [IP, TID, TIME, ADDR], [ID, STREAM_ID, CPU, PERIOD], [READ, CALLCHAIN, RAW, BRANCH_STACK];
    ChosenAppend(cfg, a + b + c, [REGS_USER]);
    ChosenAppend(cfg, a + b, c);
    ChosenAppend(cfg, a, b);
    ChosenFour(cfg, IP, TID, TIME, ADDR);
    ChosenFour(cfg, ID, STREAM_ID, CPU, PERIOD);
    ChosenFour(cfg, READ, CALLCHAIN, RAW, BRANCH_STACK);
    ChosenTwo(cfg, REGS_USER, REGS_USER);
    Regrouped(Chosen(cfg, a), Chosen(cfg, b), Chosen(cfg, c), Wanted(cfg, REGS_USER));
  }

  lemma Regrouped(a: seq<Kind>, b: seq<Kind>, c: seq<Kind>, e: seq<Kind>)
    ensures a + b + c + e == a + b + (c + e)
  {
  }

  lemma ChosenTails(cfg: Config)
    ensures Chosen(cfg, HEADER_TAIL) == HeaderTail(cfg)
    ensures Chosen(cfg, LADDER_TAIL) == DecoderTail(cfg)
  {
    hide Wanted, Chosen;
    ChosenAppend(cfg, [STACK_USER, WEIGHT, DATA_SRC, TRANSACTION], [REGS_INTR, PHYS_ADDR]);
    ChosenFour(cfg, STACK_USER, WEIGHT, DATA_SRC, TRANSACTION);
    ChosenTwo(cfg, REGS_INTR, PHYS_ADDR);
    Regrouped(Chosen(cfg, [STACK_USER, WEIGHT, DATA_SRC, TRANSACTION]), [], Wanted(cfg, REGS_INTR), Wanted(cfg, PHYS_ADDR));
    ChosenAppend(cfg, [REGS_INTR, STACK_USER, WEIGHT, DATA_SRC], [IDENTIFIER, TRANSACTION]);
    ChosenFour(cfg, REGS_INTR, STACK_USER, WEIGHT, DATA_SRC);
    ChosenTwo(cfg, IDENTIFIER, TRANSACTION);
    Regrouped(Chosen(cfg, [REGS_INTR, STACK_USER, WEIGHT, DATA_SRC]), [], Wanted(cfg, IDENTIFIER), Wanted(cfg, TRANSACTION));
  }

  lemma ChosenOrders(cfg: Config)
    ensures Chosen(cfg, [IDENTIFIER] + COMMON + HEADER_TAIL) == HeaderKinds(cfg)
    ensures Chosen(cfg, COMMON + LADDER_TAIL) == DecoderKinds(cfg)
  {
    hide Wanted, Chosen, CommonKinds, HeaderTail, DecoderTail, COMMON, HEADER_TAIL, LADDER_TAIL;
    ChosenAppend(cfg, [IDENTIFIER] + COMMON, HEADER_TAIL);
    ChosenAppend(cfg, [IDENTIFIER], COMMON);
    ChosenAppend(cfg, COMMON, LADDER_TAIL);
    ChosenTwo(cfg, IDENTIFIER, IDENTIFIER);
    ChosenCommon(cfg);
    ChosenTails(cfg);
  }

  lemma FourWithin(a: Kind, b: Kind, c: Kind, e: Kind, line: Kind -> nat, lo: nat, hi: nat)
    requires lo <= line(a) < line(b) < line(c) < line(e) < hi
    ensures Within([a, b, c, e], line, lo, hi)
  {
  }

  lemma OneWithin(a: Kind, line: Kind -> nat, lo: nat, hi: nat)
    requires lo <= line(a) < hi
    ensures Within([a], line, lo, hi)
  {
  }

  lemma CommonWithin(line: Kind -> nat, l0: nat, l1: nat, l2: nat, l3: nat, l4: nat)
    requires l0 <= line(IP) < line(TID) < line(TIME) < line(ADDR) < l1
    requires l1 <= line(ID) < line(STREAM_ID) < line(CPU) < line(PERIOD) < l2
    requires l2 <= line(READ) < line(CALLCHAIN) < line(RAW) < line(BRANCH_STACK) < l3
    requires l3 <= line(REGS_USER) < l4
    ensures Within(COMMON, line, l0, l4)
  {
    hide Within;
    var a, b, c := [IP, TID, TIME, ADDR], [ID, STREAM_ID, CPU, PERIOD], [READ, CALLCHAIN, RAW, BRANCH_STACK];
    FourWithin(IP, TID, TIME, ADDR, line, l0, l1);
    FourWithin(ID, STREAM_ID, CPU, PERIOD, line, l1, l2);
    FourWithin(READ, CALLCHAIN, RAW, BRANCH_STACK, line, l2, l3);
    OneWithin(REGS_USER, line, l3, l4);
    WithinAppend(a, b, line, l0, l1, l2);
    WithinAppend(a + b, c, line, l0, l2, l3);
    WithinAppend(a + b + c, [REGS_USER], line, l0, l3, l4);
  }

  lemma TailsWithin()
    ensures Within(HEADER_TAIL, HeaderLine, 842, 850)
    ensures Within(LADDER_TAIL, LadderLine, 902, 1053)
  {
  }

  lemma ListsAscend()
    ensures Ascending([IDENTIFIER] + COMMON + HEADER_TAIL, HeaderLine)
    ensures Ascending(COMMON + LADDER_TAIL, LadderLine)
  {
    assert Within([IDENTIFIER], HeaderLine, 805, 806);
    CommonWithin(HeaderLine, 806, 810, 814, 838, 842);
    CommonWithin(LadderLine, 712, 748, 775, 883, 902);
    TailsWithin();
    hide Ascending, HeaderLine, LadderLine, COMMON, HEADER_TAIL, LADDER_TAIL;
    WithinAppend([IDENTIFIER], COMMON, HeaderLine, 805, 806, 842);
    WithinAppend([IDENTIFIER] + COMMON, HEADER_TAIL, HeaderLine, 805, 842, 850);
    WithinAppend(COMMON, LADDER_TAIL, LadderLine, 712, 902, 1053);
  }

  lemma ListedKinds(k: Kind)
    ensures k in [IDENTIFIER] + COMMON + HEADER_TAIL
    ensures k in COMMON + LADDER_TAIL <==> k != PHYS_ADDR
  {
  }

  /** The header's order is the ascending one, of exactly the configured kinds. */
  lemma HeaderOrder(cfg: Config, ks: seq<Kind>)
    ensures ks == HeaderKinds(cfg) <==> Ascending(ks, HeaderLine) && Members(ks) == cfg.sampleType
  {
    hide DecoderKinds, HeaderKinds, Ascending, HeaderLine, LadderLine, COMMON, HEADER_TAIL, LADDER_TAIL;
    var all := [IDENTIFIER] + COMMON + HEADER_TAIL;
    ChosenOrders(cfg);
    ListsAscend();
    ChosenAscends(cfg, all, HeaderLine);
    ChosenMembers(cfg, all);
    forall k: Kind ensures k in all { ListedKinds(k); }
    assert Members(HeaderKinds(cfg)) == cfg.sampleType;
    if Ascending(ks, HeaderLine) && Members(ks) == cfg.sampleType {
      AscendingUnique(ks, HeaderKinds(cfg), HeaderLine);
    }
  }

  /** So is the decoder's, for all but PHYS_ADDR. */
  lemma LadderOrder(cfg: Config, ks: seq<Kind>)
    ensures ks == DecoderKinds(cfg) <==> Ascending(ks, LadderLine) && Members(ks) == cfg.sampleType - {PHYS_ADDR}
  {
    hide DecoderKinds, HeaderKinds, Ascending, HeaderLine, LadderLine, COMMON, HEADER_TAIL, LADDER_TAIL;
    var all := COMMON + LADDER_TAIL;
    ChosenOrders(cfg);
    ListsAscend();
    ChosenAscends(cfg, all, LadderLine);
    ChosenMembers(cfg, all);
    forall k: Kind ensures k in all <==> k != PHYS_ADDR { ListedKinds(k); }
    assert Members(DecoderKinds(cfg)) == cfg.sampleType - {PHYS_ADDR};
    if Ascending(ks, LadderLine) && Members(ks) == cfg.sampleType - {PHYS_ADDR} {
      AscendingUnique(ks, DecoderKinds(cfg), LadderLine);
    }
  }

  // ---- What a kernel sample is, without the lists ----

  /** One field as the header defines it: its parts are those that the configuration asks
      for, and its count is the number of its entries. */
  predicate AsListed(cfg: Config, f: Field) {
    match f
    case Word(k, _) =>
      k in {IP, TIME, ADDR, ID, STREAM_ID, PERIOD, WEIGHT, DATA_SRC, IDENTIFIER, TRANSACTION, PHYS_ADDR}
    case Pair(k, _, _) => k in {TID, CPU}
    case ReadFormat(Group(nr, enabled, running, counters)) =>
      && FORMAT_GROUP in cfg.readFormat
      && (enabled.Some? <==> FORMAT_TOTAL_TIME_ENABLED in cfg.readFormat)
      && (running.Some? <==> FORMAT_TOTAL_TIME_RUNNING in cfg.readFormat)
      && nr == |counters|
      && forall c <- counters :: c.id.Some? <==> FORMAT_ID in cfg.readFormat
    case ReadFormat(Single(_, enabled, running, id)) =>
      && FORMAT_GROUP !in cfg.readFormat
      && (enabled.Some? <==> FORMAT_TOTAL_TIME_ENABLED in cfg.readFormat)
      && (running.Some? <==> FORMAT_TOTAL_TIME_RUNNING in cfg.readFormat)
      && (id.Some? <==> FORMAT_ID in cfg.readFormat)
    case Callchain(nr, ips) => nr == |ips|
    case BranchStack(bnr, entries) => bnr == |entries|
    case Registers(k, _, regs) => k in {REGS_USER, REGS_INTR} && Selects(cfg.regMask, RegIndices(regs))
    case Raw(_) | StackUser(_, _) => true
  }

  lemma {:induction false} CountersRoom(cs: seq<Counter>)
    ensures 8 * |cs| <= |EncodeCounters(cs)|
  {
    hide EncodeOption, U64;
    if cs != [] { CountersRoom(cs[1..]); }
  }

  /** Every field that is as listed and fits a record is one the kernel may write, and no other. */
  lemma ListedExact(cfg: Config, f: Field)
    requires |EncodeField(f)| < MAX_RECORD
    ensures Shape(cfg, f) && Written(f) <==> AsListed(cfg, f)
  {
    hide SetBits, Selects, EncodeCounters, EncodeWords, EncodeBranches, U64, U32, LE;
    match f
    case ReadFormat(Group(_, _, _, cs)) => CountersRoom(cs);
    case Registers(_, _, regs) => SetBitsExact(cfg.regMask, RegIndices(regs));
    case _ =>
  }

  lemma {:induction false} FieldRoom(fs: seq<Field>, i: nat)
    requires i < |fs|
    ensures |EncodeField(fs[i])| <= |EncodeFields(fs)|
  {
    hide EncodeField;
    if i > 0 { FieldRoom(fs[1..], i - 1); }
  }

  /** The samples the kernel may write: the configured fields in ascending order of their
      lines, each as listed, in a record of at most 16 bits' size. */
  lemma HeaderSampleExact(cfg: Config, fs: seq<Field>)
    ensures HeaderSample(cfg, fs) <==>
            && Ascending(Kinds(fs), HeaderLine) && Members(Kinds(fs)) == cfg.sampleType
            && (forall f <- fs :: AsListed(cfg, f))
            && 8 + |EncodeFields(fs)| <= 0xFFFF
  {
    hide EncodeFields, EncodeField, HeaderKinds, Ascending, HeaderLine, Members, Shape, Written, AsListed;
    HeaderOrder(cfg, Kinds(fs));
    if 8 + |EncodeFields(fs)| <= 0xFFFF {
      forall f | f in fs ensures Shape(cfg, f) && Written(f) <==> AsListed(cfg, f) {
        var i :| 0 <= i < |fs| && fs[i] == f;
        FieldRoom(fs, i);
        ListedExact(cfg, f);
      }
    }
  }

  // ---- The trailer ----

  lemma MembersCons(s: set<Kind>, k: Kind, rest: seq<Kind>)
    requires k !in rest
    ensures |s * Members([k] + rest)| == |s * Members(rest)| + if k in s then 1 else 0
  {
    assert s * Members([k] + rest) == (if k in s then {k} else {}) + s * Members(rest);
  }

  lemma {:induction false} ChosenCount(cfg: Config, all: seq<Kind>)
    requires forall i, j :: 0 <= i < j < |all| ==> all[i] != all[j]
    ensures |Chosen(cfg, all)| == |cfg.sampleType * Members(all)|
  {
    if all == [] {
      assert cfg.sampleType * Members(all) == {};
    } else {
      ChosenCount(cfg, all[1..]);
      assert all == [all[0]] + all[1..];
      MembersCons(cfg.sampleType, all[0], all[1..]);
      hide Members;
    }
  }

  lemma TrailerKinds()
    ensures Members([TID, TIME, ID, STREAM_ID] + [CPU, IDENTIFIER]) == {TID, TIME, ID, STREAM_ID, CPU, IDENTIFIER}
  {
  }

  /** `struct sample_id` has a word for each of six fields that is configured. */
  lemma TrailerExact(cfg: Config)
    ensures TrailerWords(cfg) == if cfg.sampleIdAll then |cfg.sampleType * {TID, TIME, ID, STREAM_ID, CPU, IDENTIFIER}| else 0
  {
    var a, b := [TID, TIME, ID, STREAM_ID], [CPU, IDENTIFIER];
    hide Wanted, Chosen, Members;
    ChosenCount(cfg, a + b);
    TrailerKinds();
    ChosenAppend(cfg, a, b);
    ChosenFour(cfg, TID, TIME, ID, STREAM_ID);
    ChosenTwo(cfg, CPU, IDENTIFIER);
  }

  /** The records the kernel may write: any whose declared size is the true one, with the
      fields or the trailer that the configuration asks for. */
  lemma HeaderRecordExact(cfg: Config, r: Record)
    ensures HeaderRecord(cfg, r) <==>
            && r.size == |Encode(r)|
            && (r.body.Other? ==> r.body.typ == 0 || r.body.typ == 8 || r.body.typ > 15)
            && (if r.body.Sample? then
                  && Ascending(Kinds(r.body.fields), HeaderLine) && Members(Kinds(r.body.fields)) == cfg.sampleType
                  && (forall f <- r.body.fields :: AsListed(cfg, f))
                  && r.sampleId == []
                else if cfg.sampleIdAll then
                  |r.sampleId| == |cfg.sampleType * {TID, TIME, ID, STREAM_ID, CPU, IDENTIFIER}|
                else r.sampleId == [])
  {
    hide Ascending, Members, HeaderLine, AsListed, HeaderSample, TrailerWords, EncodeFields;
    TrailerExact(cfg);
    if r.body.Sample? {
      HeaderSampleExact(cfg, r.body.fields);
      assert r.sampleId == [] ==> |Encode(r)| == 8 + |EncodeFields(r.body.fields)|;
    }
  }
}
