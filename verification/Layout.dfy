/** The record stream as include/perf_event.h lays it out: what the kernel writes.
    Nothing in this module looks at the decoder. */
module Layout {
  import opened Bytes

  /** How the event was opened; the two bit masks are given as the sets of their bits. The
      decoder is handed the first three; the fourth decides whether the kernel ends non-sample
      records with a `struct sample_id`. */
  datatype Config = Config(sampleType: set<Kind>, readFormat: set<Flag>, regMask: bv64, sampleIdAll: bool)

  /** The PERF_SAMPLE_* bits. */
  datatype Kind =
    | IP | TID | TIME | ADDR | READ | CALLCHAIN | ID | CPU | PERIOD | STREAM_ID
    | RAW | BRANCH_STACK | REGS_USER | STACK_USER | WEIGHT | DATA_SRC
    | IDENTIFIER | TRANSACTION | REGS_INTR | PHYS_ADDR

  function SampleBit(k: Kind): bv32 {
    match k
    case IP => 0x1
    case TID => 0x2
    case TIME => 0x4
    case ADDR => 0x8
    case READ => 0x10
    case CALLCHAIN => 0x20
    case ID => 0x40
    case CPU => 0x80
    case PERIOD => 0x100
    case STREAM_ID => 0x200
    case RAW => 0x400
    case BRANCH_STACK => 0x800
    case REGS_USER => 0x1000
    case STACK_USER => 0x2000
    case WEIGHT => 0x4000
    case DATA_SRC => 0x8000
    case IDENTIFIER => 0x1_0000
    case TRANSACTION => 0x2_0000
    case REGS_INTR => 0x4_0000
    case PHYS_ADDR => 0x8_0000
  }

  /** The PERF_FORMAT_* bits. */
  datatype Flag = FORMAT_TOTAL_TIME_ENABLED | FORMAT_TOTAL_TIME_RUNNING | FORMAT_ID | FORMAT_GROUP

  function FlagBit(f: Flag): bv32 {
    match f
    case FORMAT_TOTAL_TIME_ENABLED => 0x1
    case FORMAT_TOTAL_TIME_RUNNING => 0x2
    case FORMAT_ID => 0x4
    case FORMAT_GROUP => 0x8
  }

  /** The bits of a `sample_type` and of a `read_format` that have a meaning. */
  predicate BitSet(sampleType: bv32, k: Kind) { sampleType & SampleBit(k) != 0 }

  function KindsOf(sampleType: bv32): set<Kind> {
    set k: Kind | BitSet(sampleType, k)
  }

  function FlagsOf(readFormat: bv32): set<Flag> {
    set f: Flag | readFormat & FlagBit(f) != 0
  }

  predicate Has(cfg: Config, k: Kind) { k in cfg.sampleType }

  predicate Reports(cfg: Config, f: Flag) { f in cfg.readFormat }

  function Bit(i: nat): bv64
    requires i < 64
  {
    1 << i
  }

  predicate RegBit(mask: bv64, i: nat)
    requires i < 64
  {
    mask & Bit(i) != 0
  }

  /** The registers a mask selects, from register i upwards. */
  function SetBits(mask: bv64, i: nat): (bits: seq<nat>)
    requires i <= 64
    ensures |bits| <= 64 - i
    ensures forall k :: 0 <= k < |bits| ==> i <= bits[k] < 64
    decreases 64 - i
  {
    if i == 64 then []
    else if RegBit(mask, i) then [i] + SetBits(mask, i + 1)
    else SetBits(mask, i + 1)
  }

  function Weight(mask: bv64): (n: nat)
    ensures n <= 64
  {
    |SetBits(mask, 0)|
  }

  // ---- Field values ----

  datatype Counter = Counter(value: u64, id: Option<u64>)

  /** `struct read_format`, group and single form. */
  datatype ReadValues =
    | Group(nr: u64, enabled: Option<u64>, running: Option<u64>, counters: seq<Counter>)
    | Single(value: u64, enabled: Option<u64>, running: Option<u64>, id: Option<u64>)

  datatype Branch = Branch(from: u64, to: u64, flags: u64)

  /** One dumped register: its number and its value. */
  datatype Reg = Reg(index: nat, value: u64)

  datatype Field =
    | Word(kind: Kind, v: u64)
    | Pair(kind: Kind, lo: u32, hi: u32)
    | ReadFormat(values: ReadValues)
    | Callchain(nr: u64, ips: seq<u64>)
    | Raw(bytes: seq<byte>)
    | BranchStack(bnr: u64, entries: seq<Branch>)
    | Registers(kind: Kind, abi: u64, regs: seq<Reg>)
    | StackUser(stack: seq<byte>, dynSize: u64)

  function KindOf(f: Field): Kind {
    match f
    case Word(k, _) => k
    case Pair(k, _, _) => k
    case ReadFormat(_) => READ
    case Callchain(_, _) => CALLCHAIN
    case Raw(_) => RAW
    case BranchStack(_, _) => BRANCH_STACK
    case Registers(k, _, _) => k
    case StackUser(_, _) => STACK_USER
  }

  function Kinds(fs: seq<Field>): (ks: seq<Kind>)
    ensures |ks| == |fs|
  {
    seq(|fs|, i requires 0 <= i < |fs| => KindOf(fs[i]))
  }

  predicate WordKind(k: Kind) {
    k in {IP, TIME, ADDR, ID, STREAM_ID, PERIOD, WEIGHT, DATA_SRC, IDENTIFIER, TRANSACTION, PHYS_ADDR}
  }

  predicate PairKind(k: Kind) { k == TID || k == CPU }

  predicate RegsKind(k: Kind) { k == REGS_USER || k == REGS_INTR }

  /** An entry count read as a C `long long`: the sign bit means no entries at all. */
  function SignedCount(nr: u64): nat {
    if nr < 0x8000_0000_0000_0000 then nr else 0
  }

  predicate Optionally(o: Option<u64>, present: bool) {
    o.Some? == present
  }

  /** Every counter has an id, or none has. */
  predicate CounterIds(cfg: Config, cs: seq<Counter>) {
    forall c <- cs :: Optionally(c.id, Reports(cfg, FORMAT_ID))
  }

  predicate ReadShape(cfg: Config, rv: ReadValues) {
    && rv.Group? == Reports(cfg, FORMAT_GROUP)
    && Optionally(rv.enabled, Reports(cfg, FORMAT_TOTAL_TIME_ENABLED))
    && Optionally(rv.running, Reports(cfg, FORMAT_TOTAL_TIME_RUNNING))
    && (rv.Single? ==> Optionally(rv.id, Reports(cfg, FORMAT_ID)))
    && (rv.Group? ==> |rv.counters| == SignedCount(rv.nr) && CounterIds(cfg, rv.counters))
  }

  function RegIndices(regs: seq<Reg>): (ns: seq<nat>)
    ensures |ns| == |regs|
  {
    seq(|regs|, i requires 0 <= i < |regs| => regs[i].index)
  }

  /** A field whose parts agree with each other and with the configuration. */
  predicate Shape(cfg: Config, f: Field) {
    match f
    case Word(k, _) => WordKind(k)
    case Pair(k, _, _) => PairKind(k)
    case ReadFormat(rv) => ReadShape(cfg, rv)
    case Callchain(nr, ips) => |ips| == SignedCount(nr)
    case Raw(bytes) => |bytes| < 0x8000_0000
    case BranchStack(bnr, entries) => |entries| == SignedCount(bnr)
    case Registers(k, _, regs) => RegsKind(k) && RegIndices(regs) == SetBits(cfg.regMask, 0)
    case StackUser(stack, _) => |stack| < 0x8000_0000_0000_0000
  }

  ghost predicate Shapes(cfg: Config, fs: seq<Field>) {
    forall f <- fs :: Shape(cfg, f)
  }

  // ---- Encoding ----

  function EncodeOption(o: Option<u64>): (b: seq<byte>)
    ensures |b| == if o.Some? then 8 else 0
  {
    match o
    case None => []
    case Some(v) => U64(v)
  }

  function EncodeWords(ws: seq<u64>): (b: seq<byte>)
    ensures |b| == 8 * |ws|
  {
    if ws == [] then [] else U64(ws[0]) + EncodeWords(ws[1..])
  }

  function EncodeCounter(c: Counter): seq<byte> {
    U64(c.value) + EncodeOption(c.id)
  }

  function EncodeCounters(cs: seq<Counter>): seq<byte> {
    if cs == [] then [] else EncodeCounter(cs[0]) + EncodeCounters(cs[1..])
  }

  function EncodeRead(rv: ReadValues): seq<byte> {
    match rv
    case Group(nr, enabled, running, counters) =>
      U64(nr) + EncodeOption(enabled) + EncodeOption(running) + EncodeCounters(counters)
    case Single(value, enabled, running, id) =>
      U64(value) + EncodeOption(enabled) + EncodeOption(running) + EncodeOption(id)
  }

  function EncodeBranches(es: seq<Branch>): (b: seq<byte>)
    ensures |b| == 24 * |es|
  {
    if es == [] then [] else U64(es[0].from) + U64(es[0].to) + U64(es[0].flags) + EncodeBranches(es[1..])
  }

  function EncodeRegs(regs: seq<Reg>): (b: seq<byte>)
    ensures |b| == 8 * |regs|
  {
    if regs == [] then [] else U64(regs[0].value) + EncodeRegs(regs[1..])
  }

  function EncodeField(f: Field): seq<byte>
  {
    match f
    case Word(_, v) => U64(v)
    case Pair(_, lo, hi) => U32(lo) + U32(hi)
    case ReadFormat(rv) => EncodeRead(rv)
    case Callchain(nr, ips) => U64(nr) + EncodeWords(ips)
    case Raw(bytes) => LE(|bytes|, 4) + bytes
    case BranchStack(bnr, entries) => U64(bnr) + EncodeBranches(entries)
    case Registers(_, abi, regs) => U64(abi) + EncodeRegs(regs)
    case StackUser(stack, dynSize) => LE(|stack|, 8) + stack + U64(dynSize)
  }

  function EncodeFields(fs: seq<Field>): seq<byte> {
    if fs == [] then [] else EncodeField(fs[0]) + EncodeFields(fs[1..])
  }

  // ---- Order of the fields of a sample ----

  function Wanted(cfg: Config, k: Kind): (ks: seq<Kind>)
    ensures |ks| <= 1
    ensures forall j <- ks :: j == k && Has(cfg, j)
  {
    if Has(cfg, k) then [k] else []
  }

  function PlaceKinds(cfg: Config): seq<Kind> {
    Wanted(cfg, IP) + Wanted(cfg, TID) + Wanted(cfg, TIME) + Wanted(cfg, ADDR)
  }

  function OriginKinds(cfg: Config): seq<Kind> {
    Wanted(cfg, ID) + Wanted(cfg, STREAM_ID) + Wanted(cfg, CPU) + Wanted(cfg, PERIOD)
  }

  function BulkKinds(cfg: Config): seq<Kind> {
    Wanted(cfg, READ) + Wanted(cfg, CALLCHAIN) + Wanted(cfg, RAW) + Wanted(cfg, BRANCH_STACK) +
    Wanted(cfg, REGS_USER)
  }

  /** The stretch on which the header and the decoder agree. */
  function CommonKinds(cfg: Config): seq<Kind> {
    PlaceKinds(cfg) + OriginKinds(cfg) + BulkKinds(cfg)
  }

  function HeaderTail(cfg: Config): seq<Kind> {
    Wanted(cfg, STACK_USER) + Wanted(cfg, WEIGHT) + Wanted(cfg, DATA_SRC) + Wanted(cfg, TRANSACTION) +
    Wanted(cfg, REGS_INTR) + Wanted(cfg, PHYS_ADDR)
  }

  function HeaderKinds(cfg: Config): seq<Kind> {
    Wanted(cfg, IDENTIFIER) + CommonKinds(cfg) + HeaderTail(cfg)
  }

  // ---- What the kernel may write as a sample ----

  /** Entry counts agree with the entries that follow. */
  predicate Written(f: Field) {
    match f
    case Callchain(nr, ips) => nr == |ips|
    case BranchStack(bnr, es) => bnr == |es|
    case ReadFormat(Group(nr, _, _, cs)) => nr == |cs|
    case _ => true
  }

  const MAX_RECORD := 0x1_0000

  /** A sample as the kernel may write it: header order, true counts, and small
      enough for the 16-bit size of its record header. */
  ghost predicate HeaderSample(cfg: Config, fs: seq<Field>) {
    && Kinds(fs) == HeaderKinds(cfg)
    && Shapes(cfg, fs)
    && (forall f <- fs :: Written(f))
    && 8 + |EncodeFields(fs)| < MAX_RECORD
  }
}
