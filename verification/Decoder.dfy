/** What src/parse_record.c computes, as functions of the scratch buffer and a cursor.
    The order of the fields of a sample, and the places where the cursor moves,
    are those of the C code. */
module Decoder {
  import opened Bytes
  import opened Layout

  // ---- handle_struct_read_format ----

  function GetOption(present: bool, d: seq<byte>, off: nat): (r: Result<(Option<u64>, nat)>)
    ensures r.Ok? ==> r.value.0.Some? == present && r.value.1 == if present then off + 8 else off
  {
    if present then
      var v :- GetU64(d, off);
      Ok((Some(v), off + 8))
    else
      Ok((None, off))
  }

  function GetCounters(cfg: Config, d: seq<byte>, off: nat, n: nat): (r: Result<(seq<Counter>, nat)>)
    ensures r.Ok? ==> |r.value.0| == n
    decreases n
  {
    if n == 0 then Ok(([], off))
    else
      var value :- GetU64(d, off);
      var (id, o1) :- GetOption(Reports(cfg, FORMAT_ID), d, off + 8);
      var (rest, o2) :- GetCounters(cfg, d, o1, n - 1);
      Ok(([Counter(value, id)] + rest, o2))
  }

  function GetRead(cfg: Config, d: seq<byte>, off: nat): Result<(ReadValues, nat)> {
    var first :- GetU64(d, off);
    var (enabled, o1) :- GetOption(Reports(cfg, FORMAT_TOTAL_TIME_ENABLED), d, off + 8);
    var (running, o2) :- GetOption(Reports(cfg, FORMAT_TOTAL_TIME_RUNNING), d, o1);
    if Reports(cfg, FORMAT_GROUP) then
      var (counters, o3) :- GetCounters(cfg, d, o2, SignedCount(first));
      Ok((Group(first, enabled, running, counters), o3))
    else
      var (id, o3) :- GetOption(Reports(cfg, FORMAT_ID), d, o2);
      Ok((Single(first, enabled, running, id), o3))
  }

  // ---- the counted arrays of a sample ----

  function GetWords(d: seq<byte>, off: nat, n: nat): (r: Result<seq<u64>>)
    ensures r.Ok? ==> |r.value| == n
    decreases n
  {
    if n == 0 then Ok([])
    else
      var w :- GetU64(d, off);
      var rest :- GetWords(d, off + 8, n - 1);
      Ok([w] + rest)
  }

  function GetBranches(d: seq<byte>, off: nat, n: nat): (r: Result<seq<Branch>>)
    ensures r.Ok? ==> |r.value| == n
    decreases n
  {
    if n == 0 then Ok([])
    else
      var from :- GetU64(d, off);
      var to :- GetU64(d, off + 8);
      var flags :- GetU64(d, off + 16);
      var rest :- GetBranches(d, off + 24, n - 1);
      Ok([Branch(from, to, flags)] + rest)
  }

  /** print_regs, from register i on. */
  function GetRegs(mask: bv64, d: seq<byte>, off: nat, i: nat): Result<seq<Reg>>
    requires i <= 64
    decreases 64 - i
  {
    if i == 64 then Ok([])
    else if RegBit(mask, i) then
      var v :- GetU64(d, off);
      var rest :- GetRegs(mask, d, off + 8, i + 1);
      Ok([Reg(i, v)] + rest)
    else
      GetRegs(mask, d, off, i + 1)
  }

  // ---- one field of a sample, and a list of them ----

  function DecodeField(cfg: Config, k: Kind, d: seq<byte>, off: nat): Result<(Field, nat)> {
    match k
    case TID | CPU =>
      var lo :- GetU32(d, off);
      var hi :- GetU32(d, off + 4);
      Ok((Pair(k, lo, hi), off + 8))
    case READ =>
      var (rv, o) :- GetRead(cfg, d, off);
      Ok((ReadFormat(rv), o))
    case CALLCHAIN =>
      var nr :- GetU64(d, off);
      var ips :- GetWords(d, off + 8, SignedCount(nr));
      Ok((Callchain(nr, ips), off + 8 + 8 * |ips|))
    case RAW =>
      var size :- GetU32(d, off);
      var bytes :- GetBytes(d, off + 4, if size < 0x8000_0000 then size else size - 0x1_0000_0000);
      Ok((Raw(bytes), off + 4 + |bytes|))
    case BRANCH_STACK =>
      var bnr :- GetU64(d, off);
      var entries :- GetBranches(d, off + 8, SignedCount(bnr));
      Ok((BranchStack(bnr, entries), off + 8 + 24 * |entries|))
    case REGS_USER | REGS_INTR =>
      var abi :- GetU64(d, off);
      var regs :- GetRegs(cfg.regMask, d, off + 8, 0);
      Ok((Registers(k, abi, regs), off + 8 + 8 * |regs|))
    case STACK_USER =>
      var size :- GetU64(d, off);
      var stack :- GetBytes(d, off + 8, if size < 0x8000_0000_0000_0000 then size else -1);
      var dynSize :- GetU64(d, off + 8 + |stack|);
      Ok((StackUser(stack, dynSize), off + 16 + |stack|))
    case _ =>
      var v :- GetU64(d, off);
      Ok((Word(k, v), off + 8))
  }

  function DecodeFields(cfg: Config, ks: seq<Kind>, d: seq<byte>, off: nat): Result<(seq<Field>, nat)> {
    if ks == [] then Ok(([], off))
    else
      var (f, o1) :- DecodeField(cfg, ks[0], d, off);
      var (fs, o2) :- DecodeFields(cfg, ks[1..], d, o1);
      Ok(([f] + fs, o2))
  }

  function DecoderTail(cfg: Config): seq<Kind> {
    Wanted(cfg, REGS_INTR) + Wanted(cfg, STACK_USER) + Wanted(cfg, WEIGHT) + Wanted(cfg, DATA_SRC) +
    Wanted(cfg, IDENTIFIER) + Wanted(cfg, TRANSACTION)
  }

  /** The order in which the `if` ladder of PERF_RECORD_SAMPLE visits the fields. */
  function DecoderKinds(cfg: Config): seq<Kind> {
    CommonKinds(cfg) + DecoderTail(cfg)
  }

  /** The PERF_RECORD_SAMPLE case. */
  function DecodeSample(cfg: Config, d: seq<byte>, off: nat): Result<(seq<Field>, nat)> {
    DecodeFields(cfg, DecoderKinds(cfg), d, off)
  }
}
