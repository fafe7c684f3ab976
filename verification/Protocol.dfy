/** Any number of rings, one scratch array and one log; the kernel may publish a record
    between any two steps of a handler run, and handler runs do not overlap. */
module Protocol {
  import opened Bytes
  import opened Layout
  import opened Records
  import opened Batch
  import opened RingWindow

  // ---- The machine ----

  /** A line of the log, marked with the core whose ring it came from. */
  datatype Line = Line(core: nat, entry: Record)

  /** `prev` is the table of `prev_head` values, `scratch` the shared array `data`. */
  datatype Machine = Machine(rings: seq<Ring>, prev: seq<nat>, scratch: seq<byte>, log: seq<Line>)

  function Tag(core: nat, rs: seq<Record>): (ls: seq<Line>)
    ensures |ls| == |rs|
  {
    seq(|rs|, k requires 0 <= k < |rs| => Line(core, rs[k]))
  }

  function Project(log: seq<Line>, core: nat): seq<Record> {
    if log == [] then []
    else Project(log[..|log| - 1], core) +
         if log[|log| - 1].core == core then [log[|log| - 1].entry] else []
  }

  predicate Sized(m: Machine, i: nat) {
    i < |m.rings| == |m.prev| && 0 < |m.rings[i].buf| == |m.scratch|
  }

  /** A whole handler run on core i with nothing in between. */
  function HandleRing(cfg: Config, m: Machine, i: nat): Result<Machine>
    requires Sized(m, i)
  {
    var ring := m.rings[i];
    var lines :- DecodeBatch(cfg, Unwrap(ring.buf, m.prev[i]), 0, ToInt32(ring.head - m.prev[i]));
    Ok(Machine(m.rings[i := ring.(tail := ring.head)], m.prev[i := ring.head],
               Zeros(|m.scratch|), m.log + Tag(i, lines)))
  }

  // ---- The same run, step by step ----

  datatype Phase =
    | Idle
    | Loaded(core: nat, head: nat)
    | HighCopied(core: nat, head: nat)
    | LowCopied(core: nat, head: nat)
    | Parsed(core: nat, head: nat)
    | Stored(core: nat, head: nat)
    | Crashed(core: nat) // an undefined read: nothing is claimed from here on

  /** What a handler run found on a ring, and what it reported. */
  datatype Delivery = Delivery(batch: seq<Record>, report: seq<Record>)

  /** What happened so far: the records published on each ring, the deliveries from it, and
      how many records were published when the head was loaded. */
  datatype History = History(published: seq<seq<Record>>, delivered: seq<seq<Delivery>>, upto: nat)

  datatype System = System(m: Machine, phase: Phase, hist: History)

  datatype Event =
    | Publish(core: nat, record: Record)
    | Signal(core: nat)
    | CopyHigh
    | CopyLow
    | Parse
    | StoreTail
    | SavePrev

  /** The records found, and the records reported, over a list of deliveries. */
  function Found(ds: seq<Delivery>): seq<Record> {
    if ds == [] then [] else Found(ds[..|ds| - 1]) + ds[|ds| - 1].batch
  }

  function Shown(ds: seq<Delivery>): seq<Record> {
    if ds == [] then [] else Shown(ds[..|ds| - 1]) + ds[|ds| - 1].report
  }

  predicate Shaped(s: System) {
    && |s.m.rings| == |s.m.prev| == |s.hist.published| == |s.hist.delivered|
    && (forall i :: 0 <= i < |s.m.rings| ==> 0 < |s.m.rings[i].buf| == |s.m.scratch|)
    && (match s.phase
        case Idle => true
        case _ => s.phase.core < |s.m.rings|)
  }

  /** Records that the handler run under way will find. */
  function Pending(h: History, i: nat): seq<Record>
    requires i < |h.published| && i < |h.delivered|
  {
    var seen := |Found(h.delivered[i])|;
    if seen <= h.upto <= |h.published[i]| then h.published[i][seen..h.upto] else []
  }

  /** The kernel may write any record at all, as long as it fits. */
  function PublishStep(s: System, i: nat, r: Record): System
    requires Shaped(s)
  {
    if i < |s.m.rings| && Fits(s.m.rings[i], Encode(r)) then
      s.(m := s.m.(rings := s.m.rings[i := Append(s.m.rings[i], Encode(r))]),
         hist := s.hist.(published := s.hist.published[i := s.hist.published[i] + [r]]))
    else s
  }

  function SignalStep(s: System, i: nat): System
    requires Shaped(s)
  {
    if s.phase.Idle? && i < |s.m.rings| then
      s.(phase := Loaded(i, s.m.rings[i].head), hist := s.hist.(upto := |s.hist.published[i]|))
    else s
  }

  function CopyHighStep(s: System): System
    requires Shaped(s)
  {
    match s.phase
    case Loaded(i, head) =>
      var buf := s.m.rings[i].buf;
      var w := s.m.prev[i] % |buf|;
      s.(m := s.m.(scratch := buf[w..] + s.m.scratch[|buf| - w..]), phase := HighCopied(i, head))
    case _ => s
  }

  function CopyLowStep(s: System): System
    requires Shaped(s)
  {
    match s.phase
    case HighCopied(i, head) =>
      var buf := s.m.rings[i].buf;
      var w := s.m.prev[i] % |buf|;
      s.(m := s.m.(scratch := s.m.scratch[..|buf| - w] + buf[..w]), phase := LowCopied(i, head))
    case _ => s
  }

  function ParseStep(cfg: Config, s: System): System
    requires Shaped(s)
  {
    match s.phase
    case LowCopied(i, head) =>
      (match DecodeBatch(cfg, s.m.scratch, 0, ToInt32(head - s.m.prev[i]))
       case Fault => s.(phase := Crashed(i))
       case Ok(lines) =>
         s.(m := s.m.(log := s.m.log + Tag(i, lines)), phase := Parsed(i, head),
            hist := s.hist.(delivered := s.hist.delivered[i := s.hist.delivered[i] + [Delivery(Pending(s.hist, i), lines)]])))
    case _ => s
  }

  function StoreTailStep(s: System): System
    requires Shaped(s)
  {
    match s.phase
    case Parsed(i, head) =>
      s.(m := s.m.(rings := s.m.rings[i := s.m.rings[i].(tail := head)], scratch := Zeros(|s.m.scratch|)),
         phase := Stored(i, head))
    case _ => s
  }

  function SavePrevStep(s: System): System
    requires Shaped(s)
  {
    match s.phase
    case Stored(i, head) => s.(m := s.m.(prev := s.m.prev[i := head]), phase := Idle)
    case _ => s
  }

  /** A step that is not enabled leaves the system alone. In particular a record that
      would overwrite unread data is not published. */
  function Step(cfg: Config, s: System, e: Event): System
    requires Shaped(s)
  {
    match e
    case Publish(i, r) => PublishStep(s, i, r)
    case Signal(i) => SignalStep(s, i)
    case CopyHigh => CopyHighStep(s)
    case CopyLow => CopyLowStep(s)
    case Parse => ParseStep(cfg, s)
    case StoreTail => StoreTailStep(s)
    case SavePrev => SavePrevStep(s)
  }

  lemma StepShaped(cfg: Config, s: System, e: Event)
    requires Shaped(s)
    ensures Shaped(Step(cfg, s, e))
  {
    hide DecodeBatch, Encode, Put, Zeros;
  }

  function Run(cfg: Config, s: System, es: seq<Event>): (t: System)
    requires Shaped(s)
    ensures Shaped(t)
    decreases |es|
  {
    if es == [] then s else StepShaped(cfg, s, es[0]); Run(cfg, Step(cfg, s, es[0]), es[1..])
  }
}
