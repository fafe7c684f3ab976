/** A handler run whose steps are interleaved with publications is as good as one that
    happens at the moment the head is loaded. */
module SplitSteps {
  import opened Bytes
  import opened Layout
  import opened Records
  import opened Batch
  import opened RingWindow
  import opened Protocol
  import opened ProtocolSafety
  import opened ExactlyOnce

  /** Everything published on ring i that no handler run has found yet. */
  function Waiting(s: System, i: nat): seq<Record>
    requires Shaped(s) && i < |s.m.rings|
  {
    var seen := |Found(s.hist.delivered[i])|;
    if seen <= |s.hist.published[i]| then s.hist.published[i][seen..] else []
  }

  // ---- The atomic run ----

  lemma WaitingIsPending(cfg: Config, s: System, i: nat)
    requires Inv(cfg, s) && s.phase.Idle? && i < |s.m.rings|
    ensures var h := s.hist.(upto := |s.hist.published[i]|);
            LoadOk(h, i, s.m.rings[i].head) && Pending(h, i) == Waiting(s, i)
  {
    hide EncodeAll, Project, Shown, Holds, Found, Truthful;
    assert CoreOk(cfg, s, i);
    var pub := s.hist.published[i];
    assert pub[..|pub|] == pub;
  }

  /** What a handler run without interruption does, in full, when the decoder can walk over
      what is waiting. */
  lemma AtomicRun(cfg: Config, s: System, i: nat)
    requires Inv(cfg, s) && s.phase.Idle? && i < |s.m.rings|
    requires DecodableStream(cfg, Waiting(s, i))
    ensures var ring := s.m.rings[i];
            HandleRing(cfg, s.m, i) ==
            Ok(Machine(s.m.rings[i := ring.(tail := ring.head)], s.m.prev[i := ring.head], Zeros(|s.m.scratch|),
                       s.m.log + Tag(i, Deliver(cfg, Waiting(s, i)))))
  {
    hide EncodeAll, Project, Shown, Holds, Found, Deliver, DecodeBatch, Waiting, Pending, Zeros, Unwrap;
    hide Truthful, DecodableStream;
    assert CoreOk(cfg, s, i);
    var h := s.hist.(upto := |s.hist.published[i]|);
    var s' := s.(hist := h);
    assert CoreOk(cfg, s', i);
    WaitingIsPending(cfg, s, i);
    PendingInStream(cfg, s', i, s.m.rings[i].head);
    var ring, prev, stream := s.m.rings[i], s.m.prev[i], EncodeAll(s.hist.published[i]);
    UnwrapWindow(ring, stream, prev);
    assert stream[prev..] == stream[prev..ring.head];
    BatchDelivered(cfg, Waiting(s, i), Unwrap(ring.buf, prev), 0);
  }

  // ---- Publications in between ----

  predicate AllPublish(es: seq<Event>) { forall e <- es :: e.Publish? }

  lemma {:induction false} RunAppend(cfg: Config, s: System, a: seq<Event>, b: seq<Event>)
    requires Shaped(s)
    ensures Run(cfg, s, a + b) == Run(cfg, Run(cfg, s, a), b)
    decreases |a|
  {
    hide Step;
    if a == [] {
      assert a + b == b;
    } else {
      assert (a + b)[0] == a[0] && (a + b)[1..] == a[1..] + b;
      StepShaped(cfg, s, a[0]);
      RunAppend(cfg, Step(cfg, s, a[0]), a[1..], b);
    }
  }

  /** What publications leave alone. */
  predicate Undisturbed(s: System, t: System) {
    && t.phase == s.phase && t.m.prev == s.m.prev && t.m.log == s.m.log && t.m.scratch == s.m.scratch
    && t.hist.delivered == s.hist.delivered && t.hist.upto == s.hist.upto
    && |t.m.rings| == |s.m.rings| && |t.hist.published| == |s.hist.published|
    && (forall j :: 0 <= j < |s.m.rings| ==> t.m.rings[j].tail == s.m.rings[j].tail)
    && (forall j :: 0 <= j < |s.hist.published| ==> s.hist.published[j] <= t.hist.published[j])
  }

  lemma {:induction false} PublishOnly(cfg: Config, s: System, es: seq<Event>)
    requires Shaped(s) && AllPublish(es)
    ensures Undisturbed(s, Run(cfg, s, es))
    decreases |es|
  {
    hide Encode, Put;
    if es != [] {
      StepShaped(cfg, s, es[0]);
      var t := Step(cfg, s, es[0]);
      assert es[0].Publish?;
      assert Undisturbed(s, t);
      PublishOnly(cfg, t, es[1..]);
    }
  }

  function HandlerRun(i: nat, p1: seq<Event>, p2: seq<Event>, p3: seq<Event>, p4: seq<Event>, p5: seq<Event>): seq<Event> {
    [Signal(i)] + p1 + [CopyHigh] + p2 + [CopyLow] + p3 + [Parse] + p4 + [StoreTail] + p5 + [SavePrev]
  }

  /** Publications, then one step of the handler. */
  function Leg(ps: seq<Event>, e: Event): seq<Event> { ps + [e] }

  lemma LegRun(cfg: Config, s: System, ps: seq<Event>, e: Event)
    requires Inv(cfg, s) && AllPublish(ps)
    ensures var u := Run(cfg, s, ps);
            Inv(cfg, u) && Undisturbed(s, u) && Run(cfg, s, Leg(ps, e)) == Step(cfg, u, e)
    ensures Inv(cfg, Run(cfg, s, Leg(ps, e)))
  {
    hide Step, Inv;
    InvShaped(cfg, s);
    RunKeeps(cfg, s, ps);
    PublishOnly(cfg, s, ps);
    RunAppend(cfg, s, ps, [e]);
    var u := Run(cfg, s, ps);
    StepKeeps(cfg, u, e);
    StepShaped(cfg, u, e);
    assert [e][0] == e && [e][1..] == [];
  }

  lemma InvShaped(cfg: Config, s: System)
    requires Inv(cfg, s)
    ensures Shaped(s)
  {
  }

  /** Before the parse: apart from scratch and buffers, t is where s was, and it remembers s's batch. */
  ghost predicate Underway(s: System, t: System, i: nat) {
    && i < |s.m.rings| == |t.m.rings| && |t.m.scratch| == |s.m.scratch|
    && i < |s.hist.published| == |t.hist.published|
    && t.m.prev == s.m.prev && t.m.log == s.m.log && t.hist.delivered == s.hist.delivered
    && t.hist.upto == |s.hist.published[i]| && s.hist.published[i] <= t.hist.published[i]
    && forall j :: 0 <= j < |s.m.rings| ==> t.m.rings[j].tail == s.m.rings[j].tail
  }

  /** After it: the log has grown by the report of s's batch. */
  ghost predicate Reported(cfg: Config, s: System, t: System, i: nat)
    requires Shaped(s) && i < |s.m.rings|
  {
    && |t.m.rings| == |s.m.rings| && |t.m.scratch| == |s.m.scratch|
    && t.m.log == s.m.log + Tag(i, Deliver(cfg, Waiting(s, i)))
  }

  lemma UnderwayPending(s: System, t: System, i: nat)
    requires Shaped(s) && Shaped(t) && Underway(s, t, i)
    ensures Pending(t.hist, i) == Waiting(s, i)
  {
    hide Found;
    var pub := s.hist.published[i];
    var seen := |Found(s.hist.delivered[i])|;
    if seen <= |pub| {
      assert t.hist.published[i][seen..|pub|] == pub[seen..];
    }
  }

  lemma LoadLeg(cfg: Config, s: System, i: nat) returns (t: System)
    requires Inv(cfg, s) && s.phase.Idle? && i < |s.m.rings|
    ensures t == Run(cfg, s, Leg([], Signal(i)))
    ensures Inv(cfg, t) && Underway(s, t, i) && t.phase == Loaded(i, s.m.rings[i].head)
  {
    hide CoreOk, PhaseOk;
    t := Run(cfg, s, Leg([], Signal(i)));
    LegRun(cfg, s, [], Signal(i));
  }

  lemma CopyHighLeg(cfg: Config, s: System, r: System, i: nat, head: nat, ps: seq<Event>) returns (t: System)
    requires Shaped(s) && Inv(cfg, r) && AllPublish(ps) && Underway(s, r, i) && r.phase == Loaded(i, head)
    ensures t == Run(cfg, r, Leg(ps, CopyHigh))
    ensures Inv(cfg, t) && Underway(s, t, i) && t.phase == HighCopied(i, head)
  {
    hide CoreOk, PhaseOk, Run;
    LegRun(cfg, r, ps, CopyHigh);
    t := Run(cfg, r, Leg(ps, CopyHigh));
  }

  lemma CopyLowLeg(cfg: Config, s: System, r: System, i: nat, head: nat, ps: seq<Event>) returns (t: System)
    requires Shaped(s) && Inv(cfg, r) && AllPublish(ps) && Underway(s, r, i) && r.phase == HighCopied(i, head)
    ensures t == Run(cfg, r, Leg(ps, CopyLow))
    ensures Inv(cfg, t) && Underway(s, t, i) && t.phase == LowCopied(i, head)
  {
    hide CoreOk, PhaseOk, Run;
    LegRun(cfg, r, ps, CopyLow);
    t := Run(cfg, r, Leg(ps, CopyLow));
  }

  lemma ParseLeg(cfg: Config, s: System, r: System, i: nat, head: nat, ps: seq<Event>) returns (t: System)
    requires Shaped(s) && Inv(cfg, r) && AllPublish(ps) && Underway(s, r, i) && r.phase == LowCopied(i, head)
    requires DecodableStream(cfg, Waiting(s, i))
    ensures t == Run(cfg, r, Leg(ps, Parse))
    ensures Inv(cfg, t) && Reported(cfg, s, t, i) && t.phase == Parsed(i, head) && t.m.prev == s.m.prev
    ensures forall j :: 0 <= j < |s.m.rings| ==> t.m.rings[j].tail == s.m.rings[j].tail
  {
    hide CoreOk, PhaseOk, Run, DecodeBatch, Deliver, Waiting, Pending, DecodableStream;
    LegRun(cfg, r, ps, Parse);
    var u := Run(cfg, r, ps);
    UnderwayPending(s, u, i);
    ParseReports(cfg, u);
    t := Run(cfg, r, Leg(ps, Parse));
  }

  lemma StoreLeg(cfg: Config, s: System, r: System, i: nat, head: nat, ps: seq<Event>) returns (t: System)
    requires Shaped(s) && i < |s.m.rings| && Inv(cfg, r) && AllPublish(ps)
    requires Reported(cfg, s, r, i) && r.phase == Parsed(i, head) && r.m.prev == s.m.prev
    requires forall j :: 0 <= j < |s.m.rings| ==> r.m.rings[j].tail == s.m.rings[j].tail
    ensures t == Run(cfg, r, Leg(ps, StoreTail))
    ensures Inv(cfg, t) && Reported(cfg, s, t, i) && t.phase == Stored(i, head) && t.m.prev == s.m.prev
    ensures t.m.scratch == Zeros(|s.m.scratch|)
    ensures forall j :: 0 <= j < |s.m.rings| ==>
              t.m.rings[j].tail == if j == i then head else s.m.rings[j].tail
  {
    hide CoreOk, PhaseOk, Run, Deliver, Waiting, Zeros;
    LegRun(cfg, r, ps, StoreTail);
    t := Run(cfg, r, Leg(ps, StoreTail));
  }

  lemma SaveLeg(cfg: Config, s: System, r: System, i: nat, head: nat, ps: seq<Event>) returns (t: System)
    requires Shaped(s) && i < |s.m.rings| && Inv(cfg, r) && AllPublish(ps)
    requires Reported(cfg, s, r, i) && r.phase == Stored(i, head) && r.m.prev == s.m.prev
    ensures t == Run(cfg, r, Leg(ps, SavePrev))
    ensures Inv(cfg, t) && Reported(cfg, s, t, i) && t.phase == Idle && t.m.prev == s.m.prev[i := head]
    ensures t.m.scratch == r.m.scratch
    ensures forall j :: 0 <= j < |s.m.rings| ==> t.m.rings[j].tail == r.m.rings[j].tail
  {
    hide CoreOk, PhaseOk, Run, Deliver, Waiting;
    LegRun(cfg, r, ps, SavePrev);
    t := Run(cfg, r, Leg(ps, SavePrev));
  }

  lemma LegsAreRun(cfg: Config, s: System, i: nat,
                   p1: seq<Event>, p2: seq<Event>, p3: seq<Event>, p4: seq<Event>, p5: seq<Event>)
    requires Shaped(s)
    ensures Run(cfg, s, HandlerRun(i, p1, p2, p3, p4, p5)) ==
            Run(cfg, Run(cfg, Run(cfg, Run(cfg, Run(cfg, Run(cfg, s,
              Leg([], Signal(i))), Leg(p1, CopyHigh)), Leg(p2, CopyLow)), Leg(p3, Parse)),
              Leg(p4, StoreTail)), Leg(p5, SavePrev))
  {
    hide Run, Leg, Shaped;
    var l0, l1, l2, l3, l4, l5 := Leg([], Signal(i)), Leg(p1, CopyHigh), Leg(p2, CopyLow), Leg(p3, Parse),
                                  Leg(p4, StoreTail), Leg(p5, SavePrev);
    HandlerRunLegs(i, p1, p2, p3, p4, p5);
    RunAppend(cfg, s, l0 + l1 + l2 + l3 + l4, l5);
    RunAppend(cfg, s, l0 + l1 + l2 + l3, l4);
    RunAppend(cfg, s, l0 + l1 + l2, l3);
    RunAppend(cfg, s, l0 + l1, l2);
    RunAppend(cfg, s, l0, l1);
  }

  lemma HandlerRunLegs(i: nat, p1: seq<Event>, p2: seq<Event>, p3: seq<Event>, p4: seq<Event>, p5: seq<Event>)
    ensures HandlerRun(i, p1, p2, p3, p4, p5) ==
            Leg([], Signal(i)) + Leg(p1, CopyHigh) + Leg(p2, CopyLow) + Leg(p3, Parse) + Leg(p4, StoreTail) + Leg(p5, SavePrev)
  {
    assert [] + [Signal(i)] == [Signal(i)];
    var a := [Signal(i)];
    assert a + p1 + [CopyHigh] == a + (p1 + [CopyHigh]);
    var b := a + (p1 + [CopyHigh]);
    assert b + p2 + [CopyLow] == b + (p2 + [CopyLow]);
    var c := b + (p2 + [CopyLow]);
    assert c + p3 + [Parse] == c + (p3 + [Parse]);
    var d := c + (p3 + [Parse]);
    assert d + p4 + [StoreTail] == d + (p4 + [StoreTail]);
    var e := d + (p4 + [StoreTail]);
    assert e + p5 + [SavePrev] == e + (p5 + [SavePrev]);
  }

  /** If the decoder can walk over what is waiting: however the five gaps are filled, log,
      table, scratch and tails end up as if the whole run had happened when the head was
      loaded. */
  lemma SplitStepSafety(cfg: Config, s: System, i: nat,
                        p1: seq<Event>, p2: seq<Event>, p3: seq<Event>, p4: seq<Event>, p5: seq<Event>)
    requires Inv(cfg, s) && s.phase.Idle? && i < |s.m.rings|
    requires DecodableStream(cfg, Waiting(s, i))
    requires AllPublish(p1) && AllPublish(p2) && AllPublish(p3) && AllPublish(p4) && AllPublish(p5)
    ensures var t := Run(cfg, s, HandlerRun(i, p1, p2, p3, p4, p5));
            var atomic := HandleRing(cfg, s.m, i);
            && atomic.Ok? && t.phase.Idle?
            && t.m.log == atomic.value.log && t.m.prev == atomic.value.prev && t.m.scratch == atomic.value.scratch
            && |t.m.rings| == |s.m.rings|
            && forall j :: 0 <= j < |s.m.rings| ==> t.m.rings[j].tail == atomic.value.rings[j].tail
  {
    hide CoreOk, PhaseOk, Run, Zeros, Tag, Deliver, DecodeBatch, HandleRing, AllPublish, Waiting, Underway, DecodableStream;
    var head := s.m.rings[i].head;
    AtomicRun(cfg, s, i);
    LegsAreRun(cfg, s, i, p1, p2, p3, p4, p5);
    var t := LoadLeg(cfg, s, i);
    t := CopyHighLeg(cfg, s, t, i, head, p1);
    t := CopyLowLeg(cfg, s, t, i, head, p2);
    t := ParseLeg(cfg, s, t, i, head, p3);
    t := StoreLeg(cfg, s, t, i, head, p4);
    t := SaveLeg(cfg, s, t, i, head, p5);
  }

  lemma BareLeg(cfg: Config, s: System, e: Event)
    requires Shaped(s)
    ensures Shaped(Step(cfg, s, e)) && Run(cfg, s, Leg([], e)) == Step(cfg, s, e)
  {
    hide Step;
    StepShaped(cfg, s, e);
    assert Leg([], e)[0] == e && Leg([], e)[1..] == [];
  }

  /** The two copies with nothing in between make the whole of Unwrap. */
  lemma BareCopies(cfg: Config, s: System, i: nat)
    requires Shaped(s) && s.phase.Idle? && i < |s.m.rings|
    ensures var ring := s.m.rings[i];
            var t := Step(cfg, Step(cfg, Step(cfg, s, Signal(i)), CopyHigh), CopyLow);
            && Shaped(Step(cfg, s, Signal(i))) && Shaped(Step(cfg, Step(cfg, s, Signal(i)), CopyHigh)) && Shaped(t)
            && t.phase == LowCopied(i, ring.head)
            && t.m == s.m.(scratch := Unwrap(ring.buf, s.m.prev[i]))
  {
    hide Found;
    var s1 := Step(cfg, s, Signal(i));
    var s2 := Step(cfg, s1, CopyHigh);
    var s3 := Step(cfg, s2, CopyLow);
    assert s3.m.scratch == Unwrap(s.m.rings[i].buf, s.m.prev[i]);
  }

  /** And the other steps what HandleRing does with it. */
  lemma BareRest(cfg: Config, s: System, t: System, i: nat)
    requires Shaped(s) && i < |s.m.rings| && Shaped(t)
    requires var ring := s.m.rings[i];
             t.phase == LowCopied(i, ring.head) && t.m == s.m.(scratch := Unwrap(ring.buf, s.m.prev[i]))
    ensures var t4 := Step(cfg, t, Parse);
            && Shaped(t4)
            && match HandleRing(cfg, s.m, i)
               case Fault => t4.phase == Crashed(i)
               case Ok(m) =>
                 var t5 := Step(cfg, t4, StoreTail);
                 && Shaped(t5)
                 && var t6 := Step(cfg, t5, SavePrev);
                    Shaped(t6) && t6.phase == Idle && t6.m == m
  {
    hide Found, DecodeBatch, Tag, Zeros, Unwrap, Pending;
    var ring := s.m.rings[i];
    assert |Unwrap(ring.buf, s.m.prev[i])| == |s.m.scratch|;
  }

  /** With nothing published in between, the six steps are the atomic run, whatever the ring
      holds: the same machine, or an undefined read in both. */
  lemma AtomicIsRun(cfg: Config, s: System, i: nat)
    requires Shaped(s) && s.phase.Idle? && i < |s.m.rings|
    ensures var t := Run(cfg, s, HandlerRun(i, [], [], [], [], []));
            match HandleRing(cfg, s.m, i)
            case Fault => t.phase == Crashed(i)
            case Ok(m) => t.phase == Idle && t.m == m
  {
    hide Run, HandleRing, Leg, HandlerRun, Step;
    LegsAreRun(cfg, s, i, [], [], [], [], []);
    BareCopies(cfg, s, i);
    BareLeg(cfg, s, Signal(i));
    var s1 := Step(cfg, s, Signal(i));
    BareLeg(cfg, s1, CopyHigh);
    var s2 := Step(cfg, s1, CopyHigh);
    BareLeg(cfg, s2, CopyLow);
    var s3 := Step(cfg, s2, CopyLow);
    BareRest(cfg, s, s3, i);
    BareLeg(cfg, s3, Parse);
    var s4 := Step(cfg, s3, Parse);
    BareLeg(cfg, s4, StoreTail);
    var s5 := Step(cfg, s4, StoreTail);
    BareLeg(cfg, s5, SavePrev);
    CrashedStays(cfg, s4);
  }

  /** After an undefined read the handler takes no further step. */
  lemma CrashedStays(cfg: Config, s: System)
    requires Shaped(s)
    ensures s.phase.Crashed? ==> Step(cfg, s, StoreTail) == s && Step(cfg, s, SavePrev) == s
  {
  }

  lemma ProjectReport(log: seq<Line>, i: nat, rs: seq<Record>, j: nat)
    ensures Project(log + Tag(i, rs), j) == Project(log, j) + if i == j then rs else []
  {
    ProjectAppend(log, Tag(i, rs), j);
    ProjectTag(i, rs, j);
  }

  /** After a handler run the log shows all that had been published on that ring when the
      head was loaded, and nothing new for any other ring. */
  lemma HandlerDelivers(cfg: Config, s: System, i: nat)
    requires Inv(cfg, s) && s.phase.Idle? && i < |s.m.rings|
    requires Walkable(cfg, s.hist.published[i])
    ensures HandleRing(cfg, s.m, i).Ok?
    ensures Project(HandleRing(cfg, s.m, i).value.log, i) == Views(cfg, s.hist.published[i])
    ensures forall j :: j != i ==>
              Project(HandleRing(cfg, s.m, i).value.log, j) == Project(s.m.log, j)
  {
    hide Run, Zeros, Tag, Deliver, DecodeBatch, HandleRing, Project, EncodeAll, Holds, Shown, Found, View, Decodable;
    assert CoreOk(cfg, s, i);
    var pub, ds, w := s.hist.published[i], s.hist.delivered[i], Waiting(s, i);
    assert pub == Found(ds) + w;
    assert forall r <- Found(ds) :: r in pub;
    assert forall r <- w :: r in pub;
    AtomicRun(cfg, s, i);
    ShownIsDelivered(cfg, ds);
    DeliverAppend(cfg, Found(ds), w);
    DeliverViews(cfg, pub);
    var log := HandleRing(cfg, s.m, i).value.log;
    ProjectReport(s.m.log, i, Deliver(cfg, w), i);
    forall j: nat | j != i ensures Project(log, j) == Project(s.m.log, j) {
      ProjectReport(s.m.log, i, Deliver(cfg, w), j);
      assert Project(s.m.log, j) + [] == Project(s.m.log, j);
    }
  }

  // ---- Runs go on from where they are ----

  lemma {:induction false} PublishedKept(cfg: Config, s: System, es: seq<Event>)
    requires Shaped(s) && forall e <- es :: !e.Publish?
    ensures Run(cfg, s, es).hist.published == s.hist.published
    decreases |es|
  {
    hide DecodeBatch, Zeros;
    if es != [] {
      StepShaped(cfg, s, es[0]);
      assert !es[0].Publish?;
      PublishedKept(cfg, Step(cfg, s, es[0]), es[1..]);
    }
  }

  lemma ReachableRun(cfg: Config, s: System, es: seq<Event>)
    requires Reachable(cfg, s) && Shaped(s)
    ensures !Run(cfg, s, es).phase.Crashed? ==> Reachable(cfg, Run(cfg, s, es))
  {
    hide Run;
    var s0, before :| Initial(s0) && s == Run(cfg, s0, before);
    RunAppend(cfg, s0, before, es);
  }

  /** A handler run that ends leads from a reachable state to a reachable state. */
  lemma HandlerReaches(cfg: Config, s: System, i: nat) returns (t: System)
    requires Reachable(cfg, s) && Shaped(s) && s.phase.Idle? && i < |s.m.rings|
    ensures t == Run(cfg, s, HandlerRun(i, [], [], [], [], []))
    ensures HandleRing(cfg, s.m, i).Ok? ==>
              && Reachable(cfg, t) && Shaped(t) && t.phase.Idle? && t.m == HandleRing(cfg, s.m, i).value
              && t.hist.published == s.hist.published
  {
    hide Run, HandleRing, Reachable;
    var es := HandlerRun(i, [], [], [], [], []);
    t := Run(cfg, s, es);
    AtomicIsRun(cfg, s, i);
    ReachableRun(cfg, s, es);
    PublishedKept(cfg, s, es);
  }

  /** So does a publication. */
  lemma PublishReaches(cfg: Config, s: System, i: nat, r: Record)
    requires Reachable(cfg, s) && Shaped(s) && s.phase.Idle?
    ensures var t := PublishStep(s, i, r);
            Reachable(cfg, t) && Shaped(t) && t.phase.Idle?
  {
    hide Reachable, Encode, Put;
    var e := Publish(i, r);
    StepShaped(cfg, s, e);
    ReachableRun(cfg, s, [e]);
    assert [e][0] == e && [e][1..] == [];
    assert Run(cfg, s, [e]) == Step(cfg, s, e);
  }

  /** What a handler run can be relied on for, in any reachable state. */
  lemma HandlerPromise(cfg: Config, s: System, i: nat)
    requires Reachable(cfg, s) && Shaped(s) && s.phase.Idle? && i < |s.m.rings|
    ensures DecodableStream(cfg, Waiting(s, i)) ==> HandleRing(cfg, s.m, i).Ok?
    ensures Walkable(cfg, s.hist.published[i]) ==>
              && HandleRing(cfg, s.m, i).Ok?
              && Project(HandleRing(cfg, s.m, i).value.log, i) == Views(cfg, s.hist.published[i])
  {
    hide HandleRing, Reachable, Inv, Waiting, DecodableStream, Walkable, Project, Views, Deliver, Zeros, Tag;
    ReachableInv(cfg, s);
    if DecodableStream(cfg, Waiting(s, i)) { AtomicRun(cfg, s, i); }
    if Walkable(cfg, s.hist.published[i]) { HandlerDelivers(cfg, s, i); }
  }
}
