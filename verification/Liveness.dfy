/** The kernel can publish, and what it publishes is delivered. */
module Liveness {
  import opened Bytes
  import opened Layout
  import opened Records
  import opened Batch
  import opened RingWindow
  import opened Protocol
  import opened ProtocolSafety
  import opened ExactlyOnce
  import opened SplitSteps

  /** There are initial states with any number of rings of any size. */
  lemma InitialExists(cores: nat, size: nat) returns (s: System)
    requires 0 < size < INT_LIMIT
    ensures Initial(s) && |s.m.rings| == cores && |s.m.scratch| == size
  {
    var ring := Ring(Zeros(size), 0, 0);
    s := System(Machine(seq(cores, _ => ring), seq(cores, _ => 0), Zeros(size), []), Idle,
                History(seq(cores, _ => []), seq(cores, _ => []), 0));
  }

  function Publications(i: nat, rs: seq<Record>): seq<Event> {
    if rs == [] then [] else [Publish(i, rs[0])] + Publications(i, rs[1..])
  }

  /** The free part of ring i. */
  function Room(s: System, i: nat): int {
    if i < |s.m.rings| then s.m.rings[i].tail + |s.m.rings[i].buf| - s.m.rings[i].head else 0
  }

  /** From s to t nothing has happened but the publication of rs on ring i. */
  predicate Added(s: System, t: System, i: nat, rs: seq<Record>)
    requires i < |s.hist.published|
  {
    && |t.m.rings| == |s.m.rings|
    && Room(t, i) == Room(s, i) - |EncodeAll(rs)|
    && t.hist.published == s.hist.published[i := s.hist.published[i] + rs]
    && t.m.log == s.m.log && t.phase == s.phase
  }

  lemma PublishOne(cfg: Config, s: System, i: nat, r: Record)
    requires Shaped(s) && i < |s.m.rings| && |Encode(r)| <= Room(s, i)
    ensures Added(s, Step(cfg, s, Publish(i, r)), i, [r])
  {
    hide Encode, Put;
    assert EncodeAll([r]) == Encode(r) + EncodeAll([]);
  }

  lemma AddedAppend(s: System, t: System, u: System, i: nat, a: seq<Record>, b: seq<Record>)
    requires i < |s.hist.published| && Added(s, t, i, a) && Added(t, u, i, b)
    ensures Added(s, u, i, a + b)
  {
    EncodeAllAppend(a, b);
    hide EncodeAll;
    var pub := s.hist.published[i];
    assert pub + a + b == pub + (a + b);
  }

  lemma {:induction false} PublishAll(cfg: Config, s: System, i: nat, rs: seq<Record>)
    requires Shaped(s) && i < |s.m.rings| && |EncodeAll(rs)| <= Room(s, i)
    ensures Added(s, Run(cfg, s, Publications(i, rs)), i, rs) && AllPublish(Publications(i, rs))
    decreases |rs|
  {
    hide Encode, Step, Room;
    if rs == [] {
      assert s.hist.published[i] + rs == s.hist.published[i];
    } else {
      var r, rest := rs[0], rs[1..];
      assert rs == [r] + rest;
      EncodeAllAppend([r], rest);
      assert EncodeAll([r]) == Encode(r) + EncodeAll([]);
      PublishOne(cfg, s, i, r);
      StepShaped(cfg, s, Publish(i, r));
      var t := Step(cfg, s, Publish(i, r));
      PublishAll(cfg, t, i, rest);
      assert Publications(i, rs)[0] == Publish(i, r) && Publications(i, rs)[1..] == Publications(i, rest);
      hide Added, EncodeAll;
      AddedAppend(s, t, Run(cfg, t, Publications(i, rest)), i, [r], rest);
    }
  }

  /** Records that fit a ring together are all published, whatever the handler is doing, and
      where the decoder can walk over the ring the next handler run shows them all. */
  lemma PublishedAndShown(cfg: Config, s: System, i: nat, rs: seq<Record>) returns (t: System)
    requires Reachable(cfg, s) && Shaped(s) && i < |s.m.rings| && |EncodeAll(rs)| <= Room(s, i)
    ensures t == Run(cfg, s, Publications(i, rs)) && Reachable(cfg, t) && Shaped(t)
    ensures Added(s, t, i, rs)
    ensures s.phase.Idle? && Walkable(cfg, s.hist.published[i] + rs) ==>
              && HandleRing(cfg, t.m, i).Ok?
              && Project(HandleRing(cfg, t.m, i).value.log, i) == Views(cfg, s.hist.published[i] + rs)
  {
    hide Run, HandleRing, Reachable, EncodeAll, Walkable, Project, Views, Room;
    var es := Publications(i, rs);
    t := Run(cfg, s, es);
    PublishAll(cfg, s, i, rs);
    assert !s.phase.Crashed? by { ReachableAlive(cfg, s); }
    ReachableRun(cfg, s, es);
    if s.phase.Idle? { HandlerPromise(cfg, t, i); }
  }

  lemma ReachableAlive(cfg: Config, s: System)
    requires Reachable(cfg, s)
    ensures !s.phase.Crashed?
  {
    hide Run, Initial;
  }

  /** Every list of records that fits a ring is what some run has published there. */
  lemma EveryList(cfg: Config, cores: nat, size: nat, i: nat, rs: seq<Record>) returns (t: System)
    requires i < cores && 0 < size < INT_LIMIT && |EncodeAll(rs)| <= size
    ensures Reachable(cfg, t) && Shaped(t) && t.phase.Idle? && |t.m.rings| == cores && t.hist.published[i] == rs
    ensures Walkable(cfg, rs) ==>
              HandleRing(cfg, t.m, i).Ok? && Project(HandleRing(cfg, t.m, i).value.log, i) == Views(cfg, rs)
  {
    hide Run, HandleRing, Reachable, EncodeAll, Walkable, Project, Views;
    var s := InitialExists(cores, size);
    InitialReachable(cfg, s);
    assert [] + rs == rs;
    t := PublishedAndShown(cfg, s, i, rs);
  }

  lemma WalkablePrefix(cfg: Config, a: seq<Record>, b: seq<Record>)
    requires Walkable(cfg, a + b)
    ensures Walkable(cfg, a)
  {
    hide Decodable;
    assert forall r <- a :: r in a + b;
  }

  /** A handler run empties its ring. */
  lemma Emptied(cfg: Config, s: System, i: nat) returns (t: System)
    requires Reachable(cfg, s) && Shaped(s) && s.phase.Idle? && i < |s.m.rings|
    requires Walkable(cfg, s.hist.published[i])
    ensures t == Run(cfg, s, HandlerRun(i, [], [], [], [], []))
    ensures Reachable(cfg, t) && Shaped(t) && t.phase.Idle? && t.hist.published == s.hist.published
    ensures |t.m.scratch| == |s.m.scratch| && |t.m.rings| == |s.m.rings| && Room(t, i) == |s.m.scratch|
    ensures Project(t.m.log, i) == Views(cfg, s.hist.published[i])
  {
    hide Run, Reachable, Walkable, Project, Views, Zeros, DecodeBatch;
    HandlerPromise(cfg, s, i);
    t := HandlerReaches(cfg, s, i);
  }

  lemma ShownAlready(cfg: Config, s: System, i: nat)
    requires Reachable(cfg, s) && Shaped(s) && s.phase.Idle? && i < |s.m.rings| && Room(s, i) == |s.m.scratch|
    requires Walkable(cfg, s.hist.published[i])
    ensures Project(s.m.log, i) == Views(cfg, s.hist.published[i])
  {
    hide Reachable, Walkable, Project, Views, EncodeAll;
    WindowInvariant(cfg, s, i);
    CaughtUp(cfg, s, i);
  }

  /** Any stream at all of records that the decoder can walk over, as long as it likes, each
      small enough for the ring, has a run that publishes the whole of it, shows the whole of
      it, and leaves the ring empty. */
  lemma {:induction false} EveryStream(cfg: Config, s: System, i: nat, rs: seq<Record>) returns (es: seq<Event>, t: System)
    requires Reachable(cfg, s) && Shaped(s) && s.phase.Idle? && i < |s.m.rings| && Room(s, i) == |s.m.scratch|
    requires Walkable(cfg, s.hist.published[i] + rs) && forall r <- rs :: |Encode(r)| <= |s.m.scratch|
    ensures t == Run(cfg, s, es) && Reachable(cfg, t) && Shaped(t) && t.phase.Idle?
    ensures t.hist.published == s.hist.published[i := s.hist.published[i] + rs]
    ensures |t.m.rings| == |s.m.rings| && Room(t, i) == |s.m.scratch|
    ensures Project(t.m.log, i) == Views(cfg, t.hist.published[i])
    decreases |rs|
  {
    hide Run, HandleRing, Reachable, EncodeAll, Encode, Walkable, Project, Views, Room, HandlerRun;
    var pub := s.hist.published[i];
    if rs == [] {
      assert pub + rs == pub;
      ShownAlready(cfg, s, i);
      es, t := [], s;
      assert Run(cfg, s, []) == s by { NoEvents(cfg, s); }
    } else {
      var r, rest := rs[0], rs[1..];
      assert pub + rs == pub + [r] + rest;
      WalkablePrefix(cfg, pub + [r], rest);
      OneRecord(r);
      var u := PublishedAndShown(cfg, s, i, [r]);
      SameScratch(cfg, s, Publications(i, [r]));
      var v := Emptied(cfg, u, i);
      var more;
      more, t := EveryStream(cfg, v, i, rest);
      var one := Publications(i, [r]);
      var run := HandlerRun(i, [], [], [], [], []);
      es := one + run + more;
      RunAppend(cfg, s, one + run, more);
      RunAppend(cfg, s, one, run);
    }
  }

  lemma NoEvents(cfg: Config, s: System)
    requires Shaped(s)
    ensures Run(cfg, s, []) == s
  {
  }

  lemma OneRecord(r: Record)
    ensures EncodeAll([r]) == Encode(r)
  {
    assert EncodeAll([r]) == Encode(r) + EncodeAll([]);
  }

  lemma {:induction false} SameScratch(cfg: Config, s: System, es: seq<Event>)
    requires Shaped(s)
    ensures |Run(cfg, s, es).m.scratch| == |s.m.scratch|
    decreases |es|
  {
    hide DecodeBatch, Encode, Put, Zeros;
    if es != [] {
      StepShaped(cfg, s, es[0]);
      SameScratch(cfg, Step(cfg, s, es[0]), es[1..]);
    }
  }
}
