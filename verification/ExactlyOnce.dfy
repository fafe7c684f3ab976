/** What holds of every run from the initial state. */
module ExactlyOnce {
  import opened Layout
  import opened SampleSync
  import opened SampleOrder
  import opened Records
  import opened RecordDecoder
  import opened Batch
  import opened RingWindow
  import opened Protocol
  import opened ProtocolSafety

  /** Fresh mappings, cleared `prev_head` table, empty log, and whatever malloc left in the scratch array. */
  ghost predicate Initial(s: System) {
    && Shaped(s) && s.phase.Idle? && s.m.log == []
    && forall i :: 0 <= i < |s.m.rings| ==>
         && s.m.rings[i].head == 0 && s.m.rings[i].tail == 0 && s.m.prev[i] == 0
         && |s.m.rings[i].buf| < INT_LIMIT
         && s.hist.published[i] == [] && s.hist.delivered[i] == []
  }

  lemma InitialInv(cfg: Config, s: System)
    requires Initial(s)
    ensures Inv(cfg, s)
  {
  }

  /** A state that some run leads to, with no undefined read on the way. */
  ghost predicate Reachable(cfg: Config, s: System) {
    && !s.phase.Crashed?
    && exists s0, es :: Initial(s0) && s == Run(cfg, s0, es)
  }

  lemma InitialReachable(cfg: Config, s: System)
    requires Initial(s)
    ensures Reachable(cfg, s)
  {
    assert s == Run(cfg, s, []);
  }

  lemma ReachableInv(cfg: Config, s: System)
    requires Reachable(cfg, s)
    ensures Inv(cfg, s)
  {
    hide Inv, Run;
    var s0, es :| Initial(s0) && s == Run(cfg, s0, es);
    InitialInv(cfg, s0);
    RunKeeps(cfg, s0, es);
  }

  /** No undefined read happens as long as the kernel writes what the decoder can walk over. */
  lemma NoUndefinedRead(cfg: Config, s0: System, es: seq<Event>)
    requires Initial(s0)
    requires var s := Run(cfg, s0, es);
             forall i :: 0 <= i < |s.m.rings| ==> DecodableStream(cfg, s.hist.published[i])
    ensures Reachable(cfg, Run(cfg, s0, es))
  {
    hide Run, CoreOk, DecodableStream;
    InitialInv(cfg, s0);
    RunKeeps(cfg, s0, es);
  }

  function Views(cfg: Config, rs: seq<Record>): (vs: seq<Record>)
    ensures |vs| == |rs|
  {
    seq(|rs|, k requires 0 <= k < |rs| => View(cfg, rs[k]))
  }

  // ---- Record boundaries ----

  lemma PrefixLonger(pub: seq<Record>, j: nat, k: nat)
    requires j < k <= |pub|
    ensures |EncodeAll(pub[..j])| < |EncodeAll(pub[..k])|
  {
    hide Encode;
    assert pub[..k] == pub[..j] + pub[j..k];
    EncodeAllAppend(pub[..j], pub[j..k]);
    assert |EncodeAll(pub[j..k])| >= 8;
  }

  /** A stream position is the end of at most one number of records. */
  lemma BoundaryUnique(pub: seq<Record>, j: nat, k: nat)
    requires j <= |pub| && k <= |pub| && |EncodeAll(pub[..j])| == |EncodeAll(pub[..k])|
    ensures j == k
  {
    if j < k { PrefixLonger(pub, j, k); }
    if k < j { PrefixLonger(pub, k, j); }
  }

  // ---- Batches ----

  lemma {:induction false} ShownIsDelivered(cfg: Config, ds: seq<Delivery>)
    requires Truthful(cfg, ds) && DecodableStream(cfg, Found(ds)) && NoOther(Found(ds))
    ensures Shown(ds) == Deliver(cfg, Found(ds))
  {
    hide Deliver, Decodable;
    if ds != [] {
      var n := |ds| - 1;
      assert forall r <- Found(ds[..n]) :: r in Found(ds);
      assert forall r <- ds[n].batch :: r in Found(ds);
      ShownIsDelivered(cfg, ds[..n]);
      assert ds[n] in ds;
      DeliverAppend(cfg, Found(ds[..n]), ds[n].batch);
    } else {
      assert Deliver(cfg, []) == [] by { DeliverAll(cfg, []); }
    }
  }

  lemma DeliverViews(cfg: Config, rs: seq<Record>)
    requires NoOther(rs)
    ensures Deliver(cfg, rs) == Views(cfg, rs)
  {
    hide View, Deliver;
    DeliverAll(cfg, rs);
  }

  /** Whatever the kernel has written: in every reachable state the log of a ring is the
      reports of its deliveries, what they found is, in order and without gap or overlap, the
      records published up to the log's position, and a delivery that found only records the
      decoder can walk over is reported in full, whatever the others found. */
  lemma DeliveredInBatches(cfg: Config, s: System, i: nat)
    requires Reachable(cfg, s) && Shaped(s) && i < |s.m.rings|
    ensures var ds := s.hist.delivered[i];
            && Project(s.m.log, i) == Shown(ds)
            && Found(ds) <= s.hist.published[i]
            && |EncodeAll(Found(ds))| == Position(s, i)
            && forall d <- ds :: DecodableStream(cfg, d.batch) ==> d.report == Deliver(cfg, d.batch)
  {
    hide Run, Project, Shown, Found, EncodeAll, DecodableStream, Deliver;
    ReachableInv(cfg, s);
    assert CoreOk(cfg, s, i);
  }

  /** What is asked of the records on a ring for its log to be complete. */
  predicate Walkable(cfg: Config, pub: seq<Record>) {
    DecodableStream(cfg, pub) && NoOther(pub)
  }

  /** Exactly once, in order: if the decoder can walk over the records on a ring, then in
      every reachable state its log is the records published below its position, whatever
      happens on the other rings. */
  lemma ExactlyOnce(cfg: Config, s: System, i: nat) returns (k: nat)
    requires Reachable(cfg, s) && Shaped(s) && i < |s.m.rings|
    requires Walkable(cfg, s.hist.published[i])
    ensures k <= |s.hist.published[i]| && |EncodeAll(s.hist.published[i][..k])| == Position(s, i)
    ensures forall j :: 0 <= j <= |s.hist.published[i]| && |EncodeAll(s.hist.published[i][..j])| == Position(s, i) ==>
              Project(s.m.log, i) == Views(cfg, s.hist.published[i][..j])
  {
    hide Reachable, Project, Shown, Found, EncodeAll, Deliver, View, Decodable;
    DeliveredInBatches(cfg, s, i);
    var pub, ds := s.hist.published[i], s.hist.delivered[i];
    k := |Found(ds)|;
    assert pub[..k] == Found(ds);
    assert forall r <- Found(ds) :: r in pub;
    ShownIsDelivered(cfg, ds);
    DeliverViews(cfg, Found(ds));
    forall j | 0 <= j <= |pub| && |EncodeAll(pub[..j])| == Position(s, i)
      ensures Project(s.m.log, i) == Views(cfg, pub[..j])
    {
      BoundaryUnique(pub, j, k);
    }
  }

  lemma ViewsVerbatim(cfg: Config, rs: seq<Record>)
    requires DecodableStream(cfg, rs) && VerbatimStream(cfg, rs)
    ensures Views(cfg, rs) == rs
  {
    hide View, Verbatim, Decodable;
    forall k | 0 <= k < |rs| ensures Views(cfg, rs)[k] == rs[k] {
      assert rs[k] in rs;
      ViewExact(cfg, rs[k]);
    }
  }

  /** Where the records are Verbatim the log of a ring is the published stream itself,
      record by record and field by field, up to its position. */
  lemma LogIsStream(cfg: Config, s: System, i: nat) returns (k: nat)
    requires Reachable(cfg, s) && Shaped(s) && i < |s.m.rings|
    requires DecodableStream(cfg, s.hist.published[i]) && VerbatimStream(cfg, s.hist.published[i])
    ensures k <= |s.hist.published[i]| && |EncodeAll(s.hist.published[i][..k])| == Position(s, i)
    ensures Project(s.m.log, i) == s.hist.published[i][..k]
  {
    hide Reachable, Project, EncodeAll, View, Decodable, Verbatim;
    k := ExactlyOnce(cfg, s, i);
    var rs := s.hist.published[i][..k];
    assert forall r <- rs :: r in s.hist.published[i];
    ViewsVerbatim(cfg, rs);
  }

  /** The same under the conditions on configuration and kernel: fields in OrderMask, names
      without a trailer after them, and any trailer that suits the case that reads it. */
  lemma HeaderLogIsStream(cfg: Config, s: System, i: nat) returns (k: nat)
    requires Reachable(cfg, s) && Shaped(s) && i < |s.m.rings|
    requires forall r <- s.hist.published[i] ::
               && HeaderRecord(cfg, r) && !r.body.Other?
               && (r.body.Sample? ==> OrderMask(cfg))
               && (!r.body.Sample? ==> TrailerFits(r))
               && (AbsorbsTrailer(r.body) ==> r.sampleId == [])
    ensures k <= |s.hist.published[i]| && |EncodeAll(s.hist.published[i][..k])| == Position(s, i)
    ensures Project(s.m.log, i) == s.hist.published[i][..k]
  {
    hide Reachable, Project, EncodeAll, View, Decodable, Verbatim, HeaderRecord, OrderMask, SyncMask;
    forall r | r in s.hist.published[i] ensures Decodable(cfg, r) && Verbatim(cfg, r) {
      if r.body.Sample? { OrderImpliesSync(cfg); }
      HeaderDecodable(cfg, r);
      HeaderVerbatim(cfg, r);
    }
    k := LogIsStream(cfg, s, i);
  }

  function PrintedAll(rs: seq<Record>): (ps: seq<Record>)
    ensures |ps| == |rs|
  {
    seq(|rs|, k requires 0 <= k < |rs| => Printed(rs[k]))
  }

  lemma ViewsPrinted(cfg: Config, rs: seq<Record>)
    requires DecodableStream(cfg, rs) && forall r <- rs :: Legible(cfg, r)
    ensures PrintedAll(Views(cfg, rs)) == PrintedAll(rs)
  {
    hide View, Legible, Decodable, Printed;
    forall k | 0 <= k < |rs| ensures PrintedAll(Views(cfg, rs))[k] == PrintedAll(rs)[k] {
      assert rs[k] in rs;
      ViewPrinted(cfg, rs[k]);
    }
  }

  /** With trailers or without: what is printed of the log is what would be printed of the
      published records, as long as their names are NUL-terminated. */
  lemma LogPrintsStream(cfg: Config, s: System, i: nat) returns (k: nat)
    requires Reachable(cfg, s) && Shaped(s) && i < |s.m.rings|
    requires Walkable(cfg, s.hist.published[i]) && forall r <- s.hist.published[i] :: Legible(cfg, r)
    ensures k <= |s.hist.published[i]| && |EncodeAll(s.hist.published[i][..k])| == Position(s, i)
    ensures PrintedAll(Project(s.m.log, i)) == PrintedAll(s.hist.published[i][..k])
  {
    hide Reachable, Project, EncodeAll, View, Decodable, Legible, Printed;
    k := ExactlyOnce(cfg, s, i);
    var rs := s.hist.published[i][..k];
    assert forall r <- rs :: r in s.hist.published[i];
    ViewsPrinted(cfg, rs);
  }

  /** Once the log has reached the kernel's head it shows everything published. */
  lemma CaughtUp(cfg: Config, s: System, i: nat)
    requires Reachable(cfg, s) && Shaped(s) && i < |s.m.rings|
    requires Walkable(cfg, s.hist.published[i]) && Position(s, i) == s.m.rings[i].head
    ensures Project(s.m.log, i) == Views(cfg, s.hist.published[i])
  {
    hide Project, View, EncodeAll, Run, Found, Holds, Shown, Truthful;
    var pub := s.hist.published[i];
    ReachableInv(cfg, s);
    assert CoreOk(cfg, s, i);
    assert pub[..|pub|] == pub;
    var k := ExactlyOnce(cfg, s, i);
    assert |EncodeAll(pub[..|pub|])| == Position(s, i);
  }

  /** How the stream was cut into handler runs does not show in the log. */
  lemma BatchingIndependence(cfg: Config, s: System, t: System, i: nat, j: nat)
    requires Reachable(cfg, s) && Shaped(s) && i < |s.m.rings|
    requires Reachable(cfg, t) && Shaped(t) && j < |t.m.rings|
    requires s.hist.published[i] == t.hist.published[j] && Walkable(cfg, s.hist.published[i])
    requires Position(s, i) == Position(t, j)
    ensures Project(s.m.log, i) == Project(t.m.log, j)
  {
    hide Reachable, Project, EncodeAll, View;
    var k := ExactlyOnce(cfg, s, i);
    var l := ExactlyOnce(cfg, t, j);
  }

  /** Between handler runs: table and tail agree, they are on a record boundary, the unread
      part fits the ring, so `head - prev_head` survives the conversion to `int` and the
      overflow message is not printed. */
  lemma WindowInvariant(cfg: Config, s: System, i: nat)
    requires Reachable(cfg, s) && Shaped(s) && i < |s.m.rings| && s.phase.Idle?
    ensures var ring := s.m.rings[i]; var prev := s.m.prev[i]; var pub := s.hist.published[i];
            && prev == ring.tail
            && 0 <= ring.head - prev <= |ring.buf|
            && ToInt32(ring.head - prev) == ring.head - prev
            && (exists k :: 0 <= k <= |pub| && prev == |EncodeAll(pub[..k])|)
  {
    hide Run, Project, Shown, Found, EncodeAll, Holds, Truthful;
    ReachableInv(cfg, s);
    assert CoreOk(cfg, s, i);
    DeliveredBelowHead(cfg, s, i);
    var pub, done := s.hist.published[i], Found(s.hist.delivered[i]);
    assert pub[..|done|] == done;
  }
}
