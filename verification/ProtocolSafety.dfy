/** What every run keeps. */
module ProtocolSafety {
  import opened Bytes
  import opened Layout
  import opened Records
  import opened Batch
  import opened RingWindow
  import opened Protocol

  const INT_LIMIT := 0x8000_0000

  /** A batch that the decoder can walk over has been reported as Deliver says, whatever
      else has been found on the ring. */
  ghost predicate Truthful(cfg: Config, ds: seq<Delivery>) {
    forall d <- ds :: DecodableStream(cfg, d.batch) ==> d.report == Deliver(cfg, d.batch)
  }

  /** One ring: the buffer holds the unread part of what was published, a prefix of which
      has been delivered up to stream position `position`, and the log shows the reports. */
  ghost predicate RingOk(cfg: Config, ring: Ring, pub: seq<Record>, del: seq<Delivery>,
                         position: nat, tail: nat, shown: seq<Record>) {
    && |ring.buf| < INT_LIMIT
    && Window(ring, EncodeAll(pub))
    && ring.tail == tail
    && Found(del) <= pub
    && |EncodeAll(Found(del))| == position
    && shown == Shown(del)
    && Truthful(cfg, del)
  }

  /** Stream position up to which the log is complete. */
  function Position(s: System, i: nat): nat
    requires Shaped(s) && i < |s.m.rings|
  {
    if (s.phase.Parsed? || s.phase.Stored?) && s.phase.core == i then s.phase.head else s.m.prev[i]
  }

  function TailOf(s: System, i: nat): nat
    requires Shaped(s) && i < |s.m.rings|
  {
    if s.phase.Stored? && s.phase.core == i then s.phase.head else s.m.prev[i]
  }

  ghost predicate CoreOk(cfg: Config, s: System, i: nat)
    requires Shaped(s) && i < |s.m.rings|
  {
    RingOk(cfg, s.m.rings[i], s.hist.published[i], s.hist.delivered[i], Position(s, i), TailOf(s, i),
           Project(s.m.log, i))
  }

  /** The head that was loaded is where `upto` records end. */
  predicate LoadOk(h: History, i: nat, head: nat)
    requires i < |h.published| && i < |h.delivered|
  {
    && |Found(h.delivered[i])| <= h.upto <= |h.published[i]|
    && |EncodeAll(h.published[i][..h.upto])| == head
  }

  ghost predicate PhaseOk(cfg: Config, s: System)
    requires Shaped(s)
  {
    match s.phase
    case Idle => true
    case Loaded(i, head) => LoadOk(s.hist, i, head)
    case HighCopied(i, head) =>
      && LoadOk(s.hist, i, head)
      && var b := EncodeAll(Pending(s.hist, i)); var n := |s.m.rings[i].buf|;
         forall k :: 0 <= k < |b| && k < n - s.m.prev[i] % n ==> s.m.scratch[k] == b[k]
    case LowCopied(i, head) =>
      LoadOk(s.hist, i, head) && At(s.m.scratch, 0, EncodeAll(Pending(s.hist, i)))
    case Parsed(i, head) => |Found(s.hist.delivered[i])| == s.hist.upto && s.m.prev[i] <= head
    case Stored(i, _) => |Found(s.hist.delivered[i])| == s.hist.upto
    case Crashed(i) => !DecodableStream(cfg, s.hist.published[i])
  }

  ghost predicate Inv(cfg: Config, s: System) {
    && Shaped(s)
    && (forall i :: 0 <= i < |s.m.rings| ==> CoreOk(cfg, s, i))
    && PhaseOk(cfg, s)
  }

  // ---- Log projection ----

  lemma {:induction false} ProjectAppend(log: seq<Line>, ls: seq<Line>, i: nat)
    ensures Project(log + ls, i) == Project(log, i) + Project(ls, i)
    decreases |ls|
  {
    if ls == [] {
      assert log + ls == log;
    } else {
      var n := |ls| - 1;
      assert (log + ls)[..|log| + n] == log + ls[..n];
      ProjectAppend(log, ls[..n], i);
    }
  }

  lemma ProjectSnoc(log: seq<Line>, line: Line, j: nat)
    ensures Project(log + [line], j) == Project(log, j) + if line.core == j then [line.entry] else []
  {
    assert (log + [line])[..|log|] == log;
  }

  lemma {:induction false} ProjectTag(i: nat, rs: seq<Record>, j: nat)
    ensures Project(Tag(i, rs), j) == if i == j then rs else []
    decreases |rs|
  {
    if rs != [] {
      var n := |rs| - 1;
      assert Tag(i, rs) == Tag(i, rs[..n]) + [Line(i, rs[n])];
      assert rs == rs[..n] + [rs[n]];
      hide Project, Tag;
      ProjectTag(i, rs[..n], j);
      ProjectSnoc(Tag(i, rs[..n]), Line(i, rs[n]), j);
    }
  }

  // ---- The bytes of the batch under way ----

  /** Where the pending batch lies in the stream. */
  lemma PendingInStream(cfg: Config, s: System, i: nat, head: nat)
    requires Shaped(s) && i < |s.m.rings| && CoreOk(cfg, s, i)
    requires LoadOk(s.hist, i, head) && Position(s, i) == s.m.prev[i] && TailOf(s, i) == s.m.prev[i]
    ensures var b := EncodeAll(Pending(s.hist, i)); var p := s.m.prev[i];
            var stream := EncodeAll(s.hist.published[i]);
            && p + |b| == head <= s.m.rings[i].head == |stream|
            && |b| <= |s.m.rings[i].buf|
            && b == stream[p..head]
  {
    hide Encode, Truthful, Project, Shown, Holds;
    var pub, done := s.hist.published[i], Found(s.hist.delivered[i]);
    var batch, rest := Pending(s.hist, i), pub[s.hist.upto..];
    assert pub[..s.hist.upto] == done + batch;
    assert pub == done + batch + rest;
    EncodeAllAppend(done, batch);
    EncodeAllAppend(done + batch, rest);
  }

  /** A byte of the unread part, read through the copy. */
  lemma UnreadByte(ring: Ring, stream: seq<byte>, prev: nat, k: nat)
    requires Window(ring, stream) && ring.tail <= prev && k < |ring.buf| && prev + k < ring.head
    ensures Unwrap(ring.buf, prev)[k] == stream[prev + k]
  {
    UnwrapIndex(ring.buf, prev, k);
    assert stream[prev + k] == ring.buf[(prev + k) % |ring.buf|];
  }

  // ---- Every step keeps the invariant ----

  /** Publishing adds to the stream and disturbs nothing already there. */
  lemma PublishRing(cfg: Config, ring: Ring, pub: seq<Record>, del: seq<Delivery>,
                    position: nat, tail: nat, shown: seq<Record>, r: Record)
    requires RingOk(cfg, ring, pub, del, position, tail, shown)
    requires Fits(ring, Encode(r))
    ensures RingOk(cfg, Append(ring, Encode(r)), pub + [r], del, position, tail, shown)
  {
    hide Encode, Truthful, Holds, Shown;
    AppendKeepsWindow(ring, EncodeAll(pub), Encode(r));
    EncodeAllSnoc(pub, r);
  }

  lemma EncodeAllSnoc(pub: seq<Record>, r: Record)
    ensures EncodeAll(pub + [r]) == EncodeAll(pub) + Encode(r)
  {
    hide Encode;
    EncodeAllAppend(pub, [r]);
    assert [r][0] == r && [r][1..] == [];
    assert Encode(r) + [] == Encode(r);
  }

  lemma PendingStable(h: History, h': History, i: nat)
    requires i < |h.published| && i < |h.delivered| && i < |h'.published| && i < |h'.delivered|
    requires h'.delivered[i] == h.delivered[i] && h'.upto == h.upto
    requires h.upto <= |h.published[i]| && h.published[i] <= h'.published[i]
    ensures Pending(h', i) == Pending(h, i)
    ensures h'.published[i][..h.upto] == h.published[i][..h.upto]
  {
  }

  lemma StillMisfit(cfg: Config, pub: seq<Record>, r: Record)
    ensures DecodableStream(cfg, pub + [r]) ==> DecodableStream(cfg, pub)
  {
    hide Decodable;
    if DecodableStream(cfg, pub + [r]) {
      forall x | x in pub ensures Decodable(cfg, x) { assert x in pub + [r]; }
    }
  }

  lemma PublishKeeps(cfg: Config, s: System, i: nat, r: Record)
    requires Inv(cfg, s)
    ensures Inv(cfg, PublishStep(s, i, r))
  {
    hide Encode, EncodeAll, DecodableStream, RingOk, Found, Project, Append, Fits;
    var t := PublishStep(s, i, r);
    StepShaped(cfg, s, Publish(i, r));
    if t != s {
      forall j | 0 <= j < |t.m.rings| ensures CoreOk(cfg, t, j) {
        assert CoreOk(cfg, s, j);
        if j == i {
          PublishRing(cfg, s.m.rings[i], s.hist.published[i], s.hist.delivered[i], Position(s, i),
                      TailOf(s, i), Project(s.m.log, i), r);
        }
      }
      if s.phase.Loaded? || s.phase.HighCopied? || s.phase.LowCopied? {
        PendingStable(s.hist, t.hist, s.phase.core);
      }
      if s.phase.Crashed? {
        StillMisfit(cfg, s.hist.published[i], r);
      }
    }
  }

  lemma SignalKeeps(cfg: Config, s: System, i: nat)
    requires Inv(cfg, s)
    ensures Inv(cfg, SignalStep(s, i))
  {
    hide Encode, EncodeAll, Truthful, Shown, Found, Project, Holds;
    var t := SignalStep(s, i);
    forall j | 0 <= j < |t.m.rings| ensures CoreOk(cfg, t, j) {
      assert CoreOk(cfg, s, j);
    }
    if t != s {
      assert s.hist.published[i][..t.hist.upto] == s.hist.published[i];
      assert CoreOk(cfg, s, i);
    }
  }

  lemma CopyHighKeeps(cfg: Config, s: System)
    requires Inv(cfg, s)
    ensures Inv(cfg, CopyHighStep(s))
  {
    hide EncodeAll, Truthful, Shown, Found, Project, Holds, Pending;
    var t := CopyHighStep(s);
    forall j | 0 <= j < |t.m.rings| ensures CoreOk(cfg, t, j) {
      assert CoreOk(cfg, s, j);
    }
    if s.phase.Loaded? {
      var i := s.phase.core;
      var ring, prev := s.m.rings[i], s.m.prev[i];
      PendingInStream(cfg, s, i, s.phase.head);
      var b := EncodeAll(Pending(s.hist, i));
      forall k | 0 <= k < |b| && k < |ring.buf| - prev % |ring.buf| ensures t.m.scratch[k] == b[k] {
        UnreadByte(ring, EncodeAll(s.hist.published[i]), prev, k);
        assert t.m.scratch[k] == Unwrap(ring.buf, prev)[k];
      }
    }
  }

  lemma CopyLowKeeps(cfg: Config, s: System)
    requires Inv(cfg, s)
    ensures Inv(cfg, CopyLowStep(s))
  {
    hide EncodeAll, Truthful, Shown, Found, Project, Holds, Pending;
    var t := CopyLowStep(s);
    forall j | 0 <= j < |t.m.rings| ensures CoreOk(cfg, t, j) {
      assert CoreOk(cfg, s, j);
    }
    if s.phase.HighCopied? {
      var i := s.phase.core;
      var ring, prev := s.m.rings[i], s.m.prev[i];
      PendingInStream(cfg, s, i, s.phase.head);
      var b := EncodeAll(Pending(s.hist, i));
      forall k | 0 <= k < |b| ensures t.m.scratch[k] == b[k] {
        UnreadByte(ring, EncodeAll(s.hist.published[i]), prev, k);
      }
      assert t.m.scratch[0..|b|] == b;
    }
  }

  /** The parse reports the pending batch, if the decoder can walk over it. */
  lemma ParseReports(cfg: Config, s: System)
    requires Inv(cfg, s) && s.phase.LowCopied?
    requires DecodableStream(cfg, Pending(s.hist, s.phase.core))
    ensures var i := s.phase.core;
            DecodeBatch(cfg, s.m.scratch, 0, ToInt32(s.phase.head - s.m.prev[i])) ==
            Ok(Deliver(cfg, Pending(s.hist, i)))
  {
    hide EncodeAll, DecodableStream, Shown, Found, Project, Holds, Pending, DecodeBatch, Deliver, Truthful;
    var i := s.phase.core;
    assert CoreOk(cfg, s, i);
    PendingInStream(cfg, s, i, s.phase.head);
    BatchDelivered(cfg, Pending(s.hist, i), s.m.scratch, 0);
  }

  lemma PendingDecodable(cfg: Config, h: History, i: nat)
    requires i < |h.published| && i < |h.delivered| && DecodableStream(cfg, h.published[i])
    ensures DecodableStream(cfg, Pending(h, i))
  {
    hide Decodable;
  }

  lemma TruthfulSnoc(cfg: Config, del: seq<Delivery>, d: Delivery)
    requires Truthful(cfg, del) && (DecodableStream(cfg, d.batch) ==> d.report == Deliver(cfg, d.batch))
    ensures Truthful(cfg, del + [d])
  {
    hide DecodableStream, Deliver;
  }

  lemma DeliverySnoc(del: seq<Delivery>, d: Delivery)
    ensures Found(del + [d]) == Found(del) + d.batch
    ensures Shown(del + [d]) == Shown(del) + d.report
  {
    assert (del + [d])[..|del|] == del;
  }

  lemma ParseRing(cfg: Config, ring: Ring, pub: seq<Record>, del: seq<Delivery>, position: nat, tail: nat,
                  shown: seq<Record>, d: Delivery, head: nat)
    requires RingOk(cfg, ring, pub, del, position, tail, shown)
    requires Found(del) + d.batch <= pub && |EncodeAll(Found(del) + d.batch)| == head
    requires DecodableStream(cfg, d.batch) ==> d.report == Deliver(cfg, d.batch)
    ensures RingOk(cfg, ring, pub, del + [d], head, tail, shown + d.report)
  {
    hide Deliver, Holds, DecodableStream, EncodeAll, Found, Shown, Truthful;
    DeliverySnoc(del, d);
    TruthfulSnoc(cfg, del, d);
  }

  lemma ParseKeeps(cfg: Config, s: System)
    requires Inv(cfg, s)
    ensures Inv(cfg, ParseStep(cfg, s))
  {
    hide EncodeAll, RingOk, Project, DecodeBatch, Deliver, Found, DecodableStream;
    if s.phase.LowCopied? {
      var i, head := s.phase.core, s.phase.head;
      var t := ParseStep(cfg, s);
      var lines := DecodeBatch(cfg, s.m.scratch, 0, ToInt32(s.phase.head - s.m.prev[i]));
      if DecodableStream(cfg, Pending(s.hist, i)) {
        ParseReports(cfg, s);
      } else if DecodableStream(cfg, s.hist.published[i]) {
        PendingDecodable(cfg, s.hist, i);
      }
      if lines.Fault? {
        forall j | 0 <= j < |t.m.rings| ensures CoreOk(cfg, t, j) { assert CoreOk(cfg, s, j); }
      } else {
        ParsedKeeps(cfg, s, lines.value);
      }
    }
  }

  lemma ParsedKeeps(cfg: Config, s: System, lines: seq<Record>)
    requires Inv(cfg, s) && s.phase.LowCopied?
    requires DecodeBatch(cfg, s.m.scratch, 0, ToInt32(s.phase.head - s.m.prev[s.phase.core])) == Ok(lines)
    requires var batch := Pending(s.hist, s.phase.core);
             DecodableStream(cfg, batch) ==> lines == Deliver(cfg, batch)
    ensures Inv(cfg, ParseStep(cfg, s))
  {
    hide EncodeAll, RingOk, Project, DecodeBatch, Deliver, Found, DecodableStream;
    var i, head := s.phase.core, s.phase.head;
    var t := ParseStep(cfg, s);
    var d := Delivery(Pending(s.hist, i), lines);
    assert CoreOk(cfg, s, i);
    DeliveredPrefix(cfg, s, i);
    forall j | 0 <= j < |t.m.rings| ensures CoreOk(cfg, t, j) {
      assert CoreOk(cfg, s, j);
      ProjectAppend(s.m.log, Tag(i, lines), j);
      ProjectTag(i, lines, j);
      if j == i {
        ParseRing(cfg, s.m.rings[i], s.hist.published[i], s.hist.delivered[i], s.m.prev[i], s.m.prev[i],
                  Project(s.m.log, i), d, head);
      } else {
        assert Project(t.m.log, j) == Project(s.m.log, j);
      }
    }
    PendingInStream(cfg, s, i, head);
    DeliverySnoc(s.hist.delivered[i], d);
  }

  lemma DeliveredPrefix(cfg: Config, s: System, i: nat)
    requires Shaped(s) && i < |s.m.rings| && CoreOk(cfg, s, i)
    requires |Found(s.hist.delivered[i])| <= s.hist.upto <= |s.hist.published[i]|
    ensures Found(s.hist.delivered[i]) + Pending(s.hist, i) == s.hist.published[i][..s.hist.upto]
  {
    hide EncodeAll, Truthful, Shown, Found, Project, Holds;
  }

  lemma StoreTailKeeps(cfg: Config, s: System)
    requires Inv(cfg, s)
    ensures Inv(cfg, StoreTailStep(s))
  {
    hide EncodeAll, Truthful, Shown, Project, Holds, Zeros;
    var t := StoreTailStep(s);
    forall j | 0 <= j < |t.m.rings| ensures CoreOk(cfg, t, j) {
      assert CoreOk(cfg, s, j);
      if s.phase.Parsed? && s.phase.core == j {
        DeliveredBelowHead(cfg, s, j);
      }
    }
  }

  /** What has been delivered ends at or before the published head. */
  lemma DeliveredBelowHead(cfg: Config, s: System, i: nat)
    requires Shaped(s) && i < |s.m.rings| && CoreOk(cfg, s, i)
    ensures Position(s, i) <= s.m.rings[i].head
  {
    hide Encode, Truthful, Shown, Project, Holds, Found;
    var pub, done := s.hist.published[i], Found(s.hist.delivered[i]);
    assert pub == done + pub[|done|..];
    EncodeAllAppend(done, pub[|done|..]);
  }

  lemma SavePrevKeeps(cfg: Config, s: System)
    requires Inv(cfg, s)
    ensures Inv(cfg, SavePrevStep(s))
  {
    hide RingOk, EncodeAll, Project;
    var t := SavePrevStep(s);
    forall j | 0 <= j < |t.m.rings| ensures CoreOk(cfg, t, j) {
      assert CoreOk(cfg, s, j);
    }
  }

  lemma StepKeeps(cfg: Config, s: System, e: Event)
    requires Inv(cfg, s)
    ensures Inv(cfg, Step(cfg, s, e))
  {
    hide Inv;
    match e
    case Publish(i, r) => PublishKeeps(cfg, s, i, r);
    case Signal(i) => SignalKeeps(cfg, s, i);
    case CopyHigh => CopyHighKeeps(cfg, s);
    case CopyLow => CopyLowKeeps(cfg, s);
    case Parse => ParseKeeps(cfg, s);
    case StoreTail => StoreTailKeeps(cfg, s);
    case SavePrev => SavePrevKeeps(cfg, s);
  }

  lemma {:induction false} RunKeeps(cfg: Config, s: System, es: seq<Event>)
    requires Inv(cfg, s)
    ensures Inv(cfg, Run(cfg, s, es))
    decreases |es|
  {
    hide CoreOk, PhaseOk;
    if es != [] {
      StepKeeps(cfg, s, es[0]);
      RunKeeps(cfg, Step(cfg, s, es[0]), es[1..]);
    }
  }
}
