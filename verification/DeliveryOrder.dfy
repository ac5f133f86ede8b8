// Per-topic delivery order over whole sessions of publishes and flushes: exactly when every
// topic's messages are delivered in the order they were offered.
module DeliveryOrder {
  import opened Common
  import opened OfflineQueue
  import opened OfflineQueueFacts

  const FRESH_QUEUE := FlushResult([], [])

  function OfTopic(q: seq<Entry>, topic: string): seq<Entry>
    decreases |q|
  {
    if q == [] then []
    else
      var rest := OfTopic(q[..|q| - 1], topic);
      if q[|q| - 1].topic == topic then rest + [q[|q| - 1]] else rest
  }

  // a can be read off b from left to right, skipping.
  ghost predicate Subsequence(a: seq<Entry>, b: seq<Entry>)
    decreases |b|
  {
    || a == []
    || (b != [] && a[|a| - 1] == b[|b| - 1] && Subsequence(a[..|a| - 1], b[..|b| - 1]))
    || (b != [] && Subsequence(a, b[..|b| - 1]))
  }

  function Offer(op: Op): seq<Entry> { if op.Publish? then [op.entry] else [] }

  // Everything offered for publishing, in order.
  function Offers(ops: seq<Op>): seq<Entry>
    decreases |ops|
  {
    if ops == [] then [] else Offer(ops[0]) + Offers(ops[1..])
  }

  // Every topic's deliveries follow the order its messages were offered.
  ghost predicate InOrder(ops: seq<Op>, limit: positive) {
    forall topic :: Subsequence(OfTopic(SessionRun(FRESH_QUEUE, ops, limit).sent, topic), OfTopic(Offers(ops), topic))
  }

  // A direct publish that meets its own topic pending.
  predicate Overtakes(s: FlushResult, op: Op) {
    op.Publish? && op.attempt == Sends && Holds(s.pending, op.entry.topic)
  }

  ghost predicate NoOvertake(ops: seq<Op>, limit: positive) {
    forall k :: 0 <= k < |ops| ==> !Overtakes(SessionRun(FRESH_QUEUE, ops[..k], limit), ops[k])
  }

  // ---- topics ----

  lemma {:induction false} OfTopicConcat(a: seq<Entry>, b: seq<Entry>, topic: string)
    ensures OfTopic(a + b, topic) == OfTopic(a, topic) + OfTopic(b, topic)
    decreases |b|
  {
    if b == [] {
      assert a + b == a;
    } else {
      assert (a + b)[..|a + b| - 1] == a + b[..|b| - 1];
      OfTopicConcat(a, b[..|b| - 1], topic);
    }
  }

  lemma OfTopicOne(e: Entry, topic: string)
    ensures OfTopic([e], topic) == if e.topic == topic then [e] else []
  {
    assert [e][..0] == [];
  }

  lemma {:induction false} OfTopicMeaning(q: seq<Entry>, topic: string)
    ensures forall e :: e in OfTopic(q, topic) <==> e in q && e.topic == topic
    ensures OfTopic(q, topic) != [] <==> Holds(q, topic)
    ensures Distinct(q) ==> |OfTopic(q, topic)| <= 1
    decreases |q|
  {
    if q != [] {
      var front, last := q[..|q| - 1], q[|q| - 1];
      assert q == front + [last];
      OfTopicMeaning(front, topic);
      HoldsAppend(front, last, topic);
      if Distinct(q) && last.topic == topic { assert !Holds(front, topic); }
    }
  }

  lemma {:induction false} OfTopicWithout(q: seq<Entry>, topic: string, other: string)
    ensures OfTopic(Without(q, topic), other) == if other == topic then [] else OfTopic(q, other)
    decreases |q|
  {
    if q != [] {
      OfTopicWithout(q[..|q| - 1], topic, other);
      OfTopicConcat(Without(q[..|q| - 1], topic), [q[|q| - 1]], other);
      OfTopicOne(q[|q| - 1], other);
    }
  }

  lemma AtMostOne(a: seq<Entry>, b: seq<Entry>, all: seq<Entry>)
    requires a + b == all && |all| <= 1
    ensures b == all || b == []
  {}

  // An enqueue leaves its own entry for its topic; any other topic's stays or is evicted.
  lemma OfTopicEnqueued(q: seq<Entry>, e: Entry, limit: positive, topic: string)
    requires Distinct(q)
    ensures var r := OfTopic(Enqueued(q, e, limit), topic);
            if topic == e.topic then r == [e] else r == OfTopic(q, topic) || r == []
  {
    hide OfTopic, Without, Distinct;
    var all := Without(q, e.topic) + [e];
    OfTopicConcat(Without(q, e.topic), [e], topic);
    OfTopicOne(e, topic);
    OfTopicWithout(q, e.topic, topic);
    OfTopicMeaning(q, topic);
    assert OfTopic(q, topic) + [] == OfTopic(q, topic);
    if |all| > limit {
      var early, late := all[..|all| - limit], all[|all| - limit..];
      assert all == early + late;
      OfTopicConcat(early, late, topic);
      if topic == e.topic {
        assert late == late[..|late| - 1] + [e];
        OfTopicConcat(late[..|late| - 1], [e], topic);
      } else {
        AtMostOne(OfTopic(early, topic), OfTopic(late, topic), OfTopic(q, topic));
      }
    }
  }

  // Nothing about a topic that is held at most once changes when its entry moves.
  lemma OfTopicDrained(q: seq<Entry>, sent: seq<Entry>, k: nat, refused: bool, topic: string)
    requires Distinct(q) && k <= |q| && (refused ==> k < |q|)
    ensures var r := Drained(q, sent, k, refused);
            OfTopic(r.sent, topic) + OfTopic(r.pending, topic) == OfTopic(sent, topic) + OfTopic(q, topic)
  {
    hide OfTopic, Distinct;
    assert q == q[..k] + q[k..];
    OfTopicConcat(q[..k], q[k..], topic);
    OfTopicConcat(sent, q[..k], topic);
    if refused {
      assert q[k..] == [q[k]] + q[k + 1..];
      OfTopicConcat([q[k]], q[k + 1..], topic);
      OfTopicConcat(q[k + 1..], [q[k]], topic);
      OfTopicMeaning(q, topic);
    }
  }

  // ---- subsequences ----

  lemma SubsequenceGrows(a: seq<Entry>, b: seq<Entry>, x: Entry)
    requires Subsequence(a, b)
    ensures Subsequence(a, b + [x]) && Subsequence(a + [x], b + [x])
  {
    assert (b + [x])[..|b|] == b && (a + [x])[..|a|] == a;
  }

  lemma {:induction false} SubsequenceShrinks(a: seq<Entry>, x: Entry, b: seq<Entry>)
    requires Subsequence(a + [x], b)
    ensures Subsequence(a, b)
    decreases |b|
  {
    assert (a + [x])[..|a|] == a;
    if b != [] && Subsequence(a + [x], b[..|b| - 1]) { SubsequenceShrinks(a, x, b[..|b| - 1]); }
  }

  lemma {:induction false} SubsequenceElements(a: seq<Entry>, b: seq<Entry>, e: Entry)
    requires Subsequence(a, b) && e in a
    ensures e in b
    decreases |b|
  {
    var front := b[..|b| - 1];
    if Subsequence(a, front) {
      SubsequenceElements(a, front, e);
    } else if e != a[|a| - 1] {
      assert a == a[..|a| - 1] + [a[|a| - 1]];
      SubsequenceElements(a[..|a| - 1], front, e);
    }
  }

  // ---- sessions ----

  lemma {:induction false} RunAppend(s: FlushResult, ops: seq<Op>, op: Op, limit: positive)
    ensures SessionRun(s, ops + [op], limit) == OpApplied(SessionRun(s, ops, limit), op, limit)
    decreases |ops|
  {
    hide OpApplied;
    if ops == [] {
      assert ops + [op] == [op] && [op][1..] == [];
      assert SessionRun(s, [op], limit) == SessionRun(OpApplied(s, op, limit), [], limit);
    } else {
      assert (ops + [op])[1..] == ops[1..] + [op];
      RunAppend(OpApplied(s, ops[0], limit), ops[1..], op, limit);
    }
  }

  lemma {:induction false} OffersAppend(ops: seq<Op>, op: Op)
    ensures Offers(ops + [op]) == Offers(ops) + Offer(op)
    decreases |ops|
  {
    hide Offer;
    if ops == [] {
      assert ops + [op] == [op] && [op][1..] == [];
      assert Offers([op]) == Offer(op) + Offers([]);
    } else {
      assert (ops + [op])[1..] == ops[1..] + [op];
      OffersAppend(ops[1..], op);
    }
  }

  lemma {:induction false} OffersAreOffered(ops: seq<Op>)
    ensures multiset(Offers(ops)) == Offered(ops)
    decreases |ops|
  {
    if ops != [] { OffersAreOffered(ops[1..]); }
  }

  // Delivered and then pending, each topic follows its offers.
  ghost predicate Lined(s: FlushResult, offers: seq<Entry>, topic: string) {
    Subsequence(OfTopic(s.sent, topic) + OfTopic(s.pending, topic), OfTopic(offers, topic))
  }

  lemma LinedDelivers(s: FlushResult, offers: seq<Entry>, topic: string)
    requires Distinct(s.pending) && Lined(s, offers, topic)
    ensures Subsequence(OfTopic(s.sent, topic), OfTopic(offers, topic))
  {
    hide OfTopic, Distinct, Subsequence;
    OfTopicMeaning(s.pending, topic);
    var waiting := OfTopic(s.pending, topic);
    if waiting == [] {
      assert OfTopic(s.sent, topic) + waiting == OfTopic(s.sent, topic);
    } else {
      assert waiting == [waiting[0]];
      SubsequenceShrinks(OfTopic(s.sent, topic), waiting[0], OfTopic(offers, topic));
    }
  }

  // Lines after one more offer of the same topic: delivered with none waiting, or waiting.
  lemma LineGrows(sent: seq<Entry>, waiting: seq<Entry>, line: seq<Entry>, e: Entry)
    requires Subsequence(sent + waiting, line) && Subsequence(sent, line)
    ensures Subsequence(sent + waiting, line + [e]) && Subsequence(sent, line + [e])
    ensures Subsequence(sent + [e], line + [e])
  {
    SubsequenceGrows(sent, line, e);
    SubsequenceGrows(sent + waiting, line, e);
  }

  lemma SentStaysLined(s: FlushResult, e: Entry, offers: seq<Entry>, topic: string)
    requires Distinct(s.pending) && Lined(s, offers, topic) && !Holds(s.pending, e.topic)
    ensures Lined(s.(sent := s.sent + [e]), offers + [e], topic)
  {
    hide OfTopic, Distinct, Subsequence, Holds;
    LinedDelivers(s, offers, topic);
    OfTopicMeaning(s.pending, topic);
    OfTopicConcat(offers, [e], topic);
    OfTopicConcat(s.sent, [e], topic);
    OfTopicOne(e, topic);
    var sent, waiting, line := OfTopic(s.sent, topic), OfTopic(s.pending, topic), OfTopic(offers, topic);
    if e.topic == topic {
      LineGrows(sent, waiting, line, e);
      assert (sent + [e]) + waiting == sent + [e];
    } else {
      assert sent + [] == sent && line + [] == line;
    }
  }

  lemma UnsentStaysLined(s: FlushResult, e: Entry, offers: seq<Entry>, topic: string)
    requires Lined(s, offers, topic)
    ensures Lined(s, offers + [e], topic)
  {
    hide OfTopic, Subsequence;
    OfTopicConcat(offers, [e], topic);
    OfTopicOne(e, topic);
    var line := OfTopic(offers, topic);
    SubsequenceGrows(OfTopic(s.sent, topic) + OfTopic(s.pending, topic), line, e);
    assert line + [] == line;
  }

  lemma QueuedStaysLined(s: FlushResult, e: Entry, limit: positive, offers: seq<Entry>, topic: string)
    requires Distinct(s.pending) && Lined(s, offers, topic)
    ensures Lined(s.(pending := Enqueued(s.pending, e, limit)), offers + [e], topic)
  {
    hide OfTopic, Distinct, Subsequence, Enqueued;
    LinedDelivers(s, offers, topic);
    OfTopicEnqueued(s.pending, e, limit, topic);
    OfTopicConcat(offers, [e], topic);
    OfTopicOne(e, topic);
    var sent, waiting, line := OfTopic(s.sent, topic), OfTopic(s.pending, topic), OfTopic(offers, topic);
    if topic == e.topic {
      SubsequenceGrows(sent, line, e);
    } else {
      assert line + [] == line;
      assert sent + [] == sent;
    }
  }

  lemma PublishStaysLined(s: FlushResult, op: Op, limit: positive, offers: seq<Entry>, topic: string)
    requires Distinct(s.pending) && Lined(s, offers, topic) && !Overtakes(s, op) && op.Publish?
    ensures Lined(OpApplied(s, op, limit), offers + Offer(op), topic)
  {
    hide Lined, Distinct, Holds;
    if op.attempt == Sends {
      SentStaysLined(s, op.entry, offers, topic);
    } else if op.queue {
      QueuedStaysLined(s, op.entry, limit, offers, topic);
    } else {
      UnsentStaysLined(s, op.entry, offers, topic);
    }
  }

  lemma StepStaysLined(s: FlushResult, op: Op, limit: positive, offers: seq<Entry>, topic: string)
    requires Distinct(s.pending) && |s.pending| <= limit && Lined(s, offers, topic) && !Overtakes(s, op)
    ensures Lined(OpApplied(s, op, limit), offers + Offer(op), topic)
  {
    if op.Publish? {
      PublishStaysLined(s, op, limit, offers, topic);
    } else {
      hide Distinct, Flushed, OfTopic, Drained, Refused, Subsequence;
      FlushDeliversPrefix(s.pending, s.sent, limit, op.link, 0);
      RefusedNext(s.pending, op.link, 0);
      OfTopicDrained(s.pending, s.sent, Passes(op.link, 0, |s.pending|), Refused(s.pending, op.link, 0), topic);
      assert offers + Offer(op) == offers;
    }
  }

  // Without such a meeting every session delivers in order, equal messages included.
  lemma {:induction false} SessionStaysLined(ops: seq<Op>, limit: positive, topic: string)
    requires NoOvertake(ops, limit)
    ensures var s := SessionRun(FRESH_QUEUE, ops, limit);
            Distinct(s.pending) && |s.pending| <= limit && Lined(s, Offers(ops), topic)
    decreases |ops|
  {
    NothingIsDuplicated(FRESH_QUEUE, ops, limit);
    if ops != [] {
      var before, op := ops[..|ops| - 1], ops[|ops| - 1];
      assert ops == before + [op];
      assert forall k :: 0 <= k < |before| ==> before[..k] == ops[..k] && before[k] == ops[k];
      hide Lined, Distinct, Overtakes;
      assert NoOvertake(before, limit);
      assert !Overtakes(SessionRun(FRESH_QUEUE, before, limit), op);
      SessionStaysLined(before, limit, topic);
      RunAppend(FRESH_QUEUE, before, op, limit);
      OffersAppend(before, op);
      StepStaysLined(SessionRun(FRESH_QUEUE, before, limit), op, limit, Offers(before), topic);
    }
  }

  lemma DeliveredInOrder(ops: seq<Op>, limit: positive)
    requires NoOvertake(ops, limit)
    ensures InOrder(ops, limit)
  {
    hide OfTopic, Subsequence, Lined, Distinct, NoOvertake;
    var s := SessionRun(FRESH_QUEUE, ops, limit);
    forall topic ensures Subsequence(OfTopic(s.sent, topic), OfTopic(Offers(ops), topic)) {
      SessionStaysLined(ops, limit, topic);
      LinedDelivers(s, Offers(ops), topic);
    }
  }

  // ---- and with one, the next complete flush is out of order ----

  function AlwaysSends(pass: nat): Attempt { Sends }

  ghost predicate AllDifferent(q: seq<Entry>) {
    forall i, j :: 0 <= i < j < |q| ==> q[i] != q[j]
  }

  lemma PendingWasOffered(ops: seq<Op>, limit: positive, x: Entry)
    ensures var s := SessionRun(FRESH_QUEUE, ops, limit);
            Distinct(s.pending) && |s.pending| <= limit && (x in s.pending ==> x in Offers(ops))
  {
    hide SessionRun, Offered, Distinct, Offers;
    NothingIsDuplicated(FRESH_QUEUE, ops, limit) by { assert Distinct(FRESH_QUEUE.pending) by { NoneAreDistinct(); } }
    OffersAreOffered(ops);
    var s := SessionRun(FRESH_QUEUE, ops, limit);
    if x in s.pending {
      assert multiset(s.pending)[x] > 0;
      var held := multiset(s.pending) + multiset(s.sent);
      var bound := multiset(FRESH_QUEUE.pending) + multiset(FRESH_QUEUE.sent) + Offered(ops);
      assert held <= bound && held[x] > 0;
      assert bound[x] == Offered(ops)[x];
      assert multiset(Offers(ops))[x] > 0;
    }
  }

  lemma NoneAreDistinct()
    ensures Distinct(FRESH_QUEUE.pending)
  {}

  // What that publish and a complete flush deliver, against what was offered.
  lemma FlushAfterDirect(ops: seq<Op>, op: Op, limit: positive)
    requires op.Publish? && op.attempt == Sends
    ensures var s := SessionRun(FRESH_QUEUE, ops, limit);
            var more := ops + [op] + [Flush(AlwaysSends)];
            && SessionRun(FRESH_QUEUE, more, limit).sent == s.sent + [op.entry] + s.pending
            && Offers(more) == Offers(ops) + [op.entry]
  {
    hide SessionRun, Distinct, Offers;
    var s := SessionRun(FRESH_QUEUE, ops, limit);
    PendingWasOffered(ops, limit, op.entry);
    RunAppend(FRESH_QUEUE, ops, op, limit);
    RunAppend(FRESH_QUEUE, ops + [op], Flush(AlwaysSends), limit);
    assert OpApplied(s, op, limit) == OpApplied(FlushResult(s.pending, s.sent), Publish(op.entry, Sends, true), limit);
    DirectPublishIsOvertaken(s.pending, s.sent, op.entry, limit, AlwaysSends);
    OffersAppend(ops, op);
    OffersAppend(ops + [op], Flush(AlwaysSends));
    assert Offers(ops) + [op.entry] + [] == Offers(ops) + [op.entry];
  }

  lemma OvertakenIsOutOfOrder(ops: seq<Op>, op: Op, limit: positive)
    requires Overtakes(SessionRun(FRESH_QUEUE, ops, limit), op) && op.entry !in Offers(ops)
    ensures !InOrder(ops + [op] + [Flush(AlwaysSends)], limit)
  {
    hide OfTopic, Distinct, Holds, SessionRun, Offers, Subsequence;
    var s := SessionRun(FRESH_QUEUE, ops, limit);
    var e, topic := op.entry, op.entry.topic;
    FlushAfterDirect(ops, op, limit);
    OfTopicConcat(s.sent + [e], s.pending, topic);
    OfTopicConcat(s.sent, [e], topic);
    OfTopicConcat(Offers(ops), [e], topic);
    OfTopicOne(e, topic);
    OfTopicMeaning(s.pending, topic);
    OfTopicMeaning(Offers(ops), topic);
    var x := OfTopic(s.pending, topic)[0];
    assert x in OfTopic(s.pending, topic);
    PendingWasOffered(ops, limit, x);
    assert OfTopic(s.pending, topic) == [x];
    NotInOrder(OfTopic(s.sent, topic), e, x, OfTopic(Offers(ops), topic));
  }

  // e is new and last; nothing can follow it.
  lemma NotInOrder(sent: seq<Entry>, e: Entry, x: Entry, offers: seq<Entry>)
    requires e !in offers && x != e
    ensures !Subsequence(sent + [e] + [x], offers + [e])
  {
    var a, b := sent + [e] + [x], offers + [e];
    assert b[..|b| - 1] == offers && a[|a| - 1] == x && b[|b| - 1] == e;
    if Subsequence(a, offers) {
      assert e == a[|sent|];
      SubsequenceElements(a, offers, e);
    }
  }

  // However far the session has come, a complete flush then delivers in order.
  ghost predicate KeepsOrder(ops: seq<Op>, limit: positive) {
    forall k :: 0 <= k <= |ops| ==> InOrder(ops[..k] + [Flush(AlwaysSends)], limit)
  }

  lemma {:induction false} OffersOfPrefix(ops: seq<Op>, k: nat)
    requires k < |ops| && ops[k].Publish? && AllDifferent(Offers(ops))
    ensures ops[k].entry !in Offers(ops[..k])
    decreases |ops|
  {
    if k < |ops| - 1 {
      var before := ops[..|ops| - 1];
      assert ops == before + [ops[|ops| - 1]] && before[..k] == ops[..k];
      OffersAppend(before, ops[|ops| - 1]);
      assert forall i :: 0 <= i < |Offers(before)| ==> Offers(ops)[i] == Offers(before)[i];
      OffersOfPrefix(before, k);
    } else {
      assert ops == ops[..k] + [ops[k]];
      OffersAppend(ops[..k], ops[k]);
      var all := Offers(ops);
      forall i | 0 <= i < |Offers(ops[..k])| ensures Offers(ops[..k])[i] != ops[k].entry {
        assert all[i] == Offers(ops[..k])[i] && all[|all| - 1] == ops[k].entry;
      }
    }
  }

  // Exactly when: for messages that can be told apart, iff no direct publish meets its own
  // topic pending.
  lemma KeepsOrderExactlyWhen(ops: seq<Op>, limit: positive)
    requires AllDifferent(Offers(ops))
    ensures KeepsOrder(ops, limit) <==> NoOvertake(ops, limit)
  {
    hide InOrder, Overtakes, AllDifferent;
    if NoOvertake(ops, limit) {
      forall k | 0 <= k <= |ops| ensures InOrder(ops[..k] + [Flush(AlwaysSends)], limit) {
        FlushedPrefixHasNoOvertake(ops, k, limit);
        DeliveredInOrder(ops[..k] + [Flush(AlwaysSends)], limit);
      }
    } else {
      var k :| 0 <= k < |ops| && Overtakes(SessionRun(FRESH_QUEUE, ops[..k], limit), ops[k]);
      OvertakerPublishes(SessionRun(FRESH_QUEUE, ops[..k], limit), ops[k]);
      OffersOfPrefix(ops, k);
      OvertakenIsOutOfOrder(ops[..k], ops[k], limit);
      assert ops[..k + 1] == ops[..k] + [ops[k]];
    }
  }

  lemma OvertakerPublishes(s: FlushResult, op: Op)
    requires Overtakes(s, op)
    ensures op.Publish?
  {}

  lemma FlushedPrefixHasNoOvertake(ops: seq<Op>, k: nat, limit: positive)
    requires k <= |ops| && NoOvertake(ops, limit)
    ensures NoOvertake(ops[..k] + [Flush(AlwaysSends)], limit)
  {
    var more := ops[..k] + [Flush(AlwaysSends)];
    forall j | 0 <= j < |more| ensures !Overtakes(SessionRun(FRESH_QUEUE, more[..j], limit), more[j]) {
      assert more[..j] == ops[..j];
    }
  }
}
