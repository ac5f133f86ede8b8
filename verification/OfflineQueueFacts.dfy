// The bounded queue refines the unbounded log, and a flush loses and repeats nothing.
module OfflineQueueFacts {
  import opened Common
  import opened OfflineQueue

  // The log with only each topic's last entry kept, in log order.
  function LastPerTopic(log: seq<Entry>): seq<Entry>
    decreases |log|
  {
    if log == [] then []
    else if Holds(log[1..], log[0].topic) then LastPerTopic(log[1..])
    else [log[0]] + LastPerTopic(log[1..])
  }

  lemma {:induction false} LastPerTopicMeaning(log: seq<Entry>)
    ensures Distinct(LastPerTopic(log))
    ensures forall e :: e in LastPerTopic(log) <==>
            exists i :: 0 <= i < |log| && log[i] == e && !Holds(log[i + 1..], e.topic)
    decreases |log|
  {
    if log != [] {
      var rest := log[1..];
      LastPerTopicMeaning(rest);
      forall e | e in LastPerTopic(log)
        ensures exists i :: 0 <= i < |log| && log[i] == e && !Holds(log[i + 1..], e.topic)
      {
        if e in LastPerTopic(rest) {
          var i :| 0 <= i < |rest| && rest[i] == e && !Holds(rest[i + 1..], e.topic);
          assert log[i + 1] == e && log[i + 1 + 1..] == rest[i + 1..];
        } else {
          assert log[0] == e && log[0 + 1..] == rest;
        }
      }
      forall e | exists i :: 0 <= i < |log| && log[i] == e && !Holds(log[i + 1..], e.topic)
        ensures e in LastPerTopic(log)
      {
        var i :| 0 <= i < |log| && log[i] == e && !Holds(log[i + 1..], e.topic);
        if i > 0 {
          assert rest[i - 1] == e && rest[i - 1 + 1..] == log[i + 1..];
          assert e in LastPerTopic(rest);
        }
      }
      if !Holds(rest, log[0].topic) {
        forall e | e in LastPerTopic(rest) ensures e.topic != log[0].topic {
          var i :| 0 <= i < |rest| && rest[i] == e;
        }
      }
    }
  }

  lemma {:induction false} WithoutConcat(a: seq<Entry>, b: seq<Entry>, topic: string)
    ensures Without(a + b, topic) == Without(a, topic) + Without(b, topic)
    decreases |b|
  {
    if b == [] {
      assert a + b == a;
    } else {
      assert (a + b)[..|a + b| - 1] == a + b[..|b| - 1];
      WithoutConcat(a, b[..|b| - 1], topic);
    }
  }

  lemma {:induction false} LastPerTopicAppend(log: seq<Entry>, e: Entry)
    ensures LastPerTopic(log + [e]) == Without(LastPerTopic(log), e.topic) + [e]
    decreases |log|
  {
    if log == [] {
      assert log + [e] == [e] && [e][1..] == [];
    } else {
      hide Without, Holds;
      var x, rest := log[0], log[1..];
      assert (log + [e])[1..] == rest + [e];
      LastPerTopicAppend(rest, e);
      WithoutConcat([x], LastPerTopic(rest), e.topic);
      WithoutOne(x, e.topic);
      HoldsAppend(rest, e, x.topic);
    }
  }

  lemma WithoutOne(x: Entry, topic: string)
    ensures Without([x], topic) == if x.topic == topic then [] else [x]
  {
    assert [x][..0] == [];
  }

  lemma HoldsAppend(q: seq<Entry>, e: Entry, topic: string)
    ensures Holds(q + [e], topic) <==> Holds(q, topic) || e.topic == topic
  {
    if Holds(q, topic) {
      var i :| 0 <= i < |q| && q[i].topic == topic;
      assert (q + [e])[i].topic == topic;
    }
    if e.topic == topic {
      assert (q + [e])[|q|].topic == topic;
    }
  }

  lemma NewestOfConcat(a: seq<Entry>, b: seq<Entry>, limit: nat)
    requires limit <= |b|
    ensures Newest(a + b, limit) == Newest(b, limit)
  {}

  lemma WithoutDropsAtMostOne(q: seq<Entry>, topic: string)
    requires Distinct(q)
    ensures |q| - 1 <= |Without(q, topic)|
  {
    WithoutKeeps(q, topic);
  }

  lemma DistinctTail(q: seq<Entry>, lo: nat)
    requires Distinct(q) && lo <= |q|
    ensures Distinct(q[lo..])
  {}

  // Evicting early or late makes no difference.
  lemma NewestThenEnqueue(all: seq<Entry>, e: Entry, limit: positive)
    requires Distinct(all)
    ensures Enqueued(Newest(all, limit), e, limit) == Newest(Without(all, e.topic) + [e], limit)
  {
    hide Without, Newest, Distinct, Holds;
    NewestMeaning(all, limit);
    if |all| > limit {
      DistinctTail(all, |all| - limit);
      var early, late := all[..|all| - limit], all[|all| - limit..];
      assert all == early + late;
      WithoutConcat(early, late, e.topic);
      WithoutDropsAtMostOne(late, e.topic);
      NewestOfConcat(Without(early, e.topic), Without(late, e.topic) + [e], limit);
      assert Without(all, e.topic) + [e] == Without(early, e.topic) + (Without(late, e.topic) + [e]);
    }
  }

  lemma NewestMeaning(all: seq<Entry>, limit: nat)
    ensures |all| <= limit ==> Newest(all, limit) == all
    ensures |all| > limit ==> Newest(all, limit) == all[|all| - limit..]
  {}

  // After any sequence of enqueues the queue is the newest part of the thinned log.
  lemma {:induction false} QueueRefinesLog(log: seq<Entry>, limit: positive)
    ensures EnqueuedAll(log, limit) == Newest(LastPerTopic(log), limit)
    decreases |log|
  {
    if log != [] {
      var before, e := log[..|log| - 1], log[|log| - 1];
      assert log == before + [e];
      QueueRefinesLog(before, limit);
      LastPerTopicMeaning(before);
      LastPerTopicAppend(before, e);
      NewestThenEnqueue(LastPerTopic(before), e, limit);
    }
  }

  // ---- flush ----

  // How many passes send before the first that does not, of at most n.
  function Passes(link: nat -> Attempt, pass: nat, n: nat): (k: nat)
    ensures k <= n
    ensures forall i :: pass <= i < pass + k ==> link(i) == Sends
    ensures k < n ==> link(pass + k) != Sends
    decreases n
  {
    if n == 0 || link(pass) != Sends then 0 else 1 + Passes(link, pass + 1, n - 1)
  }

  lemma DistinctRotate(q: seq<Entry>, k: nat)
    requires Distinct(q) && k < |q|
    ensures Distinct(q[k + 1..] + [q[k]])
  {
    var r := q[k + 1..] + [q[k]];
    forall i, j | 0 <= i < j < |r| ensures r[i].topic != r[j].topic {
      assert r[i] == q[k + 1 + i];
      assert r[j] == if j < |q| - k - 1 then q[k + 1 + j] else q[k];
    }
  }

  // A requeue after a pop finds room and no entry to replace.
  lemma RequeueAppends(q: seq<Entry>, limit: positive)
    requires Distinct(q) && 0 < |q| <= limit
    ensures Enqueued(q[1..], q[0], limit) == q[1..] + [q[0]]
  {
    assert !Holds(q[1..], q[0].topic);
    WithoutKeeps(q[1..], q[0].topic);
  }

  // k messages gone in queue order; if the next was refused it goes to the end.
  function Drained(q: seq<Entry>, sent: seq<Entry>, k: nat, refused: bool): FlushResult
    requires k <= |q| && (refused ==> k < |q|)
  {
    FlushResult(if refused then q[k + 1..] + [q[k]] else q[k..], sent + q[..k])
  }

  lemma DrainedStep(q: seq<Entry>, sent: seq<Entry>, k: nat, refused: bool)
    requires 1 <= k <= |q| && (refused ==> k < |q|)
    ensures Drained(q[1..], sent + [q[0]], k - 1, refused) == Drained(q, sent, k, refused)
  {
    assert sent + q[..k] == sent + [q[0]] + q[1..][..k - 1];
    assert q[1..][k - 1..] == q[k..];
    if refused { assert q[1..][k..] == q[k + 1..]; }
  }

  lemma DrainedNone(q: seq<Entry>, sent: seq<Entry>)
    ensures Drained(q, sent, 0, false) == FlushResult(q, sent)
    ensures q != [] ==> Drained(q, sent, 0, true) == FlushResult(q[1..] + [q[0]], sent)
  {
    assert sent + q[..0] == sent;
  }

  predicate Refused(q: seq<Entry>, link: nat -> Attempt, pass: nat) {
    var k := Passes(link, pass, |q|);
    k < |q| && link(pass + k) == Refuses
  }

  lemma RefusedNext(q: seq<Entry>, link: nat -> Attempt, pass: nat)
    ensures q != [] && link(pass) == Sends ==>
              Passes(link, pass, |q|) == 1 + Passes(link, pass + 1, |q[1..]|)
              && Refused(q, link, pass) == Refused(q[1..], link, pass + 1)
    ensures q == [] || link(pass) != Sends ==>
              Passes(link, pass, |q|) == 0 && (Refused(q, link, pass) <==> q != [] && link(pass) == Refuses)
    ensures Refused(q, link, pass) ==> Passes(link, pass, |q|) < |q|
  {}

  // Delivered messages are a prefix in queue order; a refusal moves one entry to the
  // end, a lost connection moves none; nothing is evicted.
  lemma {:induction false} FlushDeliversPrefix(q: seq<Entry>, sent: seq<Entry>, limit: positive,
                                               link: nat -> Attempt, pass: nat)
    requires Distinct(q) && |q| <= limit
    ensures Flushed(q, sent, limit, link, pass) == Drained(q, sent, Passes(link, pass, |q|), Refused(q, link, pass))
    decreases |q|
  {
    hide Enqueued, Distinct, Drained, Refused;
    RefusedNext(q, link, pass);
    DrainedNone(q, sent);
    if q != [] {
      match link(pass)
      case Sends =>
        DistinctTail(q, 1);
        FlushDeliversPrefix(q[1..], sent + [q[0]], limit, link, pass + 1);
        DrainedStep(q, sent, Passes(link, pass, |q|), Refused(q, link, pass));
      case Refuses => RequeueAppends(q, limit);
      case Down =>
    }
  }

  lemma DrainedConserves(q: seq<Entry>, sent: seq<Entry>, k: nat, refused: bool)
    requires k <= |q| && (refused ==> k < |q|)
    ensures var r := Drained(q, sent, k, refused);
            multiset(r.pending) + multiset(r.sent) == multiset(q) + multiset(sent) && |r.pending| <= |q|
  {
    assert q == q[..k] + q[k..];
    if refused { assert q[k..] == [q[k]] + q[k + 1..]; }
  }

  lemma FlushConserves(q: seq<Entry>, sent: seq<Entry>, limit: positive, link: nat -> Attempt, pass: nat)
    requires Distinct(q) && |q| <= limit
    ensures var r := Flushed(q, sent, limit, link, pass);
            && multiset(r.pending) + multiset(r.sent) == multiset(q) + multiset(sent)
            && Distinct(r.pending) && |r.pending| <= |q|
  {
    hide Flushed, Distinct, Enqueued;
    FlushDeliversPrefix(q, sent, limit, link, pass);
    var k := Passes(link, pass, |q|);
    DrainedConserves(q, sent, k, Refused(q, link, pass));
    DistinctTail(q, k);
    if k < |q| { DistinctRotate(q, k); }
  }

  // ---- whole sessions ----

  datatype Op = Publish(entry: Entry, attempt: Attempt, queue: bool) | Flush(link: nat -> Attempt)

  function OpApplied(s: FlushResult, op: Op, limit: positive): FlushResult {
    match op
    case Publish(e, attempt, queue) =>
      if attempt == Sends then s.(sent := s.sent + [e])
      else if queue then s.(pending := Enqueued(s.pending, e, limit)) else s
    case Flush(link) => Flushed(s.pending, s.sent, limit, link, 0)
  }

  function SessionRun(s: FlushResult, ops: seq<Op>, limit: positive): FlushResult
    decreases |ops|
  {
    if ops == [] then s else SessionRun(OpApplied(s, ops[0], limit), ops[1..], limit)
  }

  function Offered(ops: seq<Op>): multiset<Entry>
    decreases |ops|
  {
    if ops == [] then multiset{}
    else (if ops[0].Publish? then multiset{ops[0].entry} else multiset{}) + Offered(ops[1..])
  }

  lemma {:induction false} WithoutIsPart(q: seq<Entry>, topic: string)
    ensures multiset(Without(q, topic)) <= multiset(q)
    decreases |q|
  {
    if q != [] {
      assert q == q[..|q| - 1] + [q[|q| - 1]];
      WithoutIsPart(q[..|q| - 1], topic);
    }
  }

  lemma EnqueueAddsOne(q: seq<Entry>, e: Entry, limit: positive)
    requires Distinct(q)
    ensures var r := Enqueued(q, e, limit);
            Distinct(r) && |r| <= limit && multiset(r) <= multiset(q) + multiset{e} && r[|r| - 1] == e
  {
    hide Without;
    WithoutKeeps(q, e.topic);
    WithoutIsPart(q, e.topic);
    var w := Without(q, e.topic);
    var all := w + [e];
    forall i | 0 <= i < |w| ensures w[i].topic != e.topic { assert w[i] in w; }
    assert Distinct(all);
    assert multiset(all) <= multiset(q) + multiset{e};
    if |all| > limit {
      assert all == all[..|all| - limit] + all[|all| - limit..];
    }
  }

  // Publishes, failures, evictions and flushes in any order: no offered message is ever
  // held or delivered more often than it was offered.
  lemma {:induction false} NothingIsDuplicated(s: FlushResult, ops: seq<Op>, limit: positive)
    requires Distinct(s.pending) && |s.pending| <= limit
    ensures var r := SessionRun(s, ops, limit);
            && Distinct(r.pending) && |r.pending| <= limit
            && multiset(r.pending) + multiset(r.sent) <= multiset(s.pending) + multiset(s.sent) + Offered(ops)
    decreases |ops|
  {
    if ops != [] {
      var next := OpApplied(s, ops[0], limit);
      match ops[0] {
        case Publish(e, attempt, queue) => EnqueueAddsOne(s.pending, e, limit);
        case Flush(link) => FlushConserves(s.pending, s.sent, limit, link, 0);
      }
      NothingIsDuplicated(next, ops[1..], limit);
    }
  }

  // A direct publish does not retire what waits on its topic: the next flush delivers
  // that older message after the newer one, exactly when the topic was pending.
  lemma DirectPublishIsOvertaken(q: seq<Entry>, sent: seq<Entry>, e: Entry, limit: positive, link: nat -> Attempt)
    requires Distinct(q) && |q| <= limit && forall i: nat :: link(i) == Sends
    ensures var direct := OpApplied(FlushResult(q, sent), Publish(e, Sends, true), limit);
            var r := OpApplied(direct, Flush(link), limit);
            && r.pending == [] && r.sent == sent + [e] + q
            && (Holds(r.sent[|sent| + 1..], e.topic) <==> Holds(q, e.topic))
  {
    hide Flushed;
    FlushDeliversPrefix(q, sent + [e], limit, link, 0);
    assert Passes(link, 0, |q|) == |q|;
    assert (sent + [e] + q)[|sent| + 1..] == q;
    assert q[..|q|] == q;
  }
}
