// The MQTT offline queue: an ordered map with last-write-wins, move-to-end and
// eviction of the oldest entry, and the flush that drains it.
module OfflineQueue {
  import opened Common

  datatype Message = Message(payload: string, qos: int, retain: bool)

  datatype Entry = Entry(topic: string, message: Message)

  // An ordered map is the sequence of its items; topics are distinct.
  ghost predicate Distinct(q: seq<Entry>) {
    forall i, j :: 0 <= i < j < |q| ==> q[i].topic != q[j].topic
  }

  predicate Holds(q: seq<Entry>, topic: string) {
    exists i :: 0 <= i < |q| && q[i].topic == topic
  }

  // pop(topic): every other entry keeps its place.
  function Without(q: seq<Entry>, topic: string): (r: seq<Entry>)
    ensures |r| <= |q|
    decreases |q|
  {
    if q == [] then [] else
    var rest := Without(q[..|q| - 1], topic);
    if q[|q| - 1].topic == topic then rest else rest + [q[|q| - 1]]
  }

  function Newest(q: seq<Entry>, limit: nat): seq<Entry> {
    if |q| <= limit then q else q[|q| - limit..]
  }

  function Enqueued(q: seq<Entry>, e: Entry, limit: nat): seq<Entry> {
    Newest(Without(q, e.topic) + [e], limit)
  }

  function EnqueuedAll(log: seq<Entry>, limit: nat): seq<Entry>
    decreases |log|
  {
    if log == [] then [] else Enqueued(EnqueuedAll(log[..|log| - 1], limit), log[|log| - 1], limit)
  }

  // One publish attempt against the broker during a flush.
  datatype Attempt = Down | Sends | Refuses

  datatype FlushResult = FlushResult(pending: seq<Entry>, sent: seq<Entry>)

  // `link` is what each pass of the loop meets.
  function Flushed(q: seq<Entry>, sent: seq<Entry>, limit: nat, link: nat -> Attempt, pass: nat): FlushResult
    decreases |q|
  {
    if q == [] || link(pass) == Down then FlushResult(q, sent)
    else if link(pass) == Refuses then FlushResult(Enqueued(q[1..], q[0], limit), sent)
    else Flushed(q[1..], sent + [q[0]], limit, link, pass + 1)
  }

  class PendingQueue {
    const limit: positive
    var pending: seq<Entry>
    var delivered: seq<Entry>

    ghost predicate Valid()
      reads this
    {
      Distinct(pending) && |pending| <= limit
    }

    constructor (maxPending: int)
      ensures Valid() && pending == [] && delivered == []
      ensures limit == if maxPending < 1 then 1 else maxPending
    {
      limit := if maxPending < 1 then 1 else maxPending;
      pending, delivered := [], [];
    }

    method QueuePublish(e: Entry)
      requires Valid()
      modifies this`pending
      ensures Valid() && pending == Enqueued(old(pending), e, limit)
    {
      WithoutKeeps(pending, e.topic);
      pending := Without(pending, e.topic);
      pending := pending + [e];
      ghost var full := pending;
      while |pending| > limit
        invariant Distinct(pending)
        invariant |pending| <= |full| && pending == full[|full| - |pending|..]
        invariant |full| > limit ==> |pending| >= limit
        invariant |full| <= limit ==> pending == full
      {
        pending := pending[1..];
      }
    }

    // publish(): direct when connected and accepted, else queued if the caller asks.
    method Publish(e: Entry, attempt: Attempt, queue: bool) returns (ok: bool)
      requires Valid()
      modifies this
      ensures Valid() && ok == (attempt == Sends)
      ensures delivered == if ok then old(delivered) + [e] else old(delivered)
      ensures pending == if !ok && queue then Enqueued(old(pending), e, limit) else old(pending)
    {
      if attempt == Down {
        if queue { QueuePublish(e); }
        return false;
      }
      if attempt == Sends {
        delivered := delivered + [e];
        return true;
      }
      if queue { QueuePublish(e); }
      return false;
    }

    method Flush(link: nat -> Attempt)
      requires Valid()
      modifies this
      ensures Valid()
      ensures FlushResult(pending, delivered) == Flushed(old(pending), old(delivered), limit, link, 0)
    {
      var pass := 0;
      while pending != [] && link(pass) != Down
        invariant Valid() && 0 <= pass
        invariant Flushed(pending, delivered, limit, link, pass)
               == Flushed(old(pending), old(delivered), limit, link, 0)
        decreases |pending|
      {
        var e := pending[0];
        pending := pending[1..];
        var ok := Publish(e, link(pass), false);
        if !ok {
          QueuePublish(e);
          return;
        }
        pass := pass + 1;
      }
    }
  }

  lemma {:induction false} WithoutKeeps(q: seq<Entry>, topic: string)
    requires Distinct(q)
    ensures var r := Without(q, topic);
            && Distinct(r) && !Holds(r, topic)
            && (!Holds(q, topic) ==> r == q)
            && (Holds(q, topic) ==> |r| == |q| - 1)
            && forall e :: e in r <==> e in q && e.topic != topic
    decreases |q|
  {
    if q != [] {
      var front, last := q[..|q| - 1], q[|q| - 1];
      assert q == front + [last];
      WithoutKeeps(front, topic);
      var rest := Without(front, topic);
      forall e | e in rest ensures e.topic != last.topic { assert e in front; }
      if last.topic == topic {
        assert !Holds(front, topic);
      } else {
        assert Holds(q, topic) ==> Holds(front, topic);
        assert Holds(front, topic) ==> Holds(q, topic);
      }
    }
  }
}
