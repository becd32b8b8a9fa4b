/** The restore mailbox between the daemon and the native messaging hosts (src/browser/bridge.cpp:67-109). */
module Inbox {
  import opened Base
  import opened JsonText

  datatype Pending<+W> = Pending(id: Bytes, windows: W, lazyLoad: bool)

  /** The calls, at the moment their critical section runs. A restore_result that finds nothing has timed out. */
  datatype Op<+W> =
    | EnqueueRestore(windows: W, lazyLoad: bool)
    | NextRestore
    | AcknowledgeRestore(id: Bytes, tabs: nat)
    | RestoreResult(id: Bytes)

  datatype Reply<+W> = Queued(id: Bytes) | Delivered(pending: Pending<W>) | NothingQueued | Acknowledged | Count(tabs: nat)

  datatype Event<+W> = Event(op: Op<W>, reply: Reply<W>)

  datatype State<+W> = State(restores: seq<Pending<W>>, results: map<Bytes, nat>, counter: nat)

  function Prefix(): Bytes { Ascii("restore-") }

  function RequestId(n: nat): Bytes { Prefix() + Decimal(n) }

  /** One critical section. */
  function Serve<W>(s: State<W>, op: Op<W>): (State<W>, Reply<W>) {
    match op
    case EnqueueRestore(windows, lazyLoad) =>
      var id := RequestId(s.counter + 1);
      (s.(restores := s.restores + [Pending(id, windows, lazyLoad)], counter := s.counter + 1), Queued(id))
    case NextRestore =>
      if s.restores == [] then (s, NothingQueued)
      else (s.(restores := s.restores[1..]), Delivered(s.restores[0]))
    case AcknowledgeRestore(id, tabs) => (s.(results := s.results[id := tabs]), Acknowledged)
    case RestoreResult(id) =>
      if id !in s.results then (s, Count(0)) else (s.(results := s.results - {id}), Count(s.results[id]))
  }

  /** The state after a log of calls. */
  function After<W>(log: seq<Event<W>>): State<W> {
    if log == [] then State([], map[], 0) else Serve(After(log[..|log| - 1]), log[|log| - 1].op).0
  }

  /** A log that some interleaving of calls produces: every reply is the one its state gives. */
  predicate Happens<W(==)>(log: seq<Event<W>>)
    decreases |log|
  {
    log == [] || (Happens(log[..|log| - 1]) && Serve(After(log[..|log| - 1]), log[|log| - 1].op).1 == log[|log| - 1].reply)
  }

  // ---------------------------------------------------------------- what the log says

  /** The requests enqueued, in order. */
  function Enqueued<W>(log: seq<Event<W>>): seq<Pending<W>> {
    if log == [] then []
    else
      Enqueued(log[..|log| - 1]) + EnqueuedBy(log[|log| - 1])
  }

  function EnqueuedBy<W>(e: Event<W>): seq<Pending<W>> {
    if e.op.EnqueueRestore? && e.reply.Queued? then [Pending(e.reply.id, e.op.windows, e.op.lazyLoad)] else []
  }

  /** The requests handed to hosts, in order. */
  function Handed<W>(log: seq<Event<W>>): seq<Pending<W>> {
    if log == [] then []
    else
      Handed(log[..|log| - 1]) + HandedBy(log[|log| - 1])
  }

  function HandedBy<W>(e: Event<W>): seq<Pending<W>> {
    if e.reply.Delivered? then [e.reply.pending] else []
  }

  /** The last number acknowledged for `id` that no restore_result has taken since. */
  function Outstanding<W>(log: seq<Event<W>>, id: Bytes): Option<nat> {
    if log == [] then None
    else
      var e := log[|log| - 1];
      if e.op.AcknowledgeRestore? && e.op.id == id then Some(e.op.tabs)
      else if e.op.RestoreResult? && e.op.id == id then None
      else Outstanding(log[..|log| - 1], id)
  }

  // ---------------------------------------------------------------- over every interleaving

  lemma {:induction false} QueueIsUndelivered<W>(log: seq<Event<W>>)
    requires Happens(log)
    ensures Handed(log) + After(log).restores == Enqueued(log)
    decreases |log|
  {
    if log != [] {
      var init, e := log[..|log| - 1], log[|log| - 1];
      QueueIsUndelivered(init);
      ServeQueues(After(init), e.op);
      hide Serve;
      Assoc(Handed(init), HandedBy(e), After(log).restores);
      Assoc(Handed(init), After(init).restores, EnqueuedBy(e));
    }
  }

  /** What one call hands out, followed by what it leaves, is what was queued and what it enqueues. */
  lemma ServeQueues<W>(s: State<W>, op: Op<W>)
    ensures var e := Event(op, Serve(s, op).1);
            HandedBy(e) + Serve(s, op).0.restores == s.restores + EnqueuedBy(e)
  {
    hide RequestId;
    if op.NextRestore? && s.restores != [] {
      assert s.restores == [s.restores[0]] + s.restores[1..];
    }
  }

  lemma {:induction false} CounterNumbersIds<W>(log: seq<Event<W>>)
    requires Happens(log)
    ensures After(log).counter == |Enqueued(log)|
    ensures forall k :: 0 <= k < |Enqueued(log)| ==> Enqueued(log)[k].id == RequestId(k + 1)
    decreases |log|
  {
    if log != [] {
      var init, e := log[..|log| - 1], log[|log| - 1];
      var before := After(init);
      CounterNumbersIds(init);
      hide RequestId;
    }
  }

  /** No two requests share an id. */
  lemma IdsAreDistinct<W>(log: seq<Event<W>>, k: nat, l: nat)
    requires Happens(log) && k < l < |Enqueued(log)|
    ensures Enqueued(log)[k].id != Enqueued(log)[l].id
  {
    CounterNumbersIds(log);
    if RequestId(k + 1) == RequestId(l + 1) {
      assert RequestId(k + 1)[|Prefix()|..] == Decimal(k + 1);
      assert RequestId(l + 1)[|Prefix()|..] == Decimal(l + 1);
      DecimalInjective(k + 1, l + 1);
    }
  }

  /** Requests reach the hosts in order, each once: the n-th delivery is the n-th request. */
  lemma DeliveredInOrder<W>(log: seq<Event<W>>)
    requires Happens(log)
    ensures Handed(log) <= Enqueued(log)
    ensures forall k, l :: 0 <= k < l < |Handed(log)| ==> Handed(log)[k].id != Handed(log)[l].id
  {
    QueueIsUndelivered(log);
    forall k: nat, l: nat | k < l < |Handed(log)|
      ensures Handed(log)[k].id != Handed(log)[l].id
    {
      IdsAreDistinct(log, k, l);
      assert Handed(log)[k] == Enqueued(log)[k] && Handed(log)[l] == Enqueued(log)[l];
    }
  }

  lemma {:induction false} ResultsAreOutstanding<W>(log: seq<Event<W>>, id: Bytes)
    requires Happens(log)
    ensures Outstanding(log, id) == if id in After(log).results then Some(After(log).results[id]) else None
    decreases |log|
  {
    if log != [] {
      var init, e := log[..|log| - 1], log[|log| - 1];
      var before := After(init);
      ResultsAreOutstanding(init, id);
    }
  }

  lemma {:induction false} PrefixHappens<W>(log: seq<Event<W>>, n: nat)
    requires Happens(log) && n < |log|
    ensures Happens(log[..n]) && Serve(After(log[..n]), log[n].op).1 == log[n].reply
    decreases |log|
  {
    if n < |log| - 1 {
      var init := log[..|log| - 1];
      PrefixHappens(init, n);
      assert init[..n] == log[..n];
    }
  }

  /** restore_result answers the last acknowledged, not yet consumed number for its id, or 0. */
  lemma ResultIsLastAcknowledged<W>(log: seq<Event<W>>, n: nat)
    requires Happens(log) && n < |log| && log[n].op.RestoreResult?
    ensures var o := Outstanding(log[..n], log[n].op.id);
            log[n].reply == Count(if o.Some? then o.value else 0)
  {
    PrefixHappens(log, n);
    ResultsAreOutstanding(log[..n], log[n].op.id);
  }

  // ---------------------------------------------------------------- the monitor object

  /** inbox::State; every method body is one critical section. */
  class Mailbox<W> {
    var restores: seq<Pending<W>>
    var results: map<Bytes, nat>
    var counter: nat
    ghost var log: seq<Event<W>>

    function Now(): State<W>
      reads this
    {
      State(restores, results, counter)
    }

    /** The fields are what the log of calls leaves. */
    ghost predicate Valid()
      reads this
    {
      Happens(log) && After(log) == Now()
    }

    constructor ()
      ensures Valid() && log == []
    {
      restores, results, counter := [], map[], 0;
      log := [];
    }

    ghost method Record(e: Event<W>, before: State<W>)
      requires Happens(log) && After(log) == before && Serve(before, e.op) == (Now(), e.reply)
      modifies `log
      ensures log == old(log) + [e] && Valid()
    {
      log := log + [e];
      assert log[..|log| - 1] == old(log);
    }

    method EnqueueRestore(windows: W, lazyLoad: bool) returns (id: Bytes)
      requires Valid()
      modifies this
      ensures Valid() && log == old(log) + [Event(Op.EnqueueRestore(windows, lazyLoad), Queued(id))]
      ensures forall p <- old(Enqueued(log)) :: p.id != id
    {
      ghost var before := Now();
      counter := counter + 1;
      id := RequestId(counter);
      restores := restores + [Pending(id, windows, lazyLoad)];
      Record(Event(Op.EnqueueRestore(windows, lazyLoad), Queued(id)), before);
      FreshId(log);
    }

    method NextRestore() returns (r: Option<Pending<W>>)
      requires Valid()
      modifies this
      ensures Valid()
      ensures log == old(log) + [Event(Op.NextRestore, if r.Some? then Delivered(r.value) else NothingQueued)]
      ensures r.None? <==> Handed(old(log)) == Enqueued(old(log))
    {
      ghost var before := Now();
      QueueIsUndelivered(log);
      if restores == [] {
        r := None;
      } else {
        r := Some(restores[0]);
        restores := restores[1..];
      }
      Record(Event(Op.NextRestore, if r.Some? then Delivered(r.value) else NothingQueued), before);
    }

    method AcknowledgeRestore(id: Bytes, tabs: nat)
      requires Valid()
      modifies this
      ensures Valid() && log == old(log) + [Event(Op.AcknowledgeRestore(id, tabs), Acknowledged)]
    {
      ghost var before := Now();
      results := results[id := tabs];
      Record(Event(Op.AcknowledgeRestore(id, tabs), Acknowledged), before);
    }

    method RestoreResult(id: Bytes) returns (tabs: nat)
      requires Valid()
      modifies this
      ensures Valid() && log == old(log) + [Event(Op.RestoreResult(id), Count(tabs))]
      ensures tabs == if Outstanding(old(log), id).Some? then Outstanding(old(log), id).value else 0
    {
      ghost var before := Now();
      ResultsAreOutstanding(log, id);
      if id !in results {
        tabs := 0;
      } else {
        tabs := results[id];
        results := results - {id};
      }
      Record(Event(Op.RestoreResult(id), Count(tabs)), before);
    }
  }

  lemma FreshId<W>(log: seq<Event<W>>)
    requires Happens(log) && Enqueued(log) != []
    ensures var all := Enqueued(log); forall p <- all[..|all| - 1] :: p.id != all[|all| - 1].id
  {
    var all := Enqueued(log);
    forall p <- all[..|all| - 1]
      ensures p.id != all[|all| - 1].id
    {
      var k :| 0 <= k < |all| - 1 && all[k] == p;
      IdsAreDistinct(log, k, |all| - 1);
    }
  }
}
