/** The worker pool and the arrival slots of tests/stress/driver/main.go. */
module StressDriver {
  import opened Common

  // --------------------------------------------------------------------------------- runOps

  /** The capacity of the work channel. */
  const CAPACITY: nat := 1024

  /** `paced` when RatePerSec is positive. */
  datatype Config = Config(target: nat, paced: bool, concurrency: int)

  /** The producer waits for its ticker, waits to send, or has closed the channel. */
  datatype Producer = AtTick | AtSend | Closed
  datatype Worker = Idle | Running(i: nat) | Exited

  /** `sent` counts the indices sent; started and finished list the calls of op in order. */
  datatype State = State(
    producer: Producer,
    sent: nat,
    queue: seq<nat>,
    workers: seq<Worker>,
    started: seq<nat>,
    finished: seq<nat>,
    cancelled: bool,
    returned: bool)

  /** Where the producer is before its loop's turn i. */
  function Turn(c: Config, i: nat): Producer {
    if i >= c.target then Closed else if c.paced then AtTick else AtSend
  }

  function Init(c: Config): State {
    State(Turn(c, 0), 0, [], seq(if c.concurrency < 1 then 1 else c.concurrency, _ => Idle), [], [], false, false)
  }

  datatype Event = Cancel | Tick | Send | GiveUp | Take(w: nat) | Finish(w: nat) | Exit(w: nat) | Return

  /** When both cases of a select are ready either can be taken: a cancelled producer may still send. */
  predicate Enabled(s: State, e: Event) {
    match e
    case Cancel => !s.cancelled
    case Tick => s.producer.AtTick?
    case Send => s.producer.AtSend? && |s.queue| < CAPACITY
    case GiveUp => !s.producer.Closed? && s.cancelled
    case Take(w) => w < |s.workers| && s.workers[w].Idle? && s.queue != []
    case Finish(w) => w < |s.workers| && s.workers[w].Running?
    case Exit(w) => w < |s.workers| && s.workers[w].Idle? && s.queue == [] && s.producer.Closed?
    case Return => !s.returned && forall w :: 0 <= w < |s.workers| ==> s.workers[w].Exited?
  }

  function Apply(c: Config, s: State, e: Event): State
    requires Enabled(s, e)
  {
    match e
    case Cancel => s.(cancelled := true)
    case Tick => s.(producer := AtSend)
    case Send => s.(producer := Turn(c, s.sent + 1), sent := s.sent + 1, queue := s.queue + [s.sent])
    case GiveUp => s.(producer := Closed)
    case Take(w) =>
      s.(workers := s.workers[w := Running(s.queue[0])], queue := s.queue[1..], started := s.started + [s.queue[0]])
    case Finish(w) => s.(workers := s.workers[w := Idle], finished := s.finished + [s.workers[w].i])
    case Exit(w) => s.(workers := s.workers[w := Exited])
    case Return => s.(returned := true)
  }

  predicate Run(c: Config, s: State, es: seq<Event>)
    decreases |es|
  {
    es == [] || (Enabled(s, es[0]) && Run(c, Apply(c, s, es[0]), es[1..]))
  }

  function End(c: Config, s: State, es: seq<Event>): State
    requires Run(c, s, es)
    decreases |es|
  {
    if es == [] then s else End(c, Apply(c, s, es[0]), es[1..])
  }

  // ------------------------------------------------------------------------------ invariant

  function UpTo(n: nat): (r: seq<nat>) { seq(n, i => i) }

  function Times(xs: seq<nat>, i: nat): nat { multiset(xs)[i] }

  function Held(worker: Worker, i: nat): nat { if worker == Running(i) then 1 else 0 }

  /** How many workers are at index i. */
  function Busy(workers: seq<Worker>, i: nat): nat {
    if workers == [] then 0 else Held(workers[0], i) + Busy(workers[1..], i)
  }

  lemma {:induction false} BusyAfter(workers: seq<Worker>, w: nat, to: Worker, i: nat)
    requires w < |workers|
    ensures Busy(workers[w := to], i) + Held(workers[w], i) == Busy(workers, i) + Held(to, i)
    decreases w
  {
    if w == 0 {
      assert workers[0 := to][1..] == workers[1..];
    } else {
      BusyAfter(workers[1..], w - 1, to, i);
      assert workers[w := to][1..] == workers[1..][w - 1 := to];
    }
  }

  lemma {:induction false} NobodyBusy(workers: seq<Worker>, i: nat)
    requires forall w :: 0 <= w < |workers| ==> !workers[w].Running?
    ensures Busy(workers, i) == 0
  {
    if workers == [] {
    } else {
      NobodyBusy(workers[1..], i);
    }
  }

  predicate ProducerInv(c: Config, s: State) {
    && s.sent <= c.target
    && (!s.producer.Closed? ==> s.sent < c.target)
    && (s.producer.Closed? && !s.cancelled ==> s.sent == c.target)
  }

  predicate WorkersInv(s: State) {
    && (forall w :: 0 <= w < |s.workers| ==> s.workers[w].Exited? ==> s.producer.Closed? && s.queue == [])
    && (s.returned ==> forall w :: 0 <= w < |s.workers| ==> s.workers[w].Exited?)
    && |s.workers| > 0 && |s.queue| <= 1024
  }

  /** What was sent is what was started followed by what is queued; what was started is finished or
      with a worker. */
  ghost predicate LedgerInv(s: State) {
    && s.started + s.queue == UpTo(s.sent)
    && forall i: nat :: Times(s.finished, i) + Busy(s.workers, i) == Times(s.started, i)
  }

  ghost predicate Inv(c: Config, s: State) { ProducerInv(c, s) && WorkersInv(s) && LedgerInv(s) }

  lemma InitInv(c: Config)
    ensures Inv(c, Init(c))
  {
    forall i: nat ensures Busy(Init(c).workers, i) == 0 { NobodyBusy(Init(c).workers, i); }
  }

  lemma SidesStep(c: Config, s: State, e: Event)
    requires Enabled(s, e) && ProducerInv(c, s) && WorkersInv(s)
    ensures ProducerInv(c, Apply(c, s, e)) && WorkersInv(Apply(c, s, e))
  {}

  lemma QueueStep(c: Config, s: State, e: Event)
    requires Enabled(s, e) && s.started + s.queue == UpTo(s.sent)
    ensures var t := Apply(c, s, e); t.started + t.queue == UpTo(t.sent)
  {
    if e.Send? {
      assert UpTo(s.sent + 1) == UpTo(s.sent) + [s.sent];
      assert s.started + (s.queue + [s.sent]) == (s.started + s.queue) + [s.sent];
    } else if e.Take? {
      assert s.started + s.queue == (s.started + [s.queue[0]]) + s.queue[1..];
    }
  }

  lemma CallStep(c: Config, s: State, e: Event, i: nat)
    requires Enabled(s, e) && Times(s.finished, i) + Busy(s.workers, i) == Times(s.started, i)
    ensures var t := Apply(c, s, e); Times(t.finished, i) + Busy(t.workers, i) == Times(t.started, i)
  {
    match e
    case Take(w) => BusyAfter(s.workers, w, Running(s.queue[0]), i);
    case Finish(w) => BusyAfter(s.workers, w, Idle, i);
    case Exit(w) => BusyAfter(s.workers, w, Exited, i);
    case _ =>
  }

  lemma LedgerStep(c: Config, s: State, e: Event)
    requires Enabled(s, e) && LedgerInv(s)
    ensures LedgerInv(Apply(c, s, e))
  {
    QueueStep(c, s, e);
    forall i: nat
      ensures var t := Apply(c, s, e); Times(t.finished, i) + Busy(t.workers, i) == Times(t.started, i)
    {
      CallStep(c, s, e, i);
    }
  }

  lemma {:induction false} RunKeepsInv(c: Config, s: State, es: seq<Event>)
    requires Inv(c, s) && Run(c, s, es)
    ensures Inv(c, End(c, s, es))
    decreases |es|
  {
    if es == [] {
    } else {
      SidesStep(c, s, es[0]);
      LedgerStep(c, s, es[0]);
      RunKeepsInv(c, Apply(c, s, es[0]), es[1..]);
    }
  }

  /** In every interleaving op has been called with 0, 1, 2, ... in this order, so once at most for
      each index. */
  lemma IndicesStartInOrder(c: Config, es: seq<Event>)
    requires Run(c, Init(c), es)
    ensures var s := End(c, Init(c), es);
            s.started == UpTo(|s.started|) && |s.started| <= c.target && |s.queue| <= 1024
  {
    InitInv(c);
    RunKeepsInv(c, Init(c), es);
    var s := End(c, Init(c), es);
    assert s.started == (s.started + s.queue)[..|s.started|];
  }

  /** When runOps returns, the calls that have returned are those for 0..k-1, once each, for some k up
      to the target, and k is the target unless the run was cancelled. */
  lemma ReturnCoversAPrefix(c: Config, es: seq<Event>)
    requires Run(c, Init(c), es) && End(c, Init(c), es).returned
    ensures var s := End(c, Init(c), es);
            && multiset(s.finished) == multiset(UpTo(s.sent)) && s.sent <= c.target
            && (s.cancelled || s.sent == c.target)
  {
    InitInv(c);
    RunKeepsInv(c, Init(c), es);
    var s := End(c, Init(c), es);
    assert s.workers[0].Exited?;
    assert s.started == s.started + s.queue;
    forall i: nat ensures multiset(s.finished)[i] == multiset(s.started)[i] {
      NobodyBusy(s.workers, i);
      assert Times(s.finished, i) + Busy(s.workers, i) == Times(s.started, i);
    }
  }

  // ---------------------------------------------------------------------------- termination

  function Weight(worker: Worker): nat { match worker case Idle => 1 case Running(_) => 2 case Exited => 0 }

  function Weights(workers: seq<Worker>): nat {
    if workers == [] then 0 else Weight(workers[0]) + Weights(workers[1..])
  }

  lemma {:induction false} WeightsAfter(workers: seq<Worker>, w: nat, to: Worker)
    requires w < |workers|
    ensures Weights(workers[w := to]) + Weight(workers[w]) == Weights(workers) + Weight(to)
    decreases w
  {
    if w == 0 {
      assert workers[0 := to][1..] == workers[1..];
    } else {
      WeightsAfter(workers[1..], w - 1, to);
      assert workers[w := to][1..] == workers[1..][w - 1 := to];
    }
  }

  /** An upper bound on the events still to come: four for an index that is not sent yet. */
  function Measure(c: Config, s: State): nat
    requires ProducerInv(c, s)
  {
    (match s.producer
     case AtTick => 4 * (c.target - s.sent) + 1
     case AtSend => 4 * (c.target - s.sent)
     case Closed => 0)
    + 2 * |s.queue| + Weights(s.workers) + (if s.cancelled then 0 else 1) + if s.returned then 0 else 1
  }

  lemma MeasureGoesDown(c: Config, s: State, e: Event)
    requires Enabled(s, e) && ProducerInv(c, s) && ProducerInv(c, Apply(c, s, e))
    ensures Measure(c, Apply(c, s, e)) < Measure(c, s)
  {
    match e
    case Take(w) => WeightsAfter(s.workers, w, Running(s.queue[0]));
    case Finish(w) => WeightsAfter(s.workers, w, Idle);
    case Exit(w) => WeightsAfter(s.workers, w, Exited);
    case _ =>
  }

  lemma {:induction false} RunsAreBounded(c: Config, s: State, es: seq<Event>)
    requires Inv(c, s) && Run(c, s, es)
    ensures |es| <= Measure(c, s)
    decreases |es|
  {
    if es == [] {
    } else {
      SidesStep(c, s, es[0]);
      LedgerStep(c, s, es[0]);
      MeasureGoesDown(c, s, es[0]);
      RunsAreBounded(c, Apply(c, s, es[0]), es[1..]);
    }
  }

  /** Something other than a cancellation can always happen: no deadlock on a full or empty channel. */
  lemma NeverStuck(c: Config, s: State) returns (e: Event)
    requires Inv(c, s) && !s.returned
    ensures Enabled(s, e) && !e.Cancel?
  {
    if w: nat :| w < |s.workers| && s.workers[w].Running? {
      e := Finish(w);
    } else if w: nat :| w < |s.workers| && s.workers[w].Idle? {
      e := if s.queue != [] then Take(w)
           else if s.producer.AtTick? then Tick else if s.producer.AtSend? then Send else Exit(w);
    } else {
      e := Return;
    }
  }

  lemma {:induction false} OnlyCancelCancels(c: Config, s: State, es: seq<Event>)
    requires Run(c, s, es) && !s.cancelled && Cancel !in es
    ensures !End(c, s, es).cancelled
    decreases |es|
  {
    if es == [] {
    } else {
      OnlyCancelCancels(c, Apply(c, s, es[0]), es[1..]);
    }
  }

  /** So an uncancelled run that goes on for as long as it can returns, having called op once for
      every index below the target. */
  lemma UncancelledRunDoesEverything(c: Config, es: seq<Event>)
    requires Run(c, Init(c), es) && Cancel !in es
    requires forall e :: Enabled(End(c, Init(c), es), e) ==> e.Cancel?
    ensures var s := End(c, Init(c), es); s.returned && multiset(s.finished) == multiset(UpTo(c.target))
  {
    InitInv(c);
    RunKeepsInv(c, Init(c), es);
    var s := End(c, Init(c), es);
    if !s.returned {
      var e := NeverStuck(c, s);
    }
    OnlyCancelCancels(c, Init(c), es);
    ReturnCoversAPrefix(c, es);
  }

  // ------------------------------------------------------------------------------ the slots

  datatype Write = Write(i: int, v: int)

  /** The first value other than 0 that was stored to slot i; 0 means that nothing has arrived. */
  function FirstArrival(writes: seq<Write>, i: nat): (v: int) {
    if writes == [] then 0
    else if writes[0].i == i && writes[0].v != 0 then writes[0].v
    else FirstArrival(writes[1..], i)
  }

  lemma {:induction false} FirstArrivalAppend(writes: seq<Write>, w: Write, i: nat)
    ensures FirstArrival(writes + [w], i)
            == if FirstArrival(writes, i) == 0 && w.i == i then w.v else FirstArrival(writes, i)
  {
    if writes == [] {
      assert (writes + [w])[1..] == [];
    } else {
      assert (writes + [w])[1..] == writes[1..] + [w];
      FirstArrivalAppend(writes[1..], w, i);
    }
  }

  /** Zero exactly when nothing but zeros was stored there; otherwise what the first other store was. */
  lemma {:induction false} FirstArrivalIsFirst(writes: seq<Write>, i: nat)
    ensures FirstArrival(writes, i) == 0 <==> forall k :: 0 <= k < |writes| && writes[k].i == i ==> writes[k].v == 0
    ensures FirstArrival(writes, i) != 0 ==>
              exists k :: 0 <= k < |writes| && writes[k] == Write(i, FirstArrival(writes, i))
                          && forall j :: 0 <= j < k && writes[j].i == i ==> writes[j].v == 0
  {
    if writes == [] {
    } else {
      var rest := writes[1..];
      FirstArrivalIsFirst(rest, i);
      assert forall k :: 0 < k < |writes| ==> writes[k] == rest[k - 1];
      if writes[0].i == i && writes[0].v != 0 {
        assert writes[0] == Write(i, FirstArrival(writes, i));
      } else if FirstArrival(writes, i) != 0 {
        var k :| 0 <= k < |rest| && rest[k] == Write(i, FirstArrival(rest, i))
                 && forall j :: 0 <= j < k && rest[j].i == i ==> rest[j].v == 0;
        assert writes[k + 1] == Write(i, FirstArrival(writes, i));
      }
    }
  }

  /** A slice of atomic slots.  Stores are atomic, so any interleaving of them is a sequence. */
  class Slots {
    var slot: seq<int>
    ghost var writes: seq<Write>

    ghost predicate Valid()
      reads this
    {
      forall i :: 0 <= i < |slot| ==> slot[i] == FirstArrival(writes, i)
    }

    constructor (n: nat)
      ensures Valid() && |slot| == n && writes == []
    {
      slot, writes := seq(n, _ => 0), [];
    }

    /** store: out-of-range indices are ignored, and CompareAndSwap(0, v) keeps the first value. */
    method Store(i: int, v: int)
      requires Valid()
      modifies this
      ensures Valid() && |slot| == old(|slot|) && writes == old(writes) + [Write(i, v)]
    {
      forall k | 0 <= k < |slot|
        ensures FirstArrival(writes + [Write(i, v)], k) == if slot[k] == 0 && i == k then v else slot[k]
      {
        FirstArrivalAppend(writes, Write(i, v), k);
      }
      writes := writes + [Write(i, v)];
      if 0 <= i < |slot| && slot[i] == 0 {
        slot := slot[i := v];
      }
    }
  }

  /** allArrived: whether every op has failed or has arrived on both paths. */
  method AllArrived(failed: seq<bool>, direct: Slots, proxy: Slots) returns (all: bool)
    requires direct.Valid() && proxy.Valid() && |failed| == |direct.slot| == |proxy.slot|
    ensures all <==> forall i :: 0 <= i < |failed| ==>
                       failed[i] || (FirstArrival(direct.writes, i) != 0 && FirstArrival(proxy.writes, i) != 0)
  {
    var i := 0;
    while i < |failed|
      invariant i <= |failed|
      invariant forall k :: 0 <= k < i ==>
                  failed[k] || (FirstArrival(direct.writes, k) != 0 && FirstArrival(proxy.writes, k) != 0)
    {
      if !failed[i] && (direct.slot[i] == 0 || proxy.slot[i] == 0) {
        return false;
      }
      i := i + 1;
    }
    all := true;
  }
}
