/** The event bus under interleaved publishers and consumers: bounded queues that drop their
    oldest event, and a counter of drops. Every queue operation and every use of the lock is
    one atomic step. */
module EventDelivery {
  import opened Options

  datatype Event = Event(id: nat, kind: string)

  /** A subscriber's queue, with the history of what was put in and how it left. */
  datatype Mailbox = Mailbox(content: seq<Event>, put: seq<Event>, taken: seq<Event>, evicted: seq<Event>)

  const FRESH: Mailbox := Mailbox([], [], [], [])

  /** Subscriptions by event kind; a subscriber goes by the number of its queue. */
  type Table = map<string, seq<nat>>

  const ALL := "*"

  function Subscribers(table: Table, kind: string): seq<nat> {
    if kind in table then table[kind] else []
  }

  /** The queues an event goes to, with repetitions. */
  function Targets(table: Table, kind: string): seq<nat> {
    Subscribers(table, ALL) + Subscribers(table, kind)
  }

  function Kinds(kinds: seq<string>): seq<string> {
    if kinds == [] then [ALL] else kinds
  }

  function Enrolled(table: Table, kinds: seq<string>, queue: nat): Table {
    if kinds == [] then table
    else
      var before := Enrolled(table, kinds[..|kinds| - 1], queue);
      var kind := kinds[|kinds| - 1];
      before[kind := Subscribers(before, kind) + [queue]]
  }

  function Without(queues: seq<nat>, queue: nat): (r: seq<nat>)
    ensures forall q :: q in r <==> q in queues && q != queue
  {
    if queues == [] then []
    else if queues[0] == queue then Without(queues[1..], queue)
    else [queues[0]] + Without(queues[1..], queue)
  }

  function Withdrawn(table: Table, queue: nat): Table {
    map kind | kind in table && Without(table[kind], queue) != [] :: Without(table[kind], queue)
  }

  /** Where a publisher is with the first of its remaining targets. */
  datatype Stage =
    | Offering                 // about to put the event
    | FoundFull                // the queue was full; about to count a drop
    | Evicting                 // about to take the oldest event out
    | OfferingAgain            // about to put the event once more
    | FoundEmpty | FullAgain   // the event is lost; about to count a drop

  datatype Publication = Publication(event: Event, targets: seq<nat>, stage: Stage)

  datatype Refusal = Refusal(queue: nat, event: Event)

  /** `refused` are the events that never got into a queue, `spurious` counts drops counted twice. */
  datatype Bus = Bus(
    table: Table,
    boxes: seq<Mailbox>,
    dropped: nat,
    publishers: seq<Option<Publication>>,
    refused: seq<Refusal>,
    spurious: nat)

  /** A queue with a capacity of zero or less is unbounded. */
  predicate Full(capacity: int, box: Mailbox) {
    0 < capacity <= |box.content|
  }

  datatype Step =
    | Subscribe(kinds: seq<string>)
    | Unsubscribe(queue: nat)
    | Publish(publisher: nat, event: Event)
    | Move(publisher: nat)
    | Take(queue: nat)

  function Put(box: Mailbox, event: Event): Mailbox {
    box.(content := box.content + [event], put := box.put + [event])
  }

  function Took(box: Mailbox): Mailbox
    requires box.content != []
  {
    box.(content := box.content[1..], taken := box.taken + [box.content[0]])
  }

  function Evicted(box: Mailbox): Mailbox
    requires box.content != []
  {
    box.(content := box.content[1..], evicted := box.evicted + [box.content[0]])
  }

  function AtStage(b: Bus, k: nat, stage: Stage): Bus
    requires k < |b.publishers| && b.publishers[k].Some?
  {
    b.(publishers := b.publishers[k := Some(b.publishers[k].value.(stage := stage))])
  }

  /** Done with the first target. */
  function NextTarget(b: Bus, k: nat): Bus
    requires k < |b.publishers| && b.publishers[k].Some? && b.publishers[k].value.targets != []
  {
    b.(publishers := b.publishers[k := Some(b.publishers[k].value.(targets := b.publishers[k].value.targets[1..], stage := Offering))])
  }

  /** One atomic action of a publisher. */
  function Moved(capacity: int, b: Bus, k: nat): Bus
    requires k < |b.publishers| && b.publishers[k].Some?
  {
    var p := b.publishers[k].value;
    if p.targets == [] then b.(publishers := b.publishers[k := None])
    else if p.targets[0] >= |b.boxes| then b
    else
      var q, box := p.targets[0], b.boxes[p.targets[0]];
      match p.stage
      case Offering =>
        if Full(capacity, box) then AtStage(b, k, FoundFull)
        else NextTarget(b.(boxes := b.boxes[q := Put(box, p.event)]), k)
      case FoundFull => AtStage(b.(dropped := b.dropped + 1), k, Evicting)
      case Evicting =>
        if box.content == [] then AtStage(b.(refused := b.refused + [Refusal(q, p.event)]), k, FoundEmpty)
        else AtStage(b.(boxes := b.boxes[q := Evicted(box)]), k, OfferingAgain)
      case OfferingAgain =>
        if Full(capacity, box) then AtStage(b.(refused := b.refused + [Refusal(q, p.event)]), k, FullAgain)
        else NextTarget(b.(boxes := b.boxes[q := Put(box, p.event)]), k)
      case FoundEmpty => NextTarget(b.(dropped := b.dropped + 1, spurious := b.spurious + 1), k)
      case FullAgain => NextTarget(b.(dropped := b.dropped + 1), k)
  }

  function Apply(capacity: int, b: Bus, step: Step): Bus {
    match step
    case Subscribe(kinds) => b.(table := Enrolled(b.table, Kinds(kinds), |b.boxes|), boxes := b.boxes + [FRESH])
    case Unsubscribe(queue) => b.(table := Withdrawn(b.table, queue))
    case Publish(k, event) =>
      if k < |b.publishers| && b.publishers[k].None? then
        b.(publishers := b.publishers[k := Some(Publication(event, Targets(b.table, event.kind), Offering))])
      else b
    case Move(k) => if k < |b.publishers| && b.publishers[k].Some? then Moved(capacity, b, k) else b
    case Take(queue) =>
      if queue < |b.boxes| && b.boxes[queue].content != [] then b.(boxes := b.boxes[queue := Took(b.boxes[queue])]) else b
  }

  function Run(capacity: int, b: Bus, steps: seq<Step>): Bus {
    if steps == [] then b else Apply(capacity, Run(capacity, b, steps[..|steps| - 1]), steps[|steps| - 1])
  }

  /** A bus without subscribers, shared by a number of publishing threads. */
  function Idle(threads: nat): Bus {
    Bus(map[], [], 0, seq(threads, _ => None), [], 0)
  }

  // ------------------------------------------------------------------ counting

  function TotalEvicted(boxes: seq<Mailbox>): nat {
    if boxes == [] then 0 else TotalEvicted(boxes[..|boxes| - 1]) + |boxes[|boxes| - 1].evicted|
  }

  /** Publishers at a stage. */
  function CountAt(publishers: seq<Option<Publication>>, stage: Stage): nat {
    if publishers == [] then 0
    else
      var p := publishers[|publishers| - 1];
      CountAt(publishers[..|publishers| - 1], stage) + (if p.Some? && p.value.targets != [] && p.value.stage == stage then 1 else 0)
  }

  /** Events that were evicted or refused, and will never be taken. */
  function Lost(b: Bus): nat {
    TotalEvicted(b.boxes) + |b.refused|
  }

  /** The drop counter accounts for every lost event; it is ahead of losses still to come and of
      drops counted twice, and behind losses about to be counted. */
  predicate Accounted(b: Bus) {
    b.dropped + CountAt(b.publishers, FullAgain) == Lost(b) + b.spurious + CountAt(b.publishers, Evicting)
  }

  lemma {:induction false} EvictedChange(boxes: seq<Mailbox>, q: nat, box: Mailbox)
    requires q < |boxes|
    ensures TotalEvicted(boxes[q := box]) == TotalEvicted(boxes) - |boxes[q].evicted| + |box.evicted|
  {
    var n := |boxes| - 1;
    if q < n {
      EvictedChange(boxes[..n], q, box);
      assert boxes[q := box][..n] == boxes[..n][q := box];
    } else {
      assert boxes[q := box][..n] == boxes[..n];
    }
  }

  function At(p: Option<Publication>, stage: Stage): nat {
    if p.Some? && p.value.targets != [] && p.value.stage == stage then 1 else 0
  }

  lemma {:induction false} CountChange(publishers: seq<Option<Publication>>, k: nat, p: Option<Publication>, stage: Stage)
    requires k < |publishers|
    ensures CountAt(publishers[k := p], stage) == CountAt(publishers, stage) - At(publishers[k], stage) + At(p, stage)
  {
    var n := |publishers| - 1;
    if k < n {
      CountChange(publishers[..n], k, p, stage);
      assert publishers[k := p][..n] == publishers[..n][k := p];
    } else {
      assert publishers[k := p][..n] == publishers[..n];
    }
  }

  predicate Known(queues: seq<nat>, n: nat) {
    forall i :: 0 <= i < |queues| ==> queues[i] < n
  }

  predicate TableKnown(table: Table, n: nat) {
    forall kind :: kind in table ==> Known(table[kind], n)
  }

  /** Targets are known queues, and no queue holds more than its capacity. */
  predicate Sound(capacity: int, b: Bus) {
    && (forall k :: 0 <= k < |b.publishers| && b.publishers[k].Some? ==> Known(b.publishers[k].value.targets, |b.boxes|))
    && TableKnown(b.table, |b.boxes|)
    && (forall q :: 0 <= q < |b.boxes| && 0 < capacity ==> |b.boxes[q].content| <= capacity)
  }

  lemma {:induction false} EnrolledKnown(table: Table, kinds: seq<string>, queue: nat, n: nat)
    requires queue < n && TableKnown(table, n)
    ensures TableKnown(Enrolled(table, kinds, queue), n)
  {
    if kinds != [] {
      EnrolledKnown(table, kinds[..|kinds| - 1], queue, n);
      var before, kind := Enrolled(table, kinds[..|kinds| - 1], queue), kinds[|kinds| - 1];
      assert Known(Subscribers(before, kind) + [queue], n);
    }
  }

  lemma {:induction false} WithoutKnown(queues: seq<nat>, queue: nat, n: nat)
    requires Known(queues, n)
    ensures Known(Without(queues, queue), n)
  {
    if queues != [] {
      WithoutKnown(queues[1..], queue, n);
    }
  }

  lemma WithdrawnKnown(table: Table, queue: nat, n: nat)
    requires TableKnown(table, n)
    ensures TableKnown(Withdrawn(table, queue), n)
  {
    forall kind | kind in Withdrawn(table, queue) ensures Known(Withdrawn(table, queue)[kind], n) {
      WithoutKnown(table[kind], queue, n);
    }
  }

  lemma MoveSound(capacity: int, b: Bus, k: nat)
    requires Sound(capacity, b) && k < |b.publishers| && b.publishers[k].Some?
    ensures Sound(capacity, Moved(capacity, b, k))
  {
    var p := b.publishers[k].value;
    if p.targets != [] {
      assert p.targets[0] < |b.boxes|;
    }
  }

  lemma StepSound(capacity: int, b: Bus, step: Step)
    requires Sound(capacity, b)
    ensures Sound(capacity, Apply(capacity, b, step))
  {
    match step
    case Subscribe(kinds) =>
      assert TableKnown(b.table, |b.boxes| + 1);
      EnrolledKnown(b.table, Kinds(kinds), |b.boxes|, |b.boxes| + 1);
    case Unsubscribe(queue) => WithdrawnKnown(b.table, queue, |b.boxes|);
    case Move(k) =>
      if k < |b.publishers| && b.publishers[k].Some? {
        MoveSound(capacity, b, k);
      }
    case _ =>
  }

  lemma {:induction false} NobodyPublishes(publishers: seq<Option<Publication>>, stage: Stage)
    requires forall k :: 0 <= k < |publishers| ==> publishers[k].None?
    ensures CountAt(publishers, stage) == 0
  {
    if publishers != [] {
      NobodyPublishes(publishers[..|publishers| - 1], stage);
    }
  }

  lemma MoveAccounted(capacity: int, b: Bus, k: nat)
    requires Sound(capacity, b) && Accounted(b) && k < |b.publishers| && b.publishers[k].Some?
    ensures Accounted(Moved(capacity, b, k))
  {
    var b1 := Moved(capacity, b, k);
    CountChange(b.publishers, k, b1.publishers[k], FullAgain);
    CountChange(b.publishers, k, b1.publishers[k], Evicting);
    var p := b.publishers[k].value;
    if p.targets != [] {
      var q := p.targets[0];
      assert q < |b.boxes|;
      EvictedChange(b.boxes, q, b1.boxes[q]);
      assert b1.boxes == b.boxes[q := b1.boxes[q]];
    }
    assert b1.publishers == b.publishers[k := b1.publishers[k]];
    hide CountAt;
    hide TotalEvicted;
    match p.stage
    case Offering =>
    case FoundFull =>
    case Evicting =>
    case OfferingAgain =>
    case FoundEmpty =>
    case FullAgain =>
  }

  lemma StepAccounted(capacity: int, b: Bus, step: Step)
    requires Sound(capacity, b) && Accounted(b)
    ensures Accounted(Apply(capacity, b, step))
  {
    match step
    case Subscribe(kinds) =>
      assert (b.boxes + [FRESH])[..|b.boxes|] == b.boxes;
    case Publish(k, event) =>
      if k < |b.publishers| && b.publishers[k].None? {
        var p := Some(Publication(event, Targets(b.table, event.kind), Offering));
        CountChange(b.publishers, k, p, FullAgain);
        CountChange(b.publishers, k, p, Evicting);
      }
    case Move(k) =>
      if k < |b.publishers| && b.publishers[k].Some? {
        MoveAccounted(capacity, b, k);
      }
      hide Moved;
    case Take(q) =>
      if q < |b.boxes| && b.boxes[q].content != [] {
        EvictedChange(b.boxes, q, Took(b.boxes[q]));
      }
    case _ =>
  }

  /** Over every interleaving of subscribers, publishers and consumers the queues stay within their
      capacity and the drop counter accounts for every lost event. */
  lemma {:induction false} AlwaysAccounted(capacity: int, threads: nat, steps: seq<Step>)
    ensures var b := Run(capacity, Idle(threads), steps); Sound(capacity, b) && Accounted(b)
  {
    hide Sound;
    hide Accounted;
    hide Apply;
    if steps != [] {
      var n := |steps| - 1;
      AlwaysAccounted(capacity, threads, steps[..n]);
      StepSound(capacity, Run(capacity, Idle(threads), steps[..n]), steps[n]);
      StepAccounted(capacity, Run(capacity, Idle(threads), steps[..n]), steps[n]);
    } else {
      IdleAccounted(capacity, threads);
    }
  }

  lemma IdleAccounted(capacity: int, threads: nat)
    ensures Sound(capacity, Idle(threads)) && Accounted(Idle(threads))
  {
    NobodyPublishes(Idle(threads).publishers, FullAgain);
    NobodyPublishes(Idle(threads).publishers, Evicting);
  }

  lemma {:induction false} NobodyAt(publishers: seq<Option<Publication>>, stage: Stage)
    requires forall k :: 0 <= k < |publishers| && publishers[k].Some? ==> publishers[k].value.stage != stage
    ensures CountAt(publishers, stage) == 0
  {
    if publishers != [] {
      NobodyAt(publishers[..|publishers| - 1], stage);
    }
  }

  // ------------------------------------------------------------------ order

  predicate Subsequence<T(==)>(a: seq<T>, b: seq<T>) {
    || a == []
    || (b != [] && (|| Subsequence(a, b[..|b| - 1])
                    || (a[|a| - 1] == b[|b| - 1] && Subsequence(a[..|a| - 1], b[..|b| - 1]))))
  }

  lemma AppendBoth<T>(a: seq<T>, b: seq<T>, x: T)
    requires Subsequence(a, b)
    ensures Subsequence(a + [x], b + [x])
  {
    assert (a + [x])[..|a|] == a && (b + [x])[..|b|] == b;
  }

  lemma AppendOne<T>(a: seq<T>, b: seq<T>, x: T)
    requires Subsequence(a, b)
    ensures Subsequence(a, b + [x])
  {
    assert (b + [x])[..|b|] == b;
  }

  lemma {:induction false} RemoveOne<T>(a: seq<T>, b: seq<T>, i: nat)
    requires Subsequence(a, b) && i < |a|
    ensures Subsequence(a[..i] + a[i + 1..], b)
    decreases |b|
  {
    var c, n := b[..|b| - 1], |a| - 1;
    if Subsequence(a, c) {
      RemoveOne(a, c, i);
    } else if i == n {
      assert a[..i] + a[i + 1..] == a[..n];
      WeakenRight(a[..n], b);
    } else {
      RemoveOne(a[..n], c, i);
      assert a[..n][..i] + a[..n][i + 1..] == (a[..i] + a[i + 1..])[..n - 1];
      assert (a[..i] + a[i + 1..])[n - 1] == a[n];
    }
  }

  lemma WeakenRight<T>(a: seq<T>, b: seq<T>)
    requires b != [] && Subsequence(a, b[..|b| - 1])
    ensures Subsequence(a, b)
  {
  }

  /** What a subscriber has taken, and then what is waiting for it. */
  function Delivered(box: Mailbox): seq<Event> {
    box.taken + box.content
  }

  /** Events reach a subscriber in the order in which they were put into its queue, and every one
      of them was taken, is waiting, or was evicted. */
  predicate FirstInFirstOut(box: Mailbox) {
    && Subsequence(Delivered(box), box.put)
    && |box.put| == |box.taken| + |box.content| + |box.evicted|
  }

  lemma PutInOrder(box: Mailbox, event: Event)
    requires FirstInFirstOut(box)
    ensures FirstInFirstOut(Put(box, event))
  {
    AppendBoth(Delivered(box), box.put, event);
    assert Delivered(Put(box, event)) == Delivered(box) + [event];
  }

  lemma TookInOrder(box: Mailbox)
    requires FirstInFirstOut(box) && box.content != []
    ensures FirstInFirstOut(Took(box))
  {
    assert Delivered(Took(box)) == Delivered(box);
  }

  lemma EvictedInOrder(box: Mailbox)
    requires FirstInFirstOut(box) && box.content != []
    ensures FirstInFirstOut(Evicted(box))
  {
    var i := |box.taken|;
    RemoveOne(Delivered(box), box.put, i);
    assert Delivered(Evicted(box)) == Delivered(box)[..i] + Delivered(box)[i + 1..];
  }

  predicate AllInOrder(boxes: seq<Mailbox>) {
    forall q :: 0 <= q < |boxes| ==> FirstInFirstOut(boxes[q])
  }

  lemma StepInOrder(capacity: int, b: Bus, step: Step)
    requires AllInOrder(b.boxes)
    ensures AllInOrder(Apply(capacity, b, step).boxes)
  {
    match step
    case Move(k) =>
      if k < |b.publishers| && b.publishers[k].Some? {
        var p := b.publishers[k].value;
        if p.targets != [] && p.targets[0] < |b.boxes| {
          var box := b.boxes[p.targets[0]];
          PutInOrder(box, p.event);
          if box.content != [] {
            EvictedInOrder(box);
          }
        }
      }
    case Take(q) =>
      if q < |b.boxes| && b.boxes[q].content != [] {
        TookInOrder(b.boxes[q]);
      }
    case _ =>
    hide FirstInFirstOut;
  }

  /** Whatever the interleaving, every queue is first in, first out, and nothing leaves it unseen. */
  lemma {:induction false} AlwaysInOrder(capacity: int, threads: nat, steps: seq<Step>)
    ensures AllInOrder(Run(capacity, Idle(threads), steps).boxes)
  {
    hide Apply;
    hide FirstInFirstOut;
    if steps != [] {
      var n := |steps| - 1;
      AlwaysInOrder(capacity, threads, steps[..n]);
      StepInOrder(capacity, Run(capacity, Idle(threads), steps[..n]), steps[n]);
    }
  }
}
