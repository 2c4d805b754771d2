/** What becomes of every event that is addressed to a queue: it was taken, waits, is on its way,
    was evicted, or was refused; and the drop counter covers the last two. */
module EventAccounting {
  import opened Options
  import opened EventDelivery
  import EventOrder

  /** Any choice of events by the queue they are addressed to. */
  type Choice = (nat, Event) -> bool

  const ANY: Choice := (queue, event) => true

  function One(which: Choice, queue: nat, event: Event): nat {
    if which(queue, event) then 1 else 0
  }

  // ------------------------------------------------------------------ what is addressed

  function ToTargets(targets: seq<nat>, event: Event, which: Choice): nat {
    if targets == [] then 0 else One(which, targets[0], event) + ToTargets(targets[1..], event, which)
  }

  /** Events addressed by a step: a publication that is begun is for all its targets. */
  function AddressedBy(b: Bus, step: Step, which: Choice): nat {
    if step.Publish? && step.publisher < |b.publishers| && b.publishers[step.publisher].None? then
      ToTargets(Targets(b.table, step.event.kind), step.event, which)
    else 0
  }

  function Addressed(capacity: int, b: Bus, steps: seq<Step>, which: Choice): nat {
    if steps == [] then 0
    else
      var n := |steps| - 1;
      Addressed(capacity, b, steps[..n], which) + AddressedBy(Run(capacity, b, steps[..n]), steps[n], which)
  }

  // ------------------------------------------------------------------ what becomes of it

  datatype Fate = WasTaken | Waits | WasEvicted

  function Share(box: Mailbox, fate: Fate): seq<Event> {
    match fate case WasTaken => box.taken case Waits => box.content case WasEvicted => box.evicted
  }

  function InQueue(events: seq<Event>, queue: nat, which: Choice): nat {
    if events == [] then 0
    else InQueue(events[..|events| - 1], queue, which) + One(which, queue, events[|events| - 1])
  }

  /** Events that met a fate, over all queues. */
  function Met(boxes: seq<Mailbox>, fate: Fate, which: Choice): nat {
    if boxes == [] then 0
    else
      var q := |boxes| - 1;
      Met(boxes[..q], fate, which) + InQueue(Share(boxes[q], fate), q, which)
  }

  function Refused(refused: seq<Refusal>, which: Choice): nat {
    if refused == [] then 0
    else
      var last := refused[|refused| - 1];
      Refused(refused[..|refused| - 1], which) + One(which, last.queue, last.event)
  }

  /** Targets the event has still to reach; it was refused by the first one if only the count is left. */
  function Unreached(p: Publication): seq<nat> {
    if p.targets != [] && p.stage in {FoundEmpty, FullAgain} then p.targets[1..] else p.targets
  }

  function OnItsWay(p: Option<Publication>, which: Choice): nat {
    if p.Some? then ToTargets(Unreached(p.value), p.value.event, which) else 0
  }

  function Ahead(publishers: seq<Option<Publication>>, which: Choice): nat {
    if publishers == [] then 0
    else Ahead(publishers[..|publishers| - 1], which) + OnItsWay(publishers[|publishers| - 1], which)
  }

  function Arrived(boxes: seq<Mailbox>, which: Choice): nat {
    Met(boxes, WasTaken, which) + Met(boxes, Waits, which) + Met(boxes, WasEvicted, which)
  }

  /** Everything addressed arrived in its queue, was refused by it, or is on its way. */
  predicate Balanced(b: Bus, addressed: nat, which: Choice) {
    addressed == Arrived(b.boxes, which) + Refused(b.refused, which) + Ahead(b.publishers, which)
  }

  // ------------------------------------------------------------------ single changes

  lemma {:induction false} MetChange(boxes: seq<Mailbox>, q: nat, box: Mailbox, fate: Fate, which: Choice)
    requires q < |boxes|
    ensures Met(boxes[q := box], fate, which)
      == Met(boxes, fate, which) - InQueue(Share(boxes[q], fate), q, which) + InQueue(Share(box, fate), q, which)
  {
    var n := |boxes| - 1;
    if q < n {
      MetChange(boxes[..n], q, box, fate, which);
      assert boxes[q := box][..n] == boxes[..n][q := box];
    } else {
      assert boxes[q := box][..n] == boxes[..n];
    }
  }

  function InBox(box: Mailbox, q: nat, which: Choice): nat {
    InQueue(box.taken, q, which) + InQueue(box.content, q, which) + InQueue(box.evicted, q, which)
  }

  lemma ArrivedChange(boxes: seq<Mailbox>, q: nat, box: Mailbox, which: Choice)
    requires q < |boxes|
    ensures Arrived(boxes[q := box], which) == Arrived(boxes, which) - InBox(boxes[q], q, which) + InBox(box, q, which)
  {
    MetChange(boxes, q, box, WasTaken, which);
    MetChange(boxes, q, box, Waits, which);
    MetChange(boxes, q, box, WasEvicted, which);
    hide Met;
    hide InQueue;
  }

  lemma {:induction false} AheadChange(publishers: seq<Option<Publication>>, k: nat, p: Option<Publication>, which: Choice)
    requires k < |publishers|
    ensures Ahead(publishers[k := p], which) == Ahead(publishers, which) - OnItsWay(publishers[k], which) + OnItsWay(p, which)
  {
    hide OnItsWay;
    var n := |publishers| - 1;
    if k < n {
      AheadChange(publishers[..n], k, p, which);
      assert publishers[k := p][..n] == publishers[..n][k := p];
    } else {
      assert publishers[k := p][..n] == publishers[..n];
    }
  }

  lemma InQueueMore(events: seq<Event>, event: Event, q: nat, which: Choice)
    ensures InQueue(events + [event], q, which) == InQueue(events, q, which) + One(which, q, event)
  {
    assert (events + [event])[..|events|] == events;
  }

  lemma {:induction false} InQueueFirst(events: seq<Event>, q: nat, which: Choice)
    requires events != []
    ensures InQueue(events, q, which) == One(which, q, events[0]) + InQueue(events[1..], q, which)
  {
    var n := |events| - 1;
    if n > 0 {
      InQueueFirst(events[..n], q, which);
      assert events[..n][1..] == events[1..][..n - 1];
    } else {
      assert events[..0] == events[1..];
    }
  }

  lemma PutArrives(box: Mailbox, event: Event, q: nat, which: Choice)
    ensures InBox(Put(box, event), q, which) == InBox(box, q, which) + One(which, q, event)
  {
    InQueueMore(box.content, event, q, which);
  }

  lemma TookStays(box: Mailbox, q: nat, which: Choice)
    requires box.content != []
    ensures InBox(Took(box), q, which) == InBox(box, q, which)
  {
    InQueueFirst(box.content, q, which);
    InQueueMore(box.taken, box.content[0], q, which);
    hide InQueue;
  }

  lemma EvictedStays(box: Mailbox, q: nat, which: Choice)
    requires box.content != []
    ensures InBox(Evicted(box), q, which) == InBox(box, q, which)
  {
    InQueueFirst(box.content, q, which);
    InQueueMore(box.evicted, box.content[0], q, which);
    hide InQueue;
  }

  // ------------------------------------------------------------------ moves

  /** A change of stage that keeps what is still to be reached. */
  lemma StageBalanced(b: Bus, k: nat, stage: Stage, addressed: nat, which: Choice)
    requires k < |b.publishers| && b.publishers[k].Some? && Balanced(b, addressed, which)
    requires Unreached(b.publishers[k].value.(stage := stage)) == Unreached(b.publishers[k].value)
    ensures Balanced(AtStage(b, k, stage), addressed, which)
  {
    AheadChange(b.publishers, k, Some(b.publishers[k].value.(stage := stage)), which);
    hide Ahead;
    hide Arrived;
    hide Refused;
  }

  /** The event is put into the queue of its first target. */
  lemma PutBalanced(b: Bus, k: nat, addressed: nat, which: Choice)
    requires k < |b.publishers| && b.publishers[k].Some? && Balanced(b, addressed, which)
    requires var p := b.publishers[k].value; p.targets != [] && p.targets[0] < |b.boxes| && p.stage in {Offering, OfferingAgain}
    ensures var p := b.publishers[k].value; var q := p.targets[0];
      Balanced(NextTarget(b.(boxes := b.boxes[q := Put(b.boxes[q], p.event)]), k), addressed, which)
  {
    var p := b.publishers[k].value;
    var q := p.targets[0];
    hide Ahead;
    hide Arrived;
    hide Refused;
    hide InBox;
    hide Put;
    var rest := p.(targets := p.targets[1..], stage := Offering);
    PutArrives(b.boxes[q], p.event, q, which);
    ArrivedChange(b.boxes, q, Put(b.boxes[q], p.event), which);
    AheadChange(b.publishers, k, Some(rest), which);
    assert OnItsWay(Some(p), which) == One(which, q, p.event) + OnItsWay(Some(rest), which);
    hide OnItsWay;
    hide One;
  }

  /** The first target refuses the event. */
  lemma RefusalBalanced(b: Bus, k: nat, stage: Stage, addressed: nat, which: Choice)
    requires k < |b.publishers| && b.publishers[k].Some? && Balanced(b, addressed, which)
    requires var p := b.publishers[k].value; p.targets != [] && p.stage in {Evicting, OfferingAgain} && stage in {FoundEmpty, FullAgain}
    ensures var p := b.publishers[k].value;
      Balanced(AtStage(b.(refused := b.refused + [Refusal(p.targets[0], p.event)]), k, stage), addressed, which)
  {
    var p := b.publishers[k].value;
    AheadChange(b.publishers, k, Some(p.(stage := stage)), which);
    assert (b.refused + [Refusal(p.targets[0], p.event)])[..|b.refused|] == b.refused;
    hide Ahead;
    hide Arrived;
  }

  /** The oldest event of the first target's queue makes room. */
  lemma EvictionBalanced(b: Bus, k: nat, addressed: nat, which: Choice)
    requires k < |b.publishers| && b.publishers[k].Some? && Balanced(b, addressed, which)
    requires var p := b.publishers[k].value;
      p.targets != [] && p.targets[0] < |b.boxes| && p.stage == Evicting && b.boxes[p.targets[0]].content != []
    ensures var q := b.publishers[k].value.targets[0];
      Balanced(AtStage(b.(boxes := b.boxes[q := Evicted(b.boxes[q])]), k, OfferingAgain), addressed, which)
  {
    var q := b.publishers[k].value.targets[0];
    var b1 := b.(boxes := b.boxes[q := Evicted(b.boxes[q])]);
    EvictedStays(b.boxes[q], q, which);
    ArrivedChange(b.boxes, q, Evicted(b.boxes[q]), which);
    StageBalanced(b1, k, OfferingAgain, addressed, which);
    hide Arrived;
    hide InBox;
    hide Evicted;
  }

  /** Nothing but the count of the refusal was left to do for the first target. */
  lemma CountedBalanced(b: Bus, k: nat, addressed: nat, which: Choice)
    requires k < |b.publishers| && b.publishers[k].Some? && Balanced(b, addressed, which)
    requires var p := b.publishers[k].value; p.targets != [] && p.stage in {FoundEmpty, FullAgain}
    ensures Balanced(NextTarget(b, k), addressed, which)
  {
    var p := b.publishers[k].value;
    AheadChange(b.publishers, k, Some(p.(targets := p.targets[1..], stage := Offering)), which);
    hide Ahead;
    hide Arrived;
    hide Refused;
  }

  lemma MoveBalanced(capacity: int, b: Bus, k: nat, addressed: nat, which: Choice)
    requires k < |b.publishers| && b.publishers[k].Some? && Balanced(b, addressed, which)
    ensures Balanced(Moved(capacity, b, k), addressed, which)
  {
    var p := b.publishers[k].value;
    if p.targets == [] {
      AheadChange(b.publishers, k, None, which);
      hide Ahead;
    } else if p.targets[0] < |b.boxes| {
      var q, box := p.targets[0], b.boxes[p.targets[0]];
      match p.stage
      case Offering =>
        if Full(capacity, box) {
          StageBalanced(b, k, FoundFull, addressed, which);
        } else {
          PutBalanced(b, k, addressed, which);
        }
        hide Balanced;
      case FoundFull =>
        StageBalanced(b.(dropped := b.dropped + 1), k, Evicting, addressed, which);
        hide Ahead;
      case Evicting =>
        if box.content == [] {
          RefusalBalanced(b, k, FoundEmpty, addressed, which);
        } else {
          EvictionBalanced(b, k, addressed, which);
        }
        hide Balanced;
      case OfferingAgain =>
        if Full(capacity, box) {
          RefusalBalanced(b, k, FullAgain, addressed, which);
        } else {
          PutBalanced(b, k, addressed, which);
        }
        hide Balanced;
      case FoundEmpty =>
        CountedBalanced(b.(dropped := b.dropped + 1, spurious := b.spurious + 1), k, addressed, which);
        hide Ahead;
      case FullAgain =>
        CountedBalanced(b.(dropped := b.dropped + 1), k, addressed, which);
        hide Ahead;
    }
  }

  lemma SubscriptionBalanced(capacity: int, b: Bus, kinds: seq<string>, addressed: nat, which: Choice)
    requires Balanced(b, addressed, which)
    ensures Balanced(Apply(capacity, b, Subscribe(kinds)), addressed, which)
  {
    assert (b.boxes + [FRESH])[..|b.boxes|] == b.boxes;
    hide Ahead;
    hide Refused;
    hide Enrolled;
  }

  lemma PublicationBalanced(capacity: int, b: Bus, k: nat, event: Event, addressed: nat, which: Choice)
    requires Balanced(b, addressed, which)
    ensures Balanced(Apply(capacity, b, Publish(k, event)), addressed + AddressedBy(b, Publish(k, event), which), which)
  {
    if k < |b.publishers| && b.publishers[k].None? {
      AheadChange(b.publishers, k, Some(Publication(event, Targets(b.table, event.kind), Offering)), which);
    }
    hide Ahead;
    hide Arrived;
    hide Refused;
    hide Targets;
  }

  lemma TakingBalanced(capacity: int, b: Bus, q: nat, addressed: nat, which: Choice)
    requires Balanced(b, addressed, which)
    ensures Balanced(Apply(capacity, b, Take(q)), addressed, which)
  {
    if q < |b.boxes| && b.boxes[q].content != [] {
      TookStays(b.boxes[q], q, which);
      ArrivedChange(b.boxes, q, Took(b.boxes[q]), which);
    }
    hide Ahead;
    hide Arrived;
    hide Refused;
    hide InBox;
    hide Took;
  }

  lemma StepBalanced(capacity: int, b: Bus, step: Step, addressed: nat, which: Choice)
    requires Balanced(b, addressed, which)
    ensures Balanced(Apply(capacity, b, step), addressed + AddressedBy(b, step, which), which)
  {
    match step
    case Subscribe(kinds) =>
      SubscriptionBalanced(capacity, b, kinds, addressed, which);
      hide Apply;
      hide Balanced;
    case Unsubscribe(_) =>
      hide Arrived;
      hide Ahead;
      hide Refused;
    case Publish(k, event) =>
      PublicationBalanced(capacity, b, k, event, addressed, which);
      hide Apply;
      hide Balanced;
    case Move(k) =>
      if k < |b.publishers| && b.publishers[k].Some? {
        MoveBalanced(capacity, b, k, addressed, which);
      }
      hide Balanced;
      hide Moved;
    case Take(q) =>
      TakingBalanced(capacity, b, q, addressed, which);
      hide Apply;
      hide Balanced;
  }

  lemma {:induction false} NobodyAhead(publishers: seq<Option<Publication>>, which: Choice)
    requires forall k :: 0 <= k < |publishers| ==> publishers[k].None?
    ensures Ahead(publishers, which) == 0
  {
    if publishers != [] {
      NobodyAhead(publishers[..|publishers| - 1], which);
    }
  }

  /** Conservation: over every interleaving, and for any choice of events by queue, every event addressed
      to a queue was taken from it, waits in it, was evicted from it, was refused by it, or is on its way. */
  lemma {:induction false} EveryEventAccounted(capacity: int, threads: nat, steps: seq<Step>, which: Choice)
    ensures var b := Run(capacity, Idle(threads), steps);
      Addressed(capacity, Idle(threads), steps, which)
      == Met(b.boxes, WasTaken, which) + Met(b.boxes, Waits, which) + Met(b.boxes, WasEvicted, which)
         + Refused(b.refused, which) + Ahead(b.publishers, which)
  {
    hide Apply;
    hide Met;
    hide Refused;
    hide Ahead;
    hide AddressedBy;
    var b := Run(capacity, Idle(threads), steps);
    assert Balanced(b, Addressed(capacity, Idle(threads), steps, which), which) by {
      if steps != [] {
        var n := |steps| - 1;
        EveryEventAccounted(capacity, threads, steps[..n], which);
        StepBalanced(capacity, Run(capacity, Idle(threads), steps[..n]), steps[n], Addressed(capacity, Idle(threads), steps[..n], which), which);
      } else {
        NothingAddressed(threads, which);
      }
    }
  }

  lemma NothingAddressed(threads: nat, which: Choice)
    ensures Balanced(Idle(threads), 0, which)
  {
    NobodyAhead(Idle(threads).publishers, which);
  }

  // ------------------------------------------------------------------ the drop counter

  lemma {:induction false} AllInQueue(events: seq<Event>, queue: nat)
    ensures InQueue(events, queue, ANY) == |events|
  {
    if events != [] {
      AllInQueue(events[..|events| - 1], queue);
    }
  }

  lemma {:induction false} AllEvicted(boxes: seq<Mailbox>)
    ensures Met(boxes, WasEvicted, ANY) == TotalEvicted(boxes)
  {
    if boxes != [] {
      var q := |boxes| - 1;
      AllEvicted(boxes[..q]);
      AllInQueue(boxes[q].evicted, q);
    }
  }

  lemma {:induction false} AllRefused(refused: seq<Refusal>)
    ensures Refused(refused, ANY) == |refused|
  {
    if refused != [] {
      AllRefused(refused[..|refused| - 1]);
    }
  }

  /** Events addressed to a queue that were not taken, do not wait, and are not on their way. */
  function Missing(capacity: int, threads: nat, steps: seq<Step>): int {
    var b := Run(capacity, Idle(threads), steps);
    Addressed(capacity, Idle(threads), steps, ANY) - Met(b.boxes, WasTaken, ANY) - Met(b.boxes, Waits, ANY) - Ahead(b.publishers, ANY)
  }

  lemma MissingIsLost(capacity: int, threads: nat, steps: seq<Step>)
    ensures Missing(capacity, threads, steps) == Lost(Run(capacity, Idle(threads), steps))
  {
    var b := Run(capacity, Idle(threads), steps);
    EveryEventAccounted(capacity, threads, steps, ANY);
    AllEvicted(b.boxes);
    AllRefused(b.refused);
    hide Run;
    hide Addressed;
  }

  /** A drop is counted twice only for an event that was refused. */
  predicate CountedTwice(b: Bus) {
    b.spurious + CountAt(b.publishers, FoundEmpty) <= |b.refused|
  }

  lemma MoveCountedTwice(capacity: int, b: Bus, k: nat)
    requires k < |b.publishers| && b.publishers[k].Some? && CountedTwice(b)
    ensures CountedTwice(Moved(capacity, b, k))
  {
    var b1 := Moved(capacity, b, k);
    CountChange(b.publishers, k, b1.publishers[k], FoundEmpty);
    assert b1.publishers == b.publishers[k := b1.publishers[k]];
    hide CountAt;
  }

  lemma {:induction false} AlwaysCountedTwice(capacity: int, threads: nat, steps: seq<Step>)
    ensures CountedTwice(Run(capacity, Idle(threads), steps))
  {
    if steps != [] {
      var n := |steps| - 1;
      var b, step := Run(capacity, Idle(threads), steps[..n]), steps[n];
      AlwaysCountedTwice(capacity, threads, steps[..n]);
      match step
      case Publish(k, event) =>
        if k < |b.publishers| && b.publishers[k].None? {
          CountChange(b.publishers, k, Some(Publication(event, Targets(b.table, event.kind), Offering)), FoundEmpty);
        }
        hide CountAt;
      case Move(k) =>
        if k < |b.publishers| && b.publishers[k].Some? {
          MoveCountedTwice(capacity, b, k);
        }
        hide CountedTwice;
        hide Moved;
      case _ =>
        hide CountAt;
    } else {
      NobodyPublishes(Idle(threads).publishers, FoundEmpty);
    }
  }

  /** Whenever no publisher is just about to count a drop, at least as many drops have been counted
      as addressed events are missing; between publications the difference is what was counted twice,
      at most once more for each event that was refused. */
  lemma DropsCoverLosses(capacity: int, threads: nat, steps: seq<Step>)
    ensures var b, missing := Run(capacity, Idle(threads), steps), Missing(capacity, threads, steps);
      && ((forall k :: 0 <= k < |b.publishers| && b.publishers[k].Some? ==> b.publishers[k].value.stage != FullAgain) ==> missing <= b.dropped)
      && ((forall k :: 0 <= k < |b.publishers| ==> b.publishers[k].None?) ==> b.dropped == missing + b.spurious && b.spurious <= |b.refused|)
  {
    var b := Run(capacity, Idle(threads), steps);
    AlwaysAccounted(capacity, threads, steps);
    MissingIsLost(capacity, threads, steps);
    AlwaysCountedTwice(capacity, threads, steps);
    hide Run;
    hide Lost;
    hide Missing;
    if forall k :: 0 <= k < |b.publishers| && b.publishers[k].Some? ==> b.publishers[k].value.stage != FullAgain {
      NobodyAt(b.publishers, FullAgain);
    }
    if forall k :: 0 <= k < |b.publishers| ==> b.publishers[k].None? {
      NobodyAt(b.publishers, FullAgain);
      NobodyAt(b.publishers, Evicting);
    }
  }

  // ------------------------------------------------------------------ who is addressed

  lemma {:induction false} EnrolledReaches(table: Table, kinds: seq<string>, queue: nat, kind: string)
    requires queue !in Subscribers(table, kind)
    ensures queue in Subscribers(Enrolled(table, kinds, queue), kind) <==> kind in kinds
  {
    if kinds != [] {
      var n := |kinds| - 1;
      EnrolledReaches(table, kinds[..n], queue, kind);
      assert kinds == kinds[..n] + [kinds[n]];
    }
  }

  /** A new subscriber is addressed by exactly the events of the kinds it named, or by all if it named none or
      named all; and by none once it has left. */
  lemma ReachedExactlyWhen(capacity: int, b: Bus, kinds: seq<string>, kind: string)
    requires Sound(capacity, b)
    ensures var q, b1 := |b.boxes|, Apply(capacity, b, Subscribe(kinds));
      && (q in Targets(b1.table, kind) <==> kinds == [] || ALL in kinds || kind in kinds)
      && q !in Targets(Apply(capacity, b1, Unsubscribe(q)).table, kind)
  {
    var q := |b.boxes|;
    EventOrder.KnownSubscribers(b.table, kind, q);
    EventOrder.KnownSubscribers(b.table, ALL, q);
    EnrolledReaches(b.table, Kinds(kinds), q, kind);
    EnrolledReaches(b.table, Kinds(kinds), q, ALL);
    hide Enrolled;
    hide Sound;
  }
}
