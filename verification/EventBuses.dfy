/** The event bus object, and its publish as one uninterrupted stretch of the interleaved bus. */
module EventBuses {
  import opened Options
  import opened EventDelivery

  /** An event offered to each target in turn; a full queue loses its oldest event. */
  datatype Distribution = Distribution(contents: seq<seq<Event>>, dropped: nat)

  function Offered(capacity: int, d: Distribution, q: nat, event: Event): Distribution
    requires q < |d.contents|
  {
    var content := d.contents[q];
    if 0 < capacity <= |content| then Distribution(d.contents[q := content[1..] + [event]], d.dropped + 1)
    else Distribution(d.contents[q := content + [event]], d.dropped)
  }

  function Distributed(capacity: int, d: Distribution, targets: seq<nat>, event: Event): (d1: Distribution)
    requires Known(targets, |d.contents|)
    ensures |d1.contents| == |d.contents|
    decreases targets
  {
    if targets == [] then d else Distributed(capacity, Offered(capacity, d, targets[0], event), targets[1..], event)
  }

  // ------------------------------------------------------------------ an uninterrupted publisher

  function Contents(boxes: seq<Mailbox>): (contents: seq<seq<Event>>)
    ensures |contents| == |boxes| && forall q :: 0 <= q < |boxes| ==> contents[q] == boxes[q].content
  {
    if boxes == [] then [] else Contents(boxes[..|boxes| - 1]) + [boxes[|boxes| - 1].content]
  }

  function Seen(b: Bus): Distribution {
    Distribution(Contents(b.boxes), b.dropped)
  }

  function Moves(capacity: int, b: Bus, k: nat, n: nat): Bus
    decreases n
  {
    if n == 0 then b else Moves(capacity, Apply(capacity, b, Move(k)), k, n - 1)
  }

  lemma ContentsChange(boxes: seq<Mailbox>, q: nat, box: Mailbox)
    requires q < |boxes|
    ensures Contents(boxes[q := box]) == Contents(boxes)[q := box.content]
  {
  }

  /** What offering an event to its first target leads to. */
  predicate Delivers(capacity: int, b: Bus, k: nat, b1: Bus)
    requires k < |b.publishers| && b.publishers[k].Some? && b.publishers[k].value.targets != []
  {
    var p := b.publishers[k].value;
    && p.targets[0] < |b.boxes|
    && Seen(b1) == Offered(capacity, Seen(b), p.targets[0], p.event)
    && b1.publishers == b.publishers[k := Some(Publication(p.event, p.targets[1..], Offering))]
    && b1.table == b.table && Sound(capacity, b1)
  }

  lemma FourMoves(capacity: int, b: Bus, k: nat)
    ensures Moves(capacity, b, k, 1) == Apply(capacity, b, Move(k))
    ensures Moves(capacity, b, k, 4) == Apply(capacity, Apply(capacity, Apply(capacity, Apply(capacity, b, Move(k)), Move(k)), Move(k)), Move(k))
  {
    hide Apply;
    var b1 := Apply(capacity, b, Move(k));
    var b2 := Apply(capacity, b1, Move(k));
    var b3 := Apply(capacity, b2, Move(k));
    assert Moves(capacity, b1, k, 3) == Moves(capacity, b2, k, 2) == Moves(capacity, b3, k, 1);
  }

  /** A full queue: the drop is counted, the oldest event evicted, and the new one put in. */
  lemma FullTarget(capacity: int, b: Bus, k: nat)
    requires Sound(capacity, b) && k < |b.publishers| && b.publishers[k].Some?
    requires b.publishers[k].value.stage == Offering && b.publishers[k].value.targets != []
    requires b.publishers[k].value.targets[0] < |b.boxes| && Full(capacity, b.boxes[b.publishers[k].value.targets[0]])
    ensures Delivers(capacity, b, k, Moves(capacity, b, k, 4))
  {
    var p := b.publishers[k].value;
    var q := p.targets[0];
    FourMoves(capacity, b, k);
    var b1 := Apply(capacity, b, Move(k));
    StepSound(capacity, b, Move(k));
    var b2 := Apply(capacity, b1, Move(k));
    StepSound(capacity, b1, Move(k));
    var b3 := Apply(capacity, b2, Move(k));
    StepSound(capacity, b2, Move(k));
    assert b3.boxes == b.boxes[q := Evicted(b.boxes[q])];
    var b4 := Apply(capacity, b3, Move(k));
    StepSound(capacity, b3, Move(k));
    hide Sound;
    assert b4.boxes == b.boxes[q := Put(Evicted(b.boxes[q]), p.event)];
    ContentsChange(b.boxes, q, Put(Evicted(b.boxes[q]), p.event));
  }

  /** Left to itself a publisher puts its event into the queue at its first move, or sees it full,
      counts a drop, evicts the oldest event and puts its own in. */
  lemma OneTarget(capacity: int, b: Bus, k: nat) returns (n: nat)
    requires Sound(capacity, b) && k < |b.publishers| && b.publishers[k].Some?
    requires b.publishers[k].value.stage == Offering && b.publishers[k].value.targets != []
    ensures Delivers(capacity, b, k, Moves(capacity, b, k, n))
  {
    var p := b.publishers[k].value;
    assert Known(p.targets, |b.boxes|);
    var q := p.targets[0];
    if Full(capacity, b.boxes[q]) {
      FullTarget(capacity, b, k);
      return 4;
    }
    StepSound(capacity, b, Move(k));
    FourMoves(capacity, b, k);
    ContentsChange(b.boxes, q, Put(b.boxes[q], p.event));
    return 1;
  }

  lemma {:induction false} MovesAdd(capacity: int, b: Bus, k: nat, n: nat, m: nat)
    ensures Moves(capacity, Moves(capacity, b, k, n), k, m) == Moves(capacity, b, k, n + m)
    decreases n
  {
    hide Apply;
    if n > 0 {
      MovesAdd(capacity, Apply(capacity, b, Move(k)), k, n - 1, m);
    }
  }

  /** An uninterrupted publisher distributes its event over all its targets. */
  lemma {:induction false} AllTargets(capacity: int, b: Bus, k: nat) returns (n: nat)
    requires Sound(capacity, b) && k < |b.publishers| && b.publishers[k].Some?
    requires b.publishers[k].value.stage == Offering
    ensures var p := b.publishers[k].value;
      && Known(p.targets, |b.boxes|)
      && Seen(Moves(capacity, b, k, n)) == Distributed(capacity, Seen(b), p.targets, p.event)
      && Moves(capacity, b, k, n).publishers == b.publishers[k := None]
    decreases |b.publishers[k].value.targets|
  {
    var p := b.publishers[k].value;
    hide Offered;
    hide Sound;
    if p.targets == [] {
      var b1 := Apply(capacity, b, Move(k));
      assert Moves(capacity, b1, k, 0) == b1;
      return 1;
    }
    var n1 := OneTarget(capacity, b, k);
    hide Apply;
    var b1 := Moves(capacity, b, k, n1);
    var n2 := AllTargets(capacity, b1, k);
    MovesAdd(capacity, b, k, n1, n2);
    return n1 + n2;
  }

  class EventBus {
    const capacity: int
    var table: Table
    var contents: seq<seq<Event>>
    var dropped: nat

    ghost predicate Valid()
      reads this
    {
      TableKnown(table, |contents|)
    }

    ghost function Now(): Distribution
      reads this
    {
      Distribution(contents, dropped)
    }

    constructor (capacity: int)
      ensures Valid() && this.capacity == capacity && table == map[] && Now() == Distribution([], 0)
    {
      this.capacity := capacity;
      table, contents, dropped := map[], [], 0;
    }

    method Subscribe(kinds: seq<string>) returns (queue: nat)
      requires Valid()
      modifies this
      ensures Valid()
      ensures queue == |old(contents)| && Now() == Distribution(old(contents) + [[]], old(dropped))
      ensures table == Enrolled(old(table), Kinds(kinds), queue)
    {
      queue := |contents|;
      contents := contents + [[]];
      var all := if kinds == [] then [ALL] else kinds;
      EnrolledKnown(table, all, queue, |contents|);
      var i := 0;
      while i < |all|
        invariant i <= |all|
        invariant contents == old(contents) + [[]] && dropped == old(dropped)
        invariant table == Enrolled(old(table), all[..i], queue)
      {
        table := table[all[i] := Subscribers(table, all[i]) + [queue]];
        assert all[..i + 1][..i] == all[..i];
        i := i + 1;
      }
      assert all[..i] == all;
    }

    method Unsubscribe(queue: nat)
      requires Valid()
      modifies this`table
      ensures Valid()
      ensures table == Withdrawn(old(table), queue)
    {
      WithdrawnKnown(table, queue, |contents|);
      var left := table.Keys;
      while left != {}
        invariant left <= old(table).Keys
        invariant forall kind :: kind in left ==> kind in table && table[kind] == old(table)[kind]
        invariant forall kind :: kind in table && kind !in left ==>
          kind in old(table) && Without(old(table)[kind], queue) != [] && table[kind] == Without(old(table)[kind], queue)
        invariant forall kind :: kind in old(table) && kind !in left && Without(old(table)[kind], queue) != [] ==> kind in table
        decreases |left|
      {
        var kind :| kind in left;
        var rest := Without(table[kind], queue);
        table := if rest == [] then table - {kind} else table[kind := rest];
        left := left - {kind};
      }
      assert table == Withdrawn(old(table), queue);
    }

    /** Puts the event into one queue, which loses its oldest event if it is full. */
    method Offer(q: nat, event: Event)
      requires q < |contents|
      modifies this`contents, this`dropped
      ensures Now() == Offered(capacity, old(Now()), q, event)
    {
      if 0 < capacity <= |contents[q]| {
        dropped := dropped + 1;
        contents := contents[q := contents[q][1..]];
      }
      contents := contents[q := contents[q] + [event]];
    }

    /** Offers the event to each target in turn. */
    method OfferAll(targets: seq<nat>, event: Event)
      requires Known(targets, |contents|)
      modifies this`contents, this`dropped
      ensures |contents| == |old(contents)|
      ensures Now() == Distributed(capacity, old(Now()), targets, event)
    {
      hide Offered;
      var i := 0;
      while i < |targets|
        invariant i <= |targets| && |contents| == |old(contents)|
        invariant Distributed(capacity, Now(), targets[i..], event) == Distributed(capacity, old(Now()), targets, event)
      {
        Offer(targets[i], event);
        assert targets[i..][1..] == targets[i + 1..];
        i := i + 1;
      }
    }

    /** Offers the event to every subscriber of its kind and of all kinds. */
    method Publish(event: Event)
      requires Valid()
      modifies this`contents, this`dropped
      ensures Valid()
      ensures Known(Targets(table, event.kind), |old(contents)|)
      ensures Now() == Distributed(capacity, old(Now()), Targets(table, event.kind), event)
    {
      var targets := (if ALL in table then table[ALL] else []) + (if event.kind in table then table[event.kind] else []);
      assert Known(targets, |contents|);
      OfferAll(targets, event);
    }
  }
}
