/** What a single publisher's events look like to a subscriber: a subsequence of what was
    published, exactly when the subscriber registered no kind twice and not beside all kinds. */
module EventOrder {
  import opened Options
  import opened EventDelivery

  /** The events whose publication was begun. */
  function Published(capacity: int, b: Bus, steps: seq<Step>): seq<Event> {
    if steps == [] then []
    else
      var n := |steps| - 1;
      Begun(Run(capacity, b, steps[..n]), steps[n], Published(capacity, b, steps[..n]))
  }

  function Begun(b: Bus, step: Step, published: seq<Event>): seq<Event> {
    if step.Publish? && step.publisher < |b.publishers| && b.publishers[step.publisher].None? then published + [step.event]
    else published
  }

  predicate NoRepeats<T(==)>(s: seq<T>) {
    forall i, j :: 0 <= i < j < |s| ==> s[i] != s[j]
  }

  /** No event can reach the subscriber twice: the kinds differ, and all kinds stand alone. */
  predicate Simple(kinds: seq<string>) {
    NoRepeats(kinds) && (ALL in kinds ==> |kinds| == 1)
  }

  /** The queue's own subscription is simple, if this is it, and events have a kind of their own; what
      others subscribe to is their affair. */
  predicate Orderly(b: Bus, step: Step, q: nat) {
    match step
    case Subscribe(kinds) => |b.boxes| == q ==> Simple(Kinds(kinds))
    case Publish(_, event) => event.kind != ALL
    case _ => true
  }

  predicate OrderlyRun(capacity: int, steps: seq<Step>, q: nat) {
    forall k :: 0 <= k < |steps| ==> Orderly(Run(capacity, Idle(1), steps[..k]), steps[k], q)
  }

  // ------------------------------------------------------------------ a target once

  /** How often a queue is among the targets. */
  function Times(queues: seq<nat>, q: nat): nat {
    multiset(queues)[q]
  }

  lemma TimesAdd(a: seq<nat>, b: seq<nat>, q: nat)
    ensures Times(a + b, q) == Times(a, q) + Times(b, q)
  {
  }

  lemma TimesFirst(queues: seq<nat>, q: nat)
    requires queues != []
    ensures Times(queues, q) == Times(queues[1..], q) + (if queues[0] == q then 1 else 0)
    ensures q in queues <==> Times(queues, q) > 0
  {
    assert queues == [queues[0]] + queues[1..];
  }

  lemma UnknownNever(queues: seq<nat>, q: nat)
    requires Known(queues, q)
    ensures Times(queues, q) == 0
  {
    assert q !in queues;
  }

  /** Every event reaches the queue once at most. */
  ghost predicate Once(table: Table, q: nat) {
    forall kind :: kind != ALL ==> Times(Targets(table, kind), q) <= 1
  }

  lemma {:induction false} EnrolledTimes(table: Table, kinds: seq<string>, queue: nat, kind: string, q: nat)
    ensures Times(Subscribers(Enrolled(table, kinds, queue), kind), q)
      == Times(Subscribers(table, kind), q) + (if q == queue then multiset(kinds)[kind] else 0)
  {
    if kinds != [] {
      var n := |kinds| - 1;
      EnrolledTimes(table, kinds[..n], queue, kind, q);
      assert kinds == kinds[..n] + [kinds[n]];
      TimesAdd(Subscribers(Enrolled(table, kinds[..n], queue), kind), [queue], q);
    }
  }

  lemma {:induction false} CountsOnce(kinds: seq<string>, kind: string)
    requires NoRepeats(kinds)
    ensures multiset(kinds)[kind] == if kind in kinds then 1 else 0
  {
    if kinds != [] {
      var n := |kinds| - 1;
      CountsOnce(kinds[..n], kind);
      assert kinds == kinds[..n] + [kinds[n]];
      assert kinds[n] !in kinds[..n];
    }
  }

  lemma SimpleCounts(kinds: seq<string>, kind: string)
    requires Simple(kinds) && kind != ALL
    ensures multiset(kinds)[ALL] + multiset(kinds)[kind] <= 1
  {
    CountsOnce(kinds, ALL);
    CountsOnce(kinds, kind);
    if ALL in kinds {
      assert kinds[0] == ALL;
    }
  }

  lemma KnownSubscribers(table: Table, kind: string, n: nat)
    requires TableKnown(table, n)
    ensures Known(Subscribers(table, kind), n)
  {
  }

  lemma EnrolledOnce(table: Table, kinds: seq<string>, queue: nat, q: nat)
    requires if q == queue then TableKnown(table, queue) && Simple(kinds) else Once(table, q)
    ensures Once(Enrolled(table, kinds, queue), q)
  {
    hide Times;
    forall kind | kind != ALL ensures Times(Targets(Enrolled(table, kinds, queue), kind), q) <= 1 {
      EnrolledTimes(table, kinds, queue, kind, q);
      EnrolledTimes(table, kinds, queue, ALL, q);
      TimesAdd(Subscribers(Enrolled(table, kinds, queue), ALL), Subscribers(Enrolled(table, kinds, queue), kind), q);
      TimesAdd(Subscribers(table, ALL), Subscribers(table, kind), q);
      if q == queue {
        KnownSubscribers(table, kind, queue);
        KnownSubscribers(table, ALL, queue);
        UnknownNever(Subscribers(table, kind), queue);
        UnknownNever(Subscribers(table, ALL), queue);
        SimpleCounts(kinds, kind);
      } else {
        assert Times(Targets(table, kind), q) <= 1;
      }
    }
  }

  lemma {:induction false} WithoutTimes(queues: seq<nat>, queue: nat, q: nat)
    ensures Times(Without(queues, queue), q) <= Times(queues, q)
  {
    if queues != [] {
      WithoutTimes(queues[1..], queue, q);
      TimesFirst(queues, q);
      TimesAdd([queues[0]], Without(queues[1..], queue), q);
    }
  }

  lemma WithdrawnOnce(table: Table, queue: nat, q: nat)
    requires Once(table, q)
    ensures Once(Withdrawn(table, queue), q)
  {
    hide Times;
    forall kind | kind != ALL ensures Times(Targets(Withdrawn(table, queue), kind), q) <= 1 {
      var all, own := Subscribers(table, ALL), Subscribers(table, kind);
      WithoutTimes(all, queue, q);
      WithoutTimes(own, queue, q);
      TimesAdd(all, own, q);
      TimesAdd(Without(all, queue), Without(own, queue), q);
      assert Times(Targets(table, kind), q) <= 1;
      assert Subscribers(Withdrawn(table, queue), kind) == Without(own, queue);
      assert Subscribers(Withdrawn(table, queue), ALL) == Without(all, queue);
    }
  }

  // ------------------------------------------------------------------ a single publisher

  /** The queue has seen a subsequence of what was published, and not yet the event that is on its
      way to it. */
  predicate Follows(b: Bus, q: nat, published: seq<Event>)
    requires q < |b.boxes| && |b.publishers| == 1
  {
    if b.publishers[0].Some? && q in b.publishers[0].value.targets then
      && published != [] && published[|published| - 1] == b.publishers[0].value.event
      && Subsequence(b.boxes[q].put, published[..|published| - 1])
    else Subsequence(b.boxes[q].put, published)
  }

  /** The queue, once it exists, is a target once at most and follows what is published. */
  ghost predicate OnCourse(b: Bus, q: nat, published: seq<Event>) {
    && |b.publishers| == 1
    && (q < |b.boxes| ==>
          && Once(b.table, q)
          && (b.publishers[0].Some? ==> Times(b.publishers[0].value.targets, q) <= 1)
          && Follows(b, q, published))
  }

  /** The event arrives in the queue. */
  lemma ArrivalFollows(b: Bus, b1: Bus, q: nat, published: seq<Event>)
    requires q < |b.boxes| && |b.publishers| == 1 && b.publishers[0].Some? && Follows(b, q, published)
    requires var p := b.publishers[0].value; p.targets != [] && p.targets[0] == q && Times(p.targets, q) <= 1
    requires |b1.boxes| == |b.boxes| && |b1.publishers| == 1 && b1.publishers[0].Some?
    requires b1.publishers[0].value.targets == b.publishers[0].value.targets[1..]
    requires b1.boxes[q].put == b.boxes[q].put || b1.boxes[q].put == b.boxes[q].put + [b.publishers[0].value.event]
    ensures Follows(b1, q, published)
  {
    var p, n := b.publishers[0].value, |published| - 1;
    TimesFirst(p.targets, q);
    if p.targets[1..] != [] {
      TimesFirst(p.targets[1..], q);
    }
    hide Times;
    hide Subsequence;
    assert q !in p.targets[1..];
    AppendBoth(b.boxes[q].put, published[..n], p.event);
    assert published[..n] + [p.event] == published;
    WeakenRight(b.boxes[q].put, published);
  }

  /** What a move does to one queue. */
  lemma MovedBox(capacity: int, b: Bus, q: nat)
    requires |b.publishers| == 1 && b.publishers[0].Some? && q < |b.boxes|
    ensures var p, b1 := b.publishers[0].value, Moved(capacity, b, 0);
      && b1.table == b.table && |b1.boxes| == |b.boxes| && |b1.publishers| == 1
      && (if p.targets == [] then b1.publishers[0].None? && b1.boxes[q].put == b.boxes[q].put
          else
            && b1.publishers[0].Some? && b1.publishers[0].value.event == p.event
            && (|| (b1.publishers[0].value.targets == p.targets && b1.boxes[q].put == b.boxes[q].put)
                || (&& b1.publishers[0].value.targets == p.targets[1..]
                    && (|| b1.boxes[q].put == b.boxes[q].put
                        || (q == p.targets[0] && b1.boxes[q].put == b.boxes[q].put + [p.event])))))
  {
  }

  lemma MoveFollows(capacity: int, b: Bus, q: nat, published: seq<Event>)
    requires OnCourse(b, q, published) && b.publishers[0].Some? && q < |b.boxes|
    ensures OnCourse(Moved(capacity, b, 0), q, published)
  {
    hide Once;
    var p, b1 := b.publishers[0].value, Moved(capacity, b, 0);
    MovedBox(capacity, b, q);
    hide Moved;
    if p.targets != [] {
      TimesFirst(p.targets, q);
      assert q in p.targets <==> q == p.targets[0] || q in p.targets[1..] by {
        assert p.targets == [p.targets[0]] + p.targets[1..];
      }
      if p.targets[0] == q && b1.publishers[0].value.targets != p.targets {
        ArrivalFollows(b, b1, q, published);
      }
    }
    hide Times;
    hide Subsequence;
  }

  lemma SubscribeFollows(b: Bus, kinds: seq<string>, q: nat, published: seq<Event>, b1: Bus)
    requires OnCourse(b, q, published) && Orderly(b, Subscribe(kinds), q) && TableKnown(b.table, |b.boxes|)
    requires b.publishers[0].Some? ==> Known(b.publishers[0].value.targets, |b.boxes|)
    requires b1 == b.(table := Enrolled(b.table, Kinds(kinds), |b.boxes|), boxes := b.boxes + [FRESH])
    ensures OnCourse(b1, q, published)
  {
    hide Once;
    if q <= |b.boxes| {
      EnrolledOnce(b.table, Kinds(kinds), |b.boxes|, q);
    }
    if q == |b.boxes| && b.publishers[0].Some? {
      UnknownNever(b.publishers[0].value.targets, q);
    }
    hide Times;
    hide Enrolled;
  }

  lemma PublishFollows(b: Bus, event: Event, q: nat, published: seq<Event>)
    requires OnCourse(b, q, published) && b.publishers[0].None? && event.kind != ALL
    ensures OnCourse(b.(publishers := b.publishers[0 := Some(Publication(event, Targets(b.table, event.kind), Offering))]), q, published + [event])
  {
    if q < |b.boxes| {
      AppendOne(b.boxes[q].put, published, event);
      assert (published + [event])[..|published|] == published;
      assert Times(Targets(b.table, event.kind), q) <= 1;
    }
    hide Once;
    hide Times;
    hide Subsequence;
  }

  lemma StepFollows(capacity: int, b: Bus, step: Step, q: nat, published: seq<Event>)
    requires Sound(capacity, b) && OnCourse(b, q, published) && Orderly(b, step, q)
    ensures OnCourse(Apply(capacity, b, step), q, Begun(b, step, published))
  {
    match step
    case Subscribe(kinds) => SubscribeFollows(b, kinds, q, published, Apply(capacity, b, step));
    case Unsubscribe(queue) =>
      if q < |b.boxes| {
        WithdrawnOnce(b.table, queue, q);
      }
      hide Once;
      hide Times;
      hide Withdrawn;
    case Publish(k, event) =>
      if k < |b.publishers| && b.publishers[k].None? {
        PublishFollows(b, event, q, published);
      }
      hide OnCourse;
    case Move(k) =>
      if k < |b.publishers| && b.publishers[k].Some? {
        if q < |b.boxes| {
          MoveFollows(capacity, b, q, published);
        } else {
          MovedSize(capacity, b);
        }
      }
      hide Moved;
      hide Once;
    case Take(_) =>
      hide Once;
      hide Times;
  }

  lemma MovedSize(capacity: int, b: Bus)
    requires |b.publishers| == 1 && b.publishers[0].Some?
    ensures |Moved(capacity, b, 0).boxes| == |b.boxes| && |Moved(capacity, b, 0).publishers| == 1
  {
  }

  lemma {:induction false} RunFollows(capacity: int, steps: seq<Step>, q: nat)
    requires OrderlyRun(capacity, steps, q)
    ensures OnCourse(Run(capacity, Idle(1), steps), q, Published(capacity, Idle(1), steps))
  {
    hide Apply;
    hide Sound;
    hide Accounted;
    hide Orderly;
    hide Once;
    hide Times;
    hide Subsequence;
    if steps != [] {
      var n := |steps| - 1;
      assert forall k :: 0 <= k < n ==> steps[..n][k] == steps[k] && steps[..n][..k] == steps[..k];
      RunFollows(capacity, steps[..n], q);
      AlwaysAccounted(capacity, 1, steps[..n]);
      StepFollows(capacity, Run(capacity, Idle(1), steps[..n]), steps[n], q, Published(capacity, Idle(1), steps[..n]));
    }
  }

  lemma {:induction false} Transitive<T>(a: seq<T>, b: seq<T>, c: seq<T>)
    requires Subsequence(a, b) && Subsequence(b, c)
    ensures Subsequence(a, c)
    decreases |c|
  {
    if a != [] && b != [] {
      var c1 := c[..|c| - 1];
      if Subsequence(b, c1) {
        Transitive(a, b, c1);
      } else if Subsequence(a, b[..|b| - 1]) {
        Transitive(a, b[..|b| - 1], c1);
      } else {
        Transitive(a[..|a| - 1], b[..|b| - 1], c1);
      }
    }
  }

  /** With one publisher every subscriber that registered simply receives a subsequence of the published
      order, however the others registered. */
  lemma SinglePublisherInOrder(capacity: int, steps: seq<Step>, q: nat)
    requires OrderlyRun(capacity, steps, q)
    requires q < |Run(capacity, Idle(1), steps).boxes|
    ensures Subsequence(Delivered(Run(capacity, Idle(1), steps).boxes[q]), Published(capacity, Idle(1), steps))
  {
    var b, published := Run(capacity, Idle(1), steps), Published(capacity, Idle(1), steps);
    RunFollows(capacity, steps, q);
    AlwaysInOrder(capacity, 1, steps);
    hide Run;
    hide Published;
    hide Once;
    hide Times;
    assert Follows(b, q, published);
    if b.publishers[0].Some? && q in b.publishers[0].value.targets {
      WeakenRight(b.boxes[q].put, published);
    }
    assert FirstInFirstOut(b.boxes[q]);
    Transitive(Delivered(b.boxes[q]), b.boxes[q].put, published);
  }

  // ------------------------------------------------------------------ registering twice

  /** A single subscriber, and then publications, deliveries and departures. */
  predicate Alone(step: Step) {
    !step.Subscribe? && (step.Publish? ==> step.event.kind != ALL)
  }

  /** Whatever the queue size, the subscriber receives a subsequence of what is published. */
  ghost predicate ReceivesInOrder(kinds: seq<string>) {
    forall capacity, steps | (forall k :: 0 <= k < |steps| ==> Alone(steps[k])) && |Run(capacity, Idle(1), [Subscribe(kinds)] + steps).boxes| > 0
      :: Subsequence(Delivered(Run(capacity, Idle(1), [Subscribe(kinds)] + steps).boxes[0]),
                     Published(capacity, Idle(1), [Subscribe(kinds)] + steps))
  }

  lemma {:induction false} EnrolledOften(kinds: seq<string>, kind: string)
    ensures var queues := Subscribers(Enrolled(map[], kinds, 0), kind);
      |queues| == multiset(kinds)[kind] && forall i :: 0 <= i < |queues| ==> queues[i] == 0
  {
    if kinds != [] {
      var n := |kinds| - 1;
      EnrolledOften(kinds[..n], kind);
      assert kinds == kinds[..n] + [kinds[n]];
    }
  }

  lemma OccursTwice(s: seq<string>, i: nat, j: nat)
    requires i < j < |s| && s[i] == s[j]
    ensures multiset(s)[s[i]] >= 2
  {
    assert s == s[..j] + s[j..];
    assert s[..j][i] == s[i] && s[j..][0] == s[i];
  }

  /** Some event reaches a subscriber that registered carelessly twice. */
  lemma RegisteredTwice(kinds: seq<string>) returns (kind: string)
    requires !Simple(kinds)
    ensures kind != ALL
    ensures var targets := Targets(Enrolled(map[], kinds, 0), kind);
      |targets| >= 2 && targets[0] == 0 && targets[1] == 0
  {
    if i, j :| 0 <= i < j < |kinds| && kinds[i] == kinds[j] {
      OccursTwice(kinds, i, j);
      kind := if kinds[i] == ALL then "JobQueued" else kinds[i];
    } else {
      kind := if kinds[0] == ALL then kinds[1] else kinds[0];
      assert kind != ALL;
      assert kind in multiset(kinds) && ALL in multiset(kinds);
    }
    EnrolledOften(kinds, kind);
    EnrolledOften(kinds, ALL);
  }

  lemma RunOn(capacity: int, b: Bus, steps: seq<Step>, step: Step)
    ensures Run(capacity, b, steps + [step]) == Apply(capacity, Run(capacity, b, steps), step)
    ensures Published(capacity, b, steps + [step]) == Begun(Run(capacity, b, steps), step, Published(capacity, b, steps))
  {
    assert (steps + [step])[..|steps|] == steps;
  }

  /** A queue that is the only one, and one publisher at the first of its targets. */
  predicate Offers(b: Bus, event: Event) {
    && |b.boxes| == 1 && |b.publishers| == 1 && b.publishers[0].Some?
    && b.publishers[0].value.event == event && b.publishers[0].value.stage == Offering
    && b.publishers[0].value.targets != [] && b.publishers[0].value.targets[0] == 0
  }

  lemma OfferArrives(capacity: int, b: Bus, event: Event)
    requires Offers(b, event) && b.boxes[0].content == []
    ensures var b1 := Apply(capacity, b, Move(0));
      && |b1.boxes| == 1 && b1.boxes[0] == Put(b.boxes[0], event)
      && (|b.publishers[0].value.targets| >= 2 && b.publishers[0].value.targets[1] == 0 ==> Offers(b1, event))
  {
  }

  lemma TakenOut(capacity: int, b: Bus, event: Event)
    requires Offers(b, event) && b.boxes[0].content == [event]
    ensures var b1 := Apply(capacity, b, Take(0));
      Offers(b1, event) && b1.boxes[0] == Took(b.boxes[0]) && b1.boxes[0].content == []
  {
  }

  /** The subscriber takes the event between its two deliveries. */
  lemma TwiceInSteps(capacity: int, kinds: seq<string>, event: Event)
    requires var targets := Targets(Enrolled(map[], Kinds(kinds), 0), event.kind);
      |targets| >= 2 && targets[0] == 0 && targets[1] == 0
    ensures var b2 := Apply(capacity, Apply(capacity, Idle(1), Subscribe(kinds)), Publish(0, event));
      var b5 := Apply(capacity, Apply(capacity, Apply(capacity, b2, Move(0)), Take(0)), Move(0));
      && |b5.boxes| == 1 && Delivered(b5.boxes[0]) == [event, event]
      && Begun(Apply(capacity, Idle(1), Subscribe(kinds)), Publish(0, event), []) == [event]
  {
    hide Enrolled;
    hide Moved;
    var b2 := Apply(capacity, Apply(capacity, Idle(1), Subscribe(kinds)), Publish(0, event));
    assert Offers(b2, event) && b2.boxes[0] == FRESH && |b2.publishers[0].value.targets| >= 2 && b2.publishers[0].value.targets[1] == 0;
    hide Apply;
    OfferArrives(capacity, b2, event);
    var b3 := Apply(capacity, b2, Move(0));
    TakenOut(capacity, b3, event);
    OfferArrives(capacity, Apply(capacity, b3, Take(0)), event);
  }

  lemma DeliveredTwice(capacity: int, kinds: seq<string>, event: Event)
    requires var targets := Targets(Enrolled(map[], Kinds(kinds), 0), event.kind);
      |targets| >= 2 && targets[0] == 0 && targets[1] == 0
    ensures var steps := [Subscribe(kinds)] + [Publish(0, event)] + [Move(0)] + [Take(0)] + [Move(0)];
      var b := Run(capacity, Idle(1), steps);
      |b.boxes| == 1 && Delivered(b.boxes[0]) == [event, event] && Published(capacity, Idle(1), steps) == [event]
  {
    var b0 := Idle(1);
    TwiceInSteps(capacity, kinds, event);
    hide Apply;
    hide Enrolled;
    hide Delivered;
    RunOn(capacity, b0, [], Subscribe(kinds));
    RunOn(capacity, b0, [Subscribe(kinds)], Publish(0, event));
    RunOn(capacity, b0, [Subscribe(kinds)] + [Publish(0, event)], Move(0));
    RunOn(capacity, b0, [Subscribe(kinds)] + [Publish(0, event)] + [Move(0)], Take(0));
    RunOn(capacity, b0, [Subscribe(kinds)] + [Publish(0, event)] + [Move(0)] + [Take(0)], Move(0));
    NothingRun(capacity, b0);
    hide Run;
    hide Published;
  }

  lemma NothingRun(capacity: int, b: Bus)
    ensures Run(capacity, b, []) == b && Published(capacity, b, []) == []
  {
  }

  lemma CarelessOutOfOrder(kinds: seq<string>)
    requires !Simple(Kinds(kinds))
    ensures !ReceivesInOrder(kinds)
  {
    var kind := RegisteredTwice(Kinds(kinds));
    var event := Event(0, kind);
    DeliveredTwice(1, kinds, event);
    var rest := [Publish(0, event)] + [Move(0)] + [Take(0)] + [Move(0)];
    assert [Subscribe(kinds)] + rest == [Subscribe(kinds)] + [Publish(0, event)] + [Move(0)] + [Take(0)] + [Move(0)];
    assert !Subsequence([event, event], [event]);
    hide Run;
    hide Published;
  }

  lemma AloneIsOrderly(capacity: int, kinds: seq<string>, steps: seq<Step>)
    requires Simple(Kinds(kinds)) && forall k :: 0 <= k < |steps| ==> Alone(steps[k])
    ensures OrderlyRun(capacity, [Subscribe(kinds)] + steps, 0)
  {
    var all := [Subscribe(kinds)] + steps;
    forall k | 0 <= k < |all| ensures Orderly(Run(capacity, Idle(1), all[..k]), all[k], 0) {
      if k > 0 {
        assert all[k] == steps[k - 1];
      }
    }
    hide Run;
    hide Simple;
  }

  /** A subscriber receives a subsequence of what is published exactly when it registered simply. */
  lemma InOrderExactlyWhen(kinds: seq<string>)
    ensures ReceivesInOrder(kinds) <==> Simple(Kinds(kinds))
  {
    if Simple(Kinds(kinds)) {
      forall capacity, steps | (forall k :: 0 <= k < |steps| ==> Alone(steps[k])) && |Run(capacity, Idle(1), [Subscribe(kinds)] + steps).boxes| > 0
        ensures Subsequence(Delivered(Run(capacity, Idle(1), [Subscribe(kinds)] + steps).boxes[0]),
                            Published(capacity, Idle(1), [Subscribe(kinds)] + steps))
      {
        AloneIsOrderly(capacity, kinds, steps);
        SinglePublisherInOrder(capacity, [Subscribe(kinds)] + steps, 0);
      }
    } else {
      CarelessOutOfOrder(kinds);
    }
  }
}
