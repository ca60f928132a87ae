/** The template watch queue: a bounded channel that several request handlers fill without ever
    blocking, dropping the oldest event under pressure, and one dispatcher that drains it. */
module WatchQueue {

  const CAPACITY: nat := 100

  type Event = int

  /** Where a producer is in its enqueue call: about to make room for its event, or about to
      retry the send. `mark` is how many events had been accepted when it made room. */
  datatype Producer = Idle | MakingRoom(event: Event) | Retrying(event: Event, mark: nat)

  /** An event that left the queue at its head. */
  datatype Exit = Delivered(event: Event) | Dropped(event: Event)

  datatype Loss = Loss(event: Event, mark: nat, acceptedThen: seq<Event>)

  /** The channel, the producers' positions, and what has happened so far. */
  datatype State = State(queue: seq<Event>, producers: map<nat, Producer>,
                         accepted: seq<Event>, exits: seq<Exit>, lost: seq<Loss>)

  datatype Step =
    | Send(p: nat, event: Event)
    | MakeRoom(p: nat)
    | Retry(p: nat)
    | Dispatch

  function ProducerOf(s: State, p: nat): Producer {
    if p in s.producers then s.producers[p] else Idle
  }

  function Accept(s: State, p: nat, e: Event): State {
    s.(queue := s.queue + [e], accepted := s.accepted + [e], producers := s.producers[p := Idle])
  }

  /** Each step is one non-blocking channel operation; a step that is not enabled does nothing. */
  function Next(s: State, step: Step): State {
    match step
    case Send(p, e) =>
      if !ProducerOf(s, p).Idle? then s
      else if |s.queue| < CAPACITY then Accept(s, p, e)
      else s.(producers := s.producers[p := MakingRoom(e)])
    case MakeRoom(p) =>
      var pr := ProducerOf(s, p);
      if !pr.MakingRoom? then s
      else
        var s1 := s.(producers := s.producers[p := Retrying(pr.event, |s.accepted|)]);
        if s.queue == [] then s1
        else s1.(queue := s.queue[1..], exits := s.exits + [Dropped(s.queue[0])])
    case Retry(p) =>
      var pr := ProducerOf(s, p);
      if !pr.Retrying? then s
      else if |s.queue| < CAPACITY then Accept(s, p, pr.event)
      else s.(lost := s.lost + [Loss(pr.event, pr.mark, s.accepted)], producers := s.producers[p := Idle])
    case Dispatch =>
      if s.queue == [] then s
      else s.(queue := s.queue[1..], exits := s.exits + [Delivered(s.queue[0])])
  }

  function Run(s: State, steps: seq<Step>): State
    decreases |steps|
  {
    if steps == [] then s else Run(Next(s, steps[0]), steps[1..])
  }

  function Exited(xs: seq<Exit>): seq<Event> {
    if xs == [] then [] else Exited(xs[..|xs| - 1]) + [xs[|xs| - 1].event]
  }

  function DeliveredOf(xs: seq<Exit>): seq<Event> {
    if xs == [] then []
    else
      var rest, x := DeliveredOf(xs[..|xs| - 1]), xs[|xs| - 1];
      if x.Delivered? then rest + [x.event] else rest
  }

  function DroppedOf(xs: seq<Exit>): seq<Event> {
    if xs == [] then []
    else
      var rest, x := DroppedOf(xs[..|xs| - 1]), xs[|xs| - 1];
      if x.Dropped? then rest + [x.event] else rest
  }

  /** `part` is obtained from `whole` by leaving events out, keeping the order. */
  predicate Subsequence(part: seq<Event>, whole: seq<Event>) {
    if part == [] then true
    else if whole == [] then false
    else if part[|part| - 1] == whole[|whole| - 1] then Subsequence(part[..|part| - 1], whole[..|whole| - 1])
    else Subsequence(part, whole[..|whole| - 1])
  }

  // ----- Invariant -----

  /** A lost event was overtaken: something was accepted after its producer made room. */
  predicate Overtaken(l: Loss) {
    |l.acceptedThen| > l.mark
  }

  ghost predicate Inv(s: State) {
    && |s.queue| <= CAPACITY
    && s.accepted == Exited(s.exits) + s.queue
    && (forall p :: p in s.producers && s.producers[p].Retrying? ==> RoomOk(s, s.producers[p]))
    && (forall i :: 0 <= i < |s.lost| ==> Overtaken(s.lost[i]))
  }

  /** Since the producer made room the queue can only have filled up by accepting events. */
  predicate RoomOk(s: State, pr: Producer)
    requires pr.Retrying?
  {
    pr.mark <= |s.accepted| && |s.queue| < CAPACITY + (|s.accepted| - pr.mark)
  }

  lemma NextKeepsInv(s: State, step: Step)
    requires Inv(s)
    ensures Inv(Next(s, step))
  {
    hide Exited;
    var s' := Next(s, step);
    if |s'.exits| > |s.exits| {
      HeadExits(s, s'.exits[|s.exits|]);
    } else if |s'.accepted| > |s.accepted| {
      assert Exited(s.exits) + s.queue + [s'.queue[|s.queue|]] == Exited(s.exits) + (s.queue + [s'.queue[|s.queue|]]);
    }
  }

  /** The accounting after the head of the queue left it. */
  lemma HeadExits(s: State, x: Exit)
    requires s.accepted == Exited(s.exits) + s.queue && s.queue != [] && x.event == s.queue[0]
    ensures s.accepted == Exited(s.exits + [x]) + s.queue[1..]
  {
    assert (s.exits + [x])[..|s.exits|] == s.exits;
  }

  lemma {:induction false} RunKeepsInv(s: State, steps: seq<Step>)
    requires Inv(s)
    ensures Inv(Run(s, steps))
    decreases |steps|
  {
    if steps != [] {
      NextKeepsInv(s, steps[0]);
      RunKeepsInv(Next(s, steps[0]), steps[1..]);
    }
  }

  const EMPTY := State([], map[], [], [], [])

  // ----- What a step may do to the queue -----

  /** The number of enqueue calls that found the queue full. */
  function Refused(s: State, steps: seq<Step>): nat
    decreases |steps|
  {
    if steps == [] then 0
    else (if steps[0].Send? && ProducerOf(s, steps[0].p).Idle? && |s.queue| == CAPACITY then 1 else 0)
         + Refused(Next(s, steps[0]), steps[1..])
  }

  /** A send to a queue with room is accepted at once and drops nothing; only a full queue makes a
      producer make room, which takes at most the oldest event out and nothing else; only the
      retry can lose an event, and only to a queue filled again; only the dispatcher delivers. */
  lemma StepMeaning(s: State, step: Step)
    requires Inv(s)
    ensures var s', pr := Next(s, step), if step.Dispatch? then Idle else ProducerOf(s, step.p);
            match step
            case Send(p, e) =>
              && s'.exits == s.exits && s'.lost == s.lost
              && (pr.Idle? && |s.queue| < 100 ==> s'.queue == s.queue + [e] && s'.accepted == s.accepted + [e] && ProducerOf(s', p).Idle?)
              && (pr.Idle? && |s.queue| == 100 ==> s'.queue == s.queue && s'.accepted == s.accepted && ProducerOf(s', p) == MakingRoom(e))
            case MakeRoom(p) =>
              && s'.accepted == s.accepted && s'.lost == s.lost
              && (pr.MakingRoom? ==> ProducerOf(s', p) == Retrying(pr.event, |s.accepted|))
              && (pr.MakingRoom? && s.queue != [] ==> s'.queue == s.queue[1..] && s'.exits == s.exits + [Dropped(s.queue[0])])
              && (!pr.MakingRoom? || s.queue == [] ==> s'.queue == s.queue && s'.exits == s.exits)
            case Retry(p) =>
              && s'.exits == s.exits
              && (pr.Retrying? && |s.queue| < 100 ==> s'.queue == s.queue + [pr.event] && s'.accepted == s.accepted + [pr.event] && s'.lost == s.lost)
              && (pr.Retrying? && |s.queue| == 100 ==> s'.queue == s.queue && s'.accepted == s.accepted && |s'.lost| == |s.lost| + 1)
              && (pr.Retrying? ==> ProducerOf(s', p).Idle?)
            case Dispatch =>
              && s'.producers == s.producers && s'.accepted == s.accepted && s'.lost == s.lost
              && (s.queue != [] ==> s'.queue == s.queue[1..] && s'.exits == s.exits + [Delivered(s.queue[0])])
  {
  }

  /** The producers about to make room. */
  function MakersOf(s: State): set<nat> {
    set p | p in s.producers && s.producers[p].MakingRoom?
  }

  /** No more events are dropped than enqueue calls found the queue full. */
  lemma {:induction false} DropsAreForced(s: State, steps: seq<Step>)
    requires Inv(s)
    ensures var r := Run(s, steps); |DroppedOf(r.exits)| + |MakersOf(r)| <= |DroppedOf(s.exits)| + |MakersOf(s)| + Refused(s, steps)
    decreases |steps|
  {
    if steps != [] {
      NextKeepsInv(s, steps[0]);
      OneDropPerRefusal(s, steps[0]);
      DropsAreForced(Next(s, steps[0]), steps[1..]);
    }
  }

  lemma OneDropPerRefusal(s: State, step: Step)
    requires Inv(s)
    ensures |DroppedOf(Next(s, step).exits)| + |MakersOf(Next(s, step))| <= |DroppedOf(s.exits)| + |MakersOf(s)| + Refused(s, [step])
  {
    var s' := Next(s, step);
    if |s'.exits| > |s.exits| {
      assert s'.exits[..|s'.exits| - 1] == s.exits;
    }
    match step {
      case Send(p, e) => MakersMore(s, s', p);
      case MakeRoom(p) => MakersFewer(s, s', p);
      case Retry(p) => MakersFewer(s, s', p);
      case Dispatch =>
    }
  }

  lemma MakersMore(s: State, s': State, p: nat)
    requires s'.producers == s.producers || s'.producers == s.producers[p := ProducerOf(s', p)]
    ensures |MakersOf(s')| <= |MakersOf(s)| + 1
    ensures !ProducerOf(s', p).MakingRoom? ==> |MakersOf(s')| <= |MakersOf(s)|
  {
    if ProducerOf(s', p).MakingRoom? {
      assert MakersOf(s') <= MakersOf(s) + {p};
      SmallerSet(MakersOf(s'), MakersOf(s) + {p});
    } else {
      assert MakersOf(s') <= MakersOf(s);
      SmallerSet(MakersOf(s'), MakersOf(s));
    }
  }

  lemma MakersFewer(s: State, s': State, p: nat)
    requires s'.producers == s.producers || s'.producers == s.producers[p := ProducerOf(s', p)]
    requires s'.producers == s.producers || !ProducerOf(s', p).MakingRoom?
    ensures |MakersOf(s')| <= |MakersOf(s)|
    ensures ProducerOf(s, p).MakingRoom? && s'.producers != s.producers ==> |MakersOf(s')| < |MakersOf(s)|
  {
    assert MakersOf(s') <= MakersOf(s);
    SmallerSet(MakersOf(s'), MakersOf(s));
    if ProducerOf(s, p).MakingRoom? && s'.producers != s.producers {
      assert MakersOf(s') <= MakersOf(s) - {p};
      SmallerSet(MakersOf(s'), MakersOf(s) - {p});
    }
  }

  lemma SmallerSet(a: set<nat>, b: set<nat>)
    requires a <= b
    ensures |a| <= |b|
  {
    assert b == a + (b - a);
  }

  // ----- What every run guarantees -----

  lemma {:induction false} SubsequenceAppend(a: seq<Event>, b: seq<Event>, c: seq<Event>)
    requires Subsequence(a, b)
    ensures Subsequence(a + c, b + c)
    decreases |c|
  {
    hide Subsequence;
    if c == [] {
      assert a + c == a && b + c == b;
    } else {
      var n := |c| - 1;
      SubsequenceAppend(a, b, c[..n]);
      assert a + c == a + c[..n] + [c[n]] && b + c == b + c[..n] + [c[n]];
      SubsequenceOneMore(a + c[..n], b + c[..n], c[n]);
    }
  }

  lemma SubsequenceOneMore(a: seq<Event>, b: seq<Event>, e: Event)
    requires Subsequence(a, b)
    ensures Subsequence(a + [e], b + [e])
  {
    assert (a + [e])[..|a|] == a && (b + [e])[..|b|] == b;
  }

  lemma {:induction false} DeliveredIsSubsequence(xs: seq<Exit>)
    ensures Subsequence(DeliveredOf(xs), Exited(xs))
    decreases |xs|
  {
    hide Subsequence;
    if xs == [] {
      SubsequenceNothing(Exited(xs));
    } else {
      var p, x := xs[..|xs| - 1], xs[|xs| - 1];
      DeliveredIsSubsequence(p);
      if x.Delivered? {
        SubsequenceAppend(DeliveredOf(p), Exited(p), [x.event]);
      } else {
        SubsequenceSkip(DeliveredOf(p), Exited(p), x.event);
      }
    }
  }

  lemma {:induction false} ExitsAddUp(xs: seq<Exit>)
    ensures multiset(Exited(xs)) == multiset(DeliveredOf(xs)) + multiset(DroppedOf(xs))
    decreases |xs|
  {
    if xs != [] {
      ExitsAddUp(xs[..|xs| - 1]);
    }
  }

  lemma SubsequenceNothing(b: seq<Event>)
    ensures Subsequence([], b)
  {
  }

  lemma {:induction false} SubsequenceSkip(a: seq<Event>, b: seq<Event>, e: Event)
    requires Subsequence(a, b)
    ensures Subsequence(a, b + [e])
    decreases |a| + |b|, 1
  {
    assert (b + [e])[..|b|] == b;
    if a != [] && a[|a| - 1] == e {
      SubsequenceShorter(a, b);
    }
  }

  lemma {:induction false} SubsequenceShorter(a: seq<Event>, b: seq<Event>)
    requires Subsequence(a, b) && a != []
    ensures Subsequence(a[..|a| - 1], b)
    decreases |a| + |b|, 0
  {
    var n := |b| - 1;
    assert b == b[..n] + [b[n]];
    if a[|a| - 1] != b[n] {
      SubsequenceShorter(a, b[..n]);
    }
    SubsequenceSkip(a[..|a| - 1], b[..n], b[n]);
  }

  /** For every interleaving of producers and dispatcher: the queue stays within capacity, what
      was delivered followed by what is queued is an in-order subsequence of what was accepted,
      nothing accepted is unaccounted for, and every lost event was overtaken by an event that
      was accepted after its producer had made room for it. */
  lemma EveryRun(steps: seq<Step>)
    ensures var s := Run(EMPTY, steps);
            && |s.queue| <= CAPACITY
            && Subsequence(DeliveredOf(s.exits) + s.queue, s.accepted)
            && multiset(s.accepted) == multiset(DeliveredOf(s.exits)) + multiset(s.queue) + multiset(DroppedOf(s.exits))
            && forall i :: 0 <= i < |s.lost| ==> Overtaken(s.lost[i])
  {
    RunKeepsInv(EMPTY, steps);
    var s := Run(EMPTY, steps);
    DeliveredIsSubsequence(s.exits);
    ExitsAddUp(s.exits);
    SubsequenceAppend(DeliveredOf(s.exits), Exited(s.exits), s.queue);
  }

  /** At the moment an event is lost, the newest queued event is one accepted after the losing
      producer had made room: watchers still get a later state. */
  lemma LossLeavesNewerTail(s: State, p: nat)
    requires Inv(s) && |Next(s, Retry(p)).lost| > |s.lost|
    ensures var mark := s.producers[p].mark;
            && mark < |s.accepted|
            && s.queue != [] && s.queue[|s.queue| - 1] == s.accepted[|s.accepted| - 1]
  {
    assert RoomOk(s, s.producers[p]);
  }

  // ----- A lone producer loses nothing -----

  predicate OnlyProducer(p: nat, steps: seq<Step>) {
    forall i :: 0 <= i < |steps| ==> steps[i].Dispatch? || steps[i].p == p
  }

  ghost predicate LoneInv(s: State, p: nat) {
    && Inv(s) && s.lost == [] && s.producers.Keys <= {p}
    && (ProducerOf(s, p).Retrying? ==> |s.queue| < CAPACITY)
  }

  /** With a single producer every enqueue call ends with its event accepted. */
  lemma {:induction false} LoneProducerLosesNothing(s: State, p: nat, steps: seq<Step>)
    requires LoneInv(s, p) && OnlyProducer(p, steps)
    ensures LoneInv(Run(s, steps), p)
    decreases |steps|
  {
    if steps != [] {
      NextKeepsInv(s, steps[0]);
      assert LoneInv(Next(s, steps[0]), p);
      LoneProducerLosesNothing(Next(s, steps[0]), p, steps[1..]);
    }
  }

  // ----- The enqueue call -----

  lemma {:induction false} RunAppend(s: State, a: seq<Step>, b: seq<Step>)
    ensures Run(s, a + b) == Run(Run(s, a), b)
    decreases |a|
  {
    if a == [] {
      assert a + b == b;
    } else {
      assert (a + b)[0] == a[0] && (a + b)[1..] == a[1..] + b;
      RunAppend(Next(s, a[0]), a[1..], b);
    }
  }

  predicate Others(p: nat, steps: seq<Step>) {
    forall i :: 0 <= i < |steps| ==> steps[i].Dispatch? || steps[i].p != p
  }

  lemma {:induction false} OthersKeepProducer(s: State, p: nat, steps: seq<Step>)
    requires Others(p, steps)
    ensures ProducerOf(Run(s, steps), p) == ProducerOf(s, p)
    decreases |steps|
  {
    if steps != [] {
      OthersKeepProducer(Next(s, steps[0]), p, steps[1..]);
    }
  }

  class Storage {
    ghost var history: seq<Step>
    var watchEvents: State

    ghost predicate Valid()
      reads this
    {
      watchEvents == Run(EMPTY, history)
    }

    constructor ()
      ensures Valid() && history == []
    {
      watchEvents := EMPTY;
      history := [];
    }

    method Take(step: Step)
      requires Valid()
      modifies this
      ensures Valid() && history == old(history) + [step] && watchEvents == Next(old(watchEvents), step)
    {
      RunAppend(EMPTY, history, [step]);
      assert [step][1..] == [];
      history := history + [step];
      watchEvents := Next(watchEvents, step);
    }

    method Interfere(steps: seq<Step>)
      requires Valid()
      modifies this
      ensures Valid() && history == old(history) + steps && watchEvents == Run(old(watchEvents), steps)
    {
      RunAppend(EMPTY, history, steps);
      history := history + steps;
      watchEvents := Run(watchEvents, steps);
    }

    /** One enqueue call; others act between its channel operations. It returns with the
        producer idle again after at most three operations, and its event is either accepted
        or recorded as lost. */
    method EnqueueWatchEvent(p: nat, event: Event, between1: seq<Step>, between2: seq<Step>) returns (accepted: bool)
      requires Valid() && ProducerOf(watchEvents, p).Idle? && Others(p, between1) && Others(p, between2)
      modifies this
      ensures Valid() && ProducerOf(watchEvents, p).Idle?
      ensures var sent := [Send(p, event)];
              history == old(history) +
                if |old(watchEvents.queue)| < CAPACITY then sent
                else sent + between1 + [MakeRoom(p)] + between2 + [Retry(p)]
      ensures accepted ==> watchEvents.queue != [] && watchEvents.queue[|watchEvents.queue| - 1] == event
      ensures !accepted ==> watchEvents.lost != [] && watchEvents.lost[|watchEvents.lost| - 1].event == event
    {
      hide Run;
      Take(Send(p, event));
      if ProducerOf(watchEvents, p).Idle? {
        return true;
      }
      OthersKeepProducer(watchEvents, p, between1);
      Interfere(between1);
      Take(MakeRoom(p));
      OthersKeepProducer(watchEvents, p, between2);
      Interfere(between2);
      accepted := |watchEvents.queue| < CAPACITY;
      Take(Retry(p));
    }

    method DispatchWatchEvent() returns (event: Event, any: bool)
      requires Valid()
      modifies this
      ensures Valid() && history == old(history) + [Dispatch]
      ensures any == (old(watchEvents.queue) != [])
      ensures any ==> event == old(watchEvents.queue)[0] && watchEvents.queue == old(watchEvents.queue)[1..]
    {
      any := watchEvents.queue != [];
      event := if any then watchEvents.queue[0] else 0;
      Take(Dispatch);
    }
  }
}
