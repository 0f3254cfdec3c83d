/** The webhook's debounce protocol: one buffer and one registered timer per phone,
    both guarded by a lock. A timer thread first waits out its delay, then waits for the
    lock, then takes the buffer. Cancelling reaches only a thread still in its delay, so a
    timer whose delay has passed still runs. Steps are the lock sections and the end of a
    delay; any interleaving of them is a run. */
module Debounce {
  import opened Basics

  type Phone = string

  datatype Phase = Armed | Waiting | Cancelled | Finished

  datatype Thread = Thread(phone: Phone, phase: Phase)

  /** The texts one timer took from a phone's buffer. */
  datatype Batch = Batch(phone: Phone, texts: seq<string>, timer: nat)

  datatype Server = Server(
    timers: map<Phone, nat>,
    buffers: map<Phone, seq<string>>,
    threads: seq<Thread>,
    batches: seq<Batch>)
  {
    function Buffer(phone: Phone): seq<string> {
      if phone in buffers then buffers[phone] else []
    }

    predicate Outstanding(t: nat) {
      t < |threads| && (threads[t].phase == Armed || threads[t].phase == Waiting)
    }

    predicate IsWaiting(t: nat) { t < |threads| && threads[t].phase == Waiting }
  }

  /** A text arrives; a timer's delay ends; a waiting timer gets the lock. A step that the
      named thread cannot take changes nothing. */
  datatype Step = Arrive(phone: Phone, text: string) | Expire(timer: nat) | Take(timer: nat)

  const START := Server(map[], map[], [], [])

  function SetPhase(threads: seq<Thread>, t: nat, phase: Phase): seq<Thread>
    requires t < |threads|
  {
    threads[t := threads[t].(phase := phase)]
  }

  /** `Timer.cancel()`: too late for a thread that is past its delay. */
  function Cancel(threads: seq<Thread>, t: nat): (r: seq<Thread>)
    ensures |r| == |threads|
  {
    if t < |threads| && threads[t].phase == Armed then SetPhase(threads, t, Cancelled) else threads
  }

  function ArriveStep(s: Server, phone: Phone, text: string): Server {
    var threads := if phone in s.timers then Cancel(s.threads, s.timers[phone]) else s.threads;
    s.(buffers := s.buffers[phone := s.Buffer(phone) + [text]],
       timers := s.timers[phone := |threads|],
       threads := threads + [Thread(phone, Armed)])
  }

  /** The lock section of a timer: it takes its phone's buffer and registration, whoever's they are. */
  function TakeStep(s: Server, t: nat): Server
    requires t < |s.threads|
  {
    var phone := s.threads[t].phone;
    var pending := s.Buffer(phone);
    s.(buffers := s.buffers - {phone},
       timers := s.timers - {phone},
       threads := SetPhase(s.threads, t, Finished),
       batches := if pending == [] then s.batches else s.batches + [Batch(phone, pending, t)])
  }

  function Next(s: Server, step: Step): Server {
    match step
    case Arrive(phone, text) => ArriveStep(s, phone, text)
    case Expire(t) =>
      if t < |s.threads| && s.threads[t].phase == Armed then s.(threads := SetPhase(s.threads, t, Waiting)) else s
    case Take(t) => if s.IsWaiting(t) then TakeStep(s, t) else s
  }

  function Run(steps: seq<Step>): Server {
    if steps == [] then START else Next(Run(steps[..|steps| - 1]), steps[|steps| - 1])
  }

  /** The texts a phone sent, in order. */
  function Received(steps: seq<Step>, phone: Phone): seq<string> {
    if steps == [] then []
    else
      Received(steps[..|steps| - 1], phone) + Texts(steps[|steps| - 1], phone)
  }

  function Texts(step: Step, phone: Phone): seq<string> {
    if step.Arrive? && step.phone == phone then [step.text] else []
  }

  /** The texts taken for a phone, in order. */
  function Delivered(batches: seq<Batch>, phone: Phone): seq<string> {
    if batches == [] then []
    else
      var b := batches[|batches| - 1];
      Delivered(batches[..|batches| - 1], phone) + (if b.phone == phone then b.texts else [])
  }

  /** The timer started by a phone's latest text: timers are numbered by arrival. */
  function LatestTimer(steps: seq<Step>, phone: Phone): Option<nat> {
    if steps == [] then None
    else
      var front, step := steps[..|steps| - 1], steps[|steps| - 1];
      if step.Arrive? && step.phone == phone then Some(Arrivals(front)) else LatestTimer(front, phone)
  }

  function Arrivals(steps: seq<Step>): nat {
    if steps == [] then 0
    else Arrivals(steps[..|steps| - 1]) + (if steps[|steps| - 1].Arrive? then 1 else 0)
  }

  /** Taking moves a buffer to the taken texts and touches no other phone. */
  lemma DeliveredSnoc(batches: seq<Batch>, b: Batch, phone: Phone)
    ensures Delivered(batches + [b], phone) == Delivered(batches, phone) + (if b.phone == phone then b.texts else [])
  {
    assert (batches + [b])[..|batches|] == batches;
  }

  lemma TakeConserves(s: Server, t: nat, phone: Phone)
    requires t < |s.threads|
    ensures var s' := TakeStep(s, t);
            Delivered(s'.batches, phone) + s'.Buffer(phone) == Delivered(s.batches, phone) + s.Buffer(phone)
  {
    var taken := s.threads[t].phone;
    DeliveredSnoc(s.batches, Batch(taken, s.Buffer(taken), t), phone);
  }

  lemma NextConserves(s: Server, step: Step, phone: Phone)
    ensures Delivered(Next(s, step).batches, phone) + Next(s, step).Buffer(phone)
         == Delivered(s.batches, phone) + s.Buffer(phone) + Texts(step, phone)
  {
    if step.Take? && s.IsWaiting(step.timer) { TakeConserves(s, step.timer, phone); }
  }

  /** Nothing is lost, duplicated or reordered: what was taken, followed by what is buffered,
      is what was received. */
  lemma {:induction false} NothingLost(steps: seq<Step>, phone: Phone)
    ensures Delivered(Run(steps).batches, phone) + Run(steps).Buffer(phone) == Received(steps, phone)
  {
    if steps != [] {
      var front, step := steps[..|steps| - 1], steps[|steps| - 1];
      NothingLost(front, phone);
      NextConserves(Run(front), step, phone);
    }
  }

  /** Who is registered: a thread of the phone itself, and, while texts are buffered, the
      outstanding thread of the phone's latest text. */
  ghost predicate Registered(s: Server, phone: Phone, latest: Option<nat>) {
    && (phone in s.timers ==> s.timers[phone] < |s.threads| && s.threads[s.timers[phone]].phone == phone)
    && (s.Buffer(phone) != [] ==>
          phone in s.timers && s.Outstanding(s.timers[phone]) && latest == Some(s.timers[phone]))
  }

  ghost predicate WellRegistered(s: Server, steps: seq<Step>) {
    && |s.threads| == Arrivals(steps)
    && (forall phone :: Registered(s, phone, LatestTimer(steps, phone)))
    && (forall p, q :: p in s.timers && q in s.timers && s.timers[p] == s.timers[q] ==> p == q)
  }

  lemma {:induction false} AlwaysRegistered(steps: seq<Step>)
    ensures WellRegistered(Run(steps), steps)
  {
    if steps != [] {
      var front, step := steps[..|steps| - 1], steps[|steps| - 1];
      AlwaysRegistered(front);
      var s, s' := Run(front), Run(steps);
      forall phone ensures Registered(s', phone, LatestTimer(steps, phone)) {
        assert Registered(s, phone, LatestTimer(front, phone));
        if step.Take? && s.IsWaiting(step.timer) {
          assert phone == s.threads[step.timer].phone || s'.Buffer(phone) == s.Buffer(phone);
        }
        if step.Arrive? && step.phone in s.timers {
          assert Registered(s, step.phone, LatestTimer(front, step.phone));
        }
      }
      forall p | p in s.timers ensures s.timers[p] < |s.threads| {
        assert Registered(s, p, LatestTimer(front, p));
      }
    }
  }

  /** Buffered texts always have an outstanding timer that will take them; once a phone has no
      outstanding timer, everything it sent was taken. */
  lemma BufferedTextsHaveTimer(steps: seq<Step>, phone: Phone)
    ensures var s := Run(steps);
            s.Buffer(phone) != [] ==>
              && phone in s.timers && s.Outstanding(s.timers[phone])
              && s.threads[s.timers[phone]].phone == phone
    ensures var s := Run(steps);
            (forall t: nat :: s.Outstanding(t) ==> s.threads[t].phone != phone) ==>
              s.Buffer(phone) == [] && Delivered(s.batches, phone) == Received(steps, phone)
  {
    AlwaysRegistered(steps);
    assert Registered(Run(steps), phone, LatestTimer(steps, phone));
    NothingLost(steps, phone);
  }

  /** Progress: letting the registered timer finish takes everything received so far. */
  lemma RegisteredTimerDelivers(steps: seq<Step>, phone: Phone)
    requires Run(steps).Buffer(phone) != []
    ensures phone in Run(steps).timers
    ensures var t := Run(steps).timers[phone];
            var done := Run(steps + [Expire(t), Take(t)]);
            && done.Buffer(phone) == []
            && Delivered(done.batches, phone) == Received(steps, phone)
  {
    AlwaysRegistered(steps);
    var s := Run(steps);
    assert Registered(s, phone, LatestTimer(steps, phone));
    var t := s.timers[phone];
    var more := steps + [Expire(t), Take(t)];
    assert more[..|more| - 1] == steps + [Expire(t)] && (steps + [Expire(t)])[..|steps|] == steps;
    NothingLost(more, phone);
    assert Received(steps + [Expire(t)], phone) == Received(steps, phone);
    assert Received(more, phone) == Received(steps, phone);
  }

  // ---- when the quiet period is kept

  /** Since the phone's latest text arrived, the delay of that text's own timer has run out. */
  predicate DelayPassed(steps: seq<Step>, phone: Phone) {
    steps != [] &&
    var front, step := steps[..|steps| - 1], steps[|steps| - 1];
    if step.Arrive? && step.phone == phone then false
    else DelayPassed(front, phone) || (step.Expire? && LatestTimer(front, phone) == Some(step.timer))
  }

  /** A phone's latest timer is a thread of the phone, armed exactly while its delay has not passed. */
  ghost predicate LatestIsArmed(s: Server, steps: seq<Step>, phone: Phone) {
    match LatestTimer(steps, phone)
    case None => true
    case Some(t) =>
      && t < |s.threads| && s.threads[t].phone == phone && s.threads[t].phase != Cancelled
      && (s.threads[t].phase == Armed <==> !DelayPassed(steps, phone))
  }

  lemma NewTimerIsArmed(s: Server, steps: seq<Step>, step: Step, phone: Phone)
    requires LatestIsArmed(s, steps, phone) && |s.threads| == Arrivals(steps)
    requires forall p :: Registered(s, p, LatestTimer(steps, p))
    ensures LatestIsArmed(Next(s, step), steps + [step], phone)
  {
    assert (steps + [step])[..|steps|] == steps;
    if step.Arrive? && step.phone in s.timers {
      assert Registered(s, step.phone, LatestTimer(steps, step.phone));
    }
  }

  lemma {:induction false} LatestTimerIsArmed(steps: seq<Step>, phone: Phone)
    ensures LatestIsArmed(Run(steps), steps, phone)
  {
    if steps != [] {
      var front, step := steps[..|steps| - 1], steps[|steps| - 1];
      assert steps == front + [step];
      LatestTimerIsArmed(front, phone);
      AlwaysRegistered(front);
      NewTimerIsArmed(Run(front), front, step, phone);
    }
  }

  /** Whichever timer takes them, buffered texts have had the full quiet period after the latest of them
      exactly when the registered timer is itself past its delay, which the lock section does not check. */
  lemma QuietExactlyWhenRegisteredWaits(steps: seq<Step>, t: nat)
    requires var s := Run(steps); s.IsWaiting(t) && s.Buffer(s.threads[t].phone) != []
    ensures var s := Run(steps);
            var phone := s.threads[t].phone;
            DelayPassed(steps, phone) <==> phone in s.timers && s.IsWaiting(s.timers[phone])
  {
    var phone := Run(steps).threads[t].phone;
    AlwaysRegistered(steps);
    assert Registered(Run(steps), phone, LatestTimer(steps, phone));
    LatestTimerIsArmed(steps, phone);
  }

  /** In particular the registered timer never takes a text early. */
  lemma RegisteredTimerIsQuiet(steps: seq<Step>, t: nat)
    requires var s := Run(steps); s.IsWaiting(t) && s.Buffer(s.threads[t].phone) != [] && IsRegistered(s, t)
    ensures DelayPassed(steps, Run(steps).threads[t].phone)
  {
    QuietExactlyWhenRegisteredWaits(steps, t);
  }

  /** No text arrived while its phone's registered timer was already past its delay. */
  ghost predicate NoLateCancel(steps: seq<Step>) {
    steps == [] ||
    var front, step := steps[..|steps| - 1], steps[|steps| - 1];
    && NoLateCancel(front)
    && (step.Arrive? && step.phone in Run(front).timers ==> !Run(front).IsWaiting(Run(front).timers[step.phone]))
  }

  predicate IsRegistered(s: Server, t: nat) {
    t < |s.threads| && s.threads[t].phone in s.timers && s.timers[s.threads[t].phone] == t
  }

  lemma OnlyRegisteredNext(s: Server, step: Step, t: nat)
    requires forall u: nat :: s.Outstanding(u) ==> IsRegistered(s, u)
    requires step.Arrive? && step.phone in s.timers ==> !s.IsWaiting(s.timers[step.phone])
    requires Next(s, step).Outstanding(t)
    ensures IsRegistered(Next(s, step), t)
  {
    if t < |s.threads| {
      assert s.Outstanding(t);
      if step.Take? && s.IsWaiting(step.timer) { assert s.Outstanding(step.timer); }
    }
  }

  lemma {:induction false} OnlyRegisteredOutstanding(steps: seq<Step>)
    requires NoLateCancel(steps)
    ensures forall t: nat :: Run(steps).Outstanding(t) ==> IsRegistered(Run(steps), t)
  {
    if steps != [] {
      var front, step := steps[..|steps| - 1], steps[|steps| - 1];
      OnlyRegisteredOutstanding(front);
      forall t: nat | Run(steps).Outstanding(t) ensures IsRegistered(Run(steps), t) {
        OnlyRegisteredNext(Run(front), step, t);
      }
    }
  }

  /** Without late cancels every batch leaves its latest text the full quiet period. */
  lemma NoLateCancelKeepsQuiet(steps: seq<Step>, t: nat)
    requires NoLateCancel(steps)
    requires var s := Run(steps); s.IsWaiting(t) && s.Buffer(s.threads[t].phone) != []
    ensures DelayPassed(steps, Run(steps).threads[t].phone)
  {
    OnlyRegisteredOutstanding(steps);
    assert Run(steps).Outstanding(t);
    RegisteredTimerIsQuiet(steps, t);
  }

  lemma LateCancelRun(phone: Phone, first: string, second: string)
    ensures var steps := [Arrive(phone, first), Expire(0), Arrive(phone, second)];
            && Run(steps) == Server(map[phone := 1], map[phone := [first, second]],
                                    [Thread(phone, Waiting), Thread(phone, Armed)], [])
            && LatestTimer(steps, phone) == Some(1)
  {
    var s1, s2 := [Arrive(phone, first)], [Arrive(phone, first), Expire(0)];
    var s3 := [Arrive(phone, first), Expire(0), Arrive(phone, second)];
    assert s3[..2] == s2 && s2[..1] == s1 && s1[..0] == [];
    assert Run(s1) == ArriveStep(START, phone, first);
    assert [] + [first] == [first] && [] + [Thread(phone, Armed)] == [Thread(phone, Armed)];
    assert Run(s2) == Server(map[phone := 0], map[phone := [first]], [Thread(phone, Waiting)], []);
    assert [first] + [second] == [first, second];
    assert [Thread(phone, Waiting)] + [Thread(phone, Armed)] == [Thread(phone, Waiting), Thread(phone, Armed)];
    assert Arrivals(s1) == 1 && Arrivals(s2) == 1;
  }

  /** With one late cancel the older timer takes both texts while the newer one's own timer is still armed. */
  lemma LateCancelBreaksQuiet(phone: Phone, first: string, second: string)
    ensures var steps := [Arrive(phone, first), Expire(0), Arrive(phone, second)];
            var s := Run(steps);
            && s.IsWaiting(0) && s.threads[0].phone == phone && s.Buffer(phone) == [first, second]
            && s.timers[phone] == 1 && s.threads[1].phase == Armed && !DelayPassed(steps, phone)
            && Next(s, Take(0)).batches == [Batch(phone, [first, second], 0)]
  {
    LateCancelRun(phone, first, second);
  }

  /** Being past its own registration does not make a timer early: once the newer timer's delay has passed
      too, the older one may take the texts without cutting the quiet period short. */
  lemma LateTimerMayBeQuiet(phone: Phone, first: string, second: string)
    ensures var steps := [Arrive(phone, first), Expire(0), Arrive(phone, second), Expire(1)];
            var s := Run(steps);
            && s.IsWaiting(0) && s.threads[0].phone == phone && s.Buffer(phone) == [first, second]
            && !IsRegistered(s, 0) && DelayPassed(steps, phone)
  {
    var s3 := [Arrive(phone, first), Expire(0), Arrive(phone, second)];
    var s4 := [Arrive(phone, first), Expire(0), Arrive(phone, second), Expire(1)];
    assert s4[..3] == s3;
    LateCancelRun(phone, first, second);
    assert Run(s4) == Next(Run(s3), Expire(1));
  }

  // ---- the program's globals

  /** The module-level dictionaries and the timer threads they refer to. */
  class Debouncer {
    var timers: map<Phone, nat>
    var buffers: map<Phone, seq<string>>
    var threads: seq<Thread>
    ghost var batches: seq<Batch>

    ghost function View(): Server
      reads this
    {
      Server(timers, buffers, threads, batches)
    }

    constructor ()
      ensures View() == START
    {
      timers, buffers, threads, batches := map[], map[], [], [];
    }

    /** The lock section of the webhook handler. */
    method Webhook(phone: Phone, text: string)
      modifies this
      ensures View() == Next(old(View()), Arrive(phone, text))
    {
      if phone in timers {
        threads := Cancel(threads, timers[phone]);
      }
      if phone !in buffers { buffers := buffers[phone := []]; }
      buffers := buffers[phone := buffers[phone] + [text]];
      timers := timers[phone := |threads|];
      threads := threads + [Thread(phone, Armed)];
    }

    /** A timer thread's delay ends before anyone cancels it. */
    method EndDelay(t: nat)
      requires t < |threads| && threads[t].phase == Armed
      modifies this`threads
      ensures View() == Next(old(View()), Expire(t))
    {
      threads := SetPhase(threads, t, Waiting);
    }

    /** The lock section of a timer's callback; it returns the texts to process. */
    method Process(t: nat) returns (pending: seq<string>)
      requires t < |threads| && threads[t].phase == Waiting
      modifies this
      ensures View() == Next(old(View()), Take(t))
      ensures pending == old(View()).Buffer(old(threads[t].phone))
    {
      var phone := threads[t].phone;
      pending := if phone in buffers then buffers[phone] else [];
      buffers := buffers - {phone};
      timers := timers - {phone};
      threads := SetPhase(threads, t, Finished);
      if pending != [] { batches := batches + [Batch(phone, pending, t)]; }
    }
  }
}
