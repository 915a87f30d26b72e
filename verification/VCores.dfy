/**
 The lock-free accounting of virtual cores. A thread takes a permit from a semaphore, then updates
 one word that packs the time of the last change and the number of cores in use, by compare and
 exchange, and only afterwards adds the core time of the window it closed to a running total.

 The word and the total are updated in separate steps of many threads. There are two references:
 the lock-based version, which does both at once, and the area under the number of cores in use,
 counted instant by instant.
 */
module VCores {
  const TICKETS: nat := 0x1_0000_0000

  // ---------------------------------------------------------------- the packed word

  function Pack(ts: nat, tickets: nat): nat {
    ts * TICKETS + tickets
  }

  function TimeOf(word: nat): nat {
    word / TICKETS
  }

  function TicketsOf(word: nat): nat {
    word % TICKETS
  }

  lemma Unpack(ts: nat, tickets: nat)
    requires tickets < TICKETS
    ensures TimeOf(Pack(ts, tickets)) == ts && TicketsOf(Pack(ts, tickets)) == tickets
  {
  }

  // ---------------------------------------------------------------- the lock-based version

  /** A core is taken (or returned) at a given time. */
  datatype Event = Event(time: nat, take: bool)

  datatype Meter = Meter(last: nat, tickets: int, total: int)

  /** The lock-based version after a history of events. */
  function Locked(history: seq<Event>): Meter {
    if history == [] then Meter(0, 0, 0)
    else
      var m, e := Locked(history[..|history| - 1]), history[|history| - 1];
      Meter(e.time, m.tickets + Change(e), m.total + (e.time - m.last) * m.tickets)
  }

  function Change(e: Event): int {
    if e.take then 1 else -1
  }

  // ---------------------------------------------------------------- the area reference

  /** How many cores are in use during the unit of time that begins at t. */
  function InUse(history: seq<Event>, t: nat): int {
    if history == [] then 0
    else
      var e := history[|history| - 1];
      InUse(history[..|history| - 1], t) + (if e.time <= t then Change(e) else 0)
  }

  /** Core time used before a moment, one unit of time after another. */
  function Area(history: seq<Event>, until: nat): int {
    if until == 0 then 0 else Area(history, until - 1) + InUse(history, until - 1)
  }

  ghost predicate Ordered(history: seq<Event>) {
    forall i, j :: 0 <= i <= j < |history| ==> history[i].time <= history[j].time
  }

  lemma OrderedSnoc(history: seq<Event>, e: Event)
    requires Ordered(history) && Locked(history).last <= e.time
    ensures Ordered(history + [e])
  {
    var h := history + [e];
    forall i, j | 0 <= i <= j < |h| ensures h[i].time <= h[j].time {
      if j == |history| && i < j {
        assert history[i].time <= history[|history| - 1].time;
      }
    }
  }

  lemma {:induction false} InUseAfter(history: seq<Event>, t: nat)
    requires Ordered(history) && Locked(history).last <= t
    ensures InUse(history, t) == Locked(history).tickets
  {
    if history != [] {
      var before := history[..|history| - 1];
      assert before != [] ==> before[|before| - 1] == history[|history| - 2];
      InUseAfter(before, t);
    }
  }

  /** An event changes nothing about the time before it. */
  lemma {:induction false} AreaBefore(history: seq<Event>, e: Event, until: nat)
    requires until <= e.time
    ensures Area(history + [e], until) == Area(history, until)
  {
    if until != 0 {
      AreaBefore(history, e, until - 1);
      assert (history + [e])[..|history|] == history;
    }
  }

  lemma {:induction false} AreaStretch(history: seq<Event>, from: nat, until: nat)
    requires Ordered(history) && Locked(history).last <= from <= until
    ensures Area(history, until) == Area(history, from) + (until - from) * Locked(history).tickets
  {
    if from < until {
      AreaStretch(history, from, until - 1);
      InUseAfter(history, until - 1);
      var k := Locked(history).tickets;
      assert (until - 1 - from) * k + k == (until - from) * k;
    }
  }

  /** The lock-based version reads, at any later moment, exactly the area under the cores in use. */
  lemma {:induction false} LockedIsArea(history: seq<Event>, now: nat)
    requires Ordered(history) && Locked(history).last <= now
    ensures Locked(history).total + (now - Locked(history).last) * Locked(history).tickets == Area(history, now)
  {
    var m := Locked(history);
    if history == [] {
      AreaStretch(history, 0, now);
    } else {
      var before, e := history[..|history| - 1], history[|history| - 1];
      assert before != [] ==> before[|before| - 1] == history[|history| - 2];
      LockedIsArea(before, e.time);
      assert history == before + [e];
      AreaBefore(before, e, e.time);
      AreaStretch(history, e.time, now);
    }
  }

  // ---------------------------------------------------------------- the lock-free version

  /** Where a thread is in `acquire` or `release`. */
  datatype Stage =
    | Idle
    | Permitted
    | TakeLoaded(past: nat) | TakeTimed(past: nat, now: nat) | TakeAdd(window: nat)
    | Holding
    | GiveLoaded(past: nat) | GiveTimed(past: nat, now: nat) | GiveAdd(window: nat)
    | Leaving

  /** `history` logs the successful exchanges; the code does not have it. */
  datatype Group = Group(maxCores: nat, permits: nat, word: nat, utilization: nat, clock: nat,
                         threads: seq<Stage>, history: seq<Event>)

  /** Time passes, or one thread takes one atomic step. */
  datatype Action = Tick(span: nat) | Advance(thread: nat)

  function Init(maxCores: nat, threads: nat): Group {
    Group(maxCores, maxCores, 0, 0, 0, seq(threads, _ => Idle), [])
  }

  function Window(past: nat, now: nat): nat
    requires TimeOf(past) <= now
  {
    (now - TimeOf(past)) * TicketsOf(past)
  }

  /** What a thread remembers is not from the future, and a returning thread saw its own ticket. */
  predicate Sane(stage: Stage, clock: nat) {
    match stage
    case TakeLoaded(past) => TimeOf(past) <= clock
    case TakeTimed(past, now) => TimeOf(past) <= now <= clock
    case GiveLoaded(past) => TimeOf(past) <= clock && TicketsOf(past) >= 1
    case GiveTimed(past, now) => TimeOf(past) <= now <= clock && TicketsOf(past) >= 1
    case _ => true
  }

  function At(g: Group, i: nat, stage: Stage): Group
    requires i < |g.threads|
  {
    g.(threads := g.threads[i := stage])
  }

  /** A successful exchange of the word. */
  function Exchange(g: Group, now: nat, tickets: nat, take: bool): Group {
    g.(word := Pack(now, tickets), history := g.history + [Event(now, take)])
  }

  /** One atomic step of a thread. A thread waits while there is no permit. */
  function Step(g: Group, i: nat): Group
    requires i < |g.threads| && Sane(g.threads[i], g.clock)
  {
    match g.threads[i]
    case Idle => if g.permits == 0 then g else At(g, i, Permitted).(permits := g.permits - 1)
    case Permitted => At(g, i, TakeLoaded(g.word))
    case TakeLoaded(past) => At(g, i, TakeTimed(past, g.clock))
    case TakeTimed(past, now) =>
      if g.word == past
      then Exchange(At(g, i, TakeAdd(Window(past, now))), now, TicketsOf(past) + 1, true)
      else At(g, i, TakeLoaded(g.word))
    case TakeAdd(window) => At(g, i, Holding).(utilization := g.utilization + window)
    case Holding => At(g, i, GiveLoaded(g.word))
    case GiveLoaded(past) => At(g, i, GiveTimed(past, g.clock))
    case GiveTimed(past, now) =>
      if g.word == past
      then Exchange(At(g, i, GiveAdd(Window(past, now))), now, TicketsOf(past) - 1, false)
      else At(g, i, GiveLoaded(g.word))
    case GiveAdd(window) => At(g, i, Leaving).(utilization := g.utilization + window)
    case Leaving => At(g, i, Idle).(permits := g.permits + 1)
  }

  function Act(g: Group, a: Action): Group
    requires AllSane(g)
  {
    match a
    case Tick(span) => g.(clock := g.clock + span)
    case Advance(i) => if i < |g.threads| then Step(g, i) else g
  }

  predicate AllSane(g: Group) {
    forall i :: 0 <= i < |g.threads| ==> Sane(g.threads[i], g.clock)
  }

  // ---------------------------------------------------------------- sums over the threads

  function Sum(ts: seq<Stage>, f: Stage -> int): int {
    if ts == [] then 0 else f(ts[0]) + Sum(ts[1..], f)
  }

  lemma {:induction false} SumUpdate(ts: seq<Stage>, i: nat, s: Stage, f: Stage -> int)
    requires i < |ts|
    ensures Sum(ts[i := s], f) == Sum(ts, f) - f(ts[i]) + f(s)
  {
    if i == 0 {
      assert ts[i := s][1..] == ts[1..];
    } else {
      SumUpdate(ts[1..], i - 1, s, f);
      assert ts[i := s][1..] == ts[1..][i - 1 := s];
    }
  }

  lemma {:induction false} SumZero(ts: seq<Stage>, f: Stage -> int)
    requires forall i :: 0 <= i < |ts| ==> f(ts[i]) == 0
    ensures Sum(ts, f) == 0
  {
    if ts != [] {
      SumZero(ts[1..], f);
    }
  }

  /** Pointwise order of two weights carries over to the sums, with the gap at one thread kept. */
  lemma {:induction false} SumGap(ts: seq<Stage>, i: nat, f: Stage -> int, g: Stage -> int)
    requires i < |ts| && forall s :: f(s) <= g(s)
    ensures Sum(ts, f) + g(ts[i]) - f(ts[i]) <= Sum(ts, g)
  {
    if i > 0 {
      SumGap(ts[1..], i - 1, f, g);
    } else if |ts| > 1 {
      SumGap(ts[1..], 0, f, g);
    }
  }

  function Zero(s: Stage): int { 0 }

  /** The thread's core is counted in the word. */
  function Counted(s: Stage): int {
    if s.TakeAdd? || s.Holding? || s.GiveLoaded? || s.GiveTimed? then 1 else 0
  }

  /** The thread has a permit. */
  function Admitted(s: Stage): int {
    if s.Idle? then 0 else 1
  }

  /** A window closed by the thread and not yet added to the total. */
  function Owed(s: Stage): int {
    if s.TakeAdd? || s.GiveAdd? then s.window else 0
  }

  // ---------------------------------------------------------------- the invariant

  /** The semaphore's permits are neither lost nor invented, and the word counts the cores in use. */
  ghost predicate Counts(g: Group) {
    && g.permits + Sum(g.threads, Admitted) == g.maxCores < TICKETS
    && TicketsOf(g.word) == Sum(g.threads, Counted)
  }

  /** The word is the lock-based version's time and count; the total lags by what is still owed. */
  ghost predicate Agrees(g: Group) {
    var m := Locked(g.history);
    && Ordered(g.history)
    && m.last == TimeOf(g.word) <= g.clock
    && m.tickets == TicketsOf(g.word)
    && g.utilization + Sum(g.threads, Owed) == m.total
  }

  ghost predicate Inv(g: Group) {
    AllSane(g) && Counts(g) && Agrees(g)
  }

  lemma InitInv(maxCores: nat, threads: nat)
    requires maxCores < TICKETS
    ensures Inv(Init(maxCores, threads))
  {
    var g := Init(maxCores, threads);
    SumZero(g.threads, Admitted);
    SumZero(g.threads, Counted);
    SumZero(g.threads, Owed);
  }

  /** How the three sums move when one thread moves. */
  lemma Moves(ts: seq<Stage>, i: nat, s: Stage)
    requires i < |ts|
    ensures Sum(ts[i := s], Admitted) == Sum(ts, Admitted) - Admitted(ts[i]) + Admitted(s)
    ensures Sum(ts[i := s], Counted) == Sum(ts, Counted) - Counted(ts[i]) + Counted(s)
    ensures Sum(ts[i := s], Owed) == Sum(ts, Owed) - Owed(ts[i]) + Owed(s)
  {
    SumUpdate(ts, i, s, Admitted);
    SumUpdate(ts, i, s, Counted);
    SumUpdate(ts, i, s, Owed);
  }

  /** A thread's own core is in the count, and an uncounted thread with a permit leaves room for one more. */
  lemma Room(g: Group, i: nat)
    requires Counts(g) && i < |g.threads|
    ensures Counted(g.threads[i]) <= TicketsOf(g.word)
    ensures TicketsOf(g.word) + Admitted(g.threads[i]) - Counted(g.threads[i]) <= g.maxCores
  {
    SumGap(g.threads, i, Zero, Counted);
    SumZero(g.threads, Zero);
    SumGap(g.threads, i, Counted, Admitted);
  }

  lemma LockedSnoc(history: seq<Event>, e: Event)
    ensures var m := Locked(history);
            Locked(history + [e]) == Meter(e.time, m.tickets + Change(e), m.total + (e.time - m.last) * m.tickets)
  {
    assert (history + [e])[..|history|] == history;
  }

  /** An exchange closes the same window that the lock-based version closes. */
  lemma ExchangeKeeps(g: Group, i: nat, now: nat, tickets: nat, take: bool, s: Stage)
    requires Inv(g) && i < |g.threads| && TimeOf(g.word) <= now <= g.clock
    requires s == if take then TakeAdd(Window(g.word, now)) else GiveAdd(Window(g.word, now))
    requires if take then g.threads[i].TakeTimed? else g.threads[i].GiveTimed?
    requires tickets == TicketsOf(g.word) + Change(Event(now, take))
    ensures Inv(Exchange(At(g, i, s), now, tickets, take))
  {
    hide Ordered, Locked, Sum, Pack, TimeOf, TicketsOf;
    Room(g, i);
    Unpack(now, tickets);
    Moves(g.threads, i, s);
    OrderedSnoc(g.history, Event(now, take));
    LockedSnoc(g.history, Event(now, take));
  }

  lemma StepInv(g: Group, i: nat)
    requires Inv(g) && i < |g.threads|
    ensures Inv(Step(g, i))
  {
    hide Ordered, Locked, Sum, Pack, TimeOf, TicketsOf;
    var t := g.threads[i];
    var r := Step(g, i);
    if t.TakeTimed? && t.past == g.word {
      ExchangeKeeps(g, i, t.now, TicketsOf(t.past) + 1, true, TakeAdd(Window(t.past, t.now)));
    } else if t.GiveTimed? && t.past == g.word {
      ExchangeKeeps(g, i, t.now, TicketsOf(t.past) - 1, false, GiveAdd(Window(t.past, t.now)));
    } else if !t.Idle? || g.permits > 0 {
      Room(g, i);
      Moves(g.threads, i, r.threads[i]);
      assert r.threads == g.threads[i := r.threads[i]];
    }
  }

  lemma ActInv(g: Group, a: Action)
    requires Inv(g)
    ensures Inv(Act(g, a))
  {
    if a.Advance? && a.thread < |g.threads| {
      StepInv(g, a.thread);
    }
  }

  // ---------------------------------------------------------------- whole runs

  /** A run from the initial state: the states and the actions between them. */
  ghost predicate Run(states: seq<Group>, actions: seq<Action>) {
    && |states| == |actions| + 1
    && (exists n: nat :: states[0] == Init(states[0].maxCores, n))
    && states[0].maxCores < TICKETS
    && forall k :: 0 <= k < |actions| ==> AllSane(states[k]) ==> states[k + 1] == Act(states[k], actions[k])
  }

  lemma {:induction false} RunInv(states: seq<Group>, actions: seq<Action>, k: nat)
    requires Run(states, actions) && k < |states|
    ensures Inv(states[k]) && states[k].maxCores == states[0].maxCores
  {
    if k == 0 {
      var n: nat :| states[0] == Init(states[0].maxCores, n);
      InitInv(states[0].maxCores, n);
    } else {
      RunInv(states, actions, k - 1);
      assert states[k - 1 + 1] == Act(states[k - 1], actions[k - 1]);
      ActInv(states[k - 1], actions[k - 1]);
    }
  }

  /** No window is closed but not yet added. */
  ghost predicate Quiescent(g: Group) {
    forall i :: 0 <= i < |g.threads| ==> !g.threads[i].TakeAdd? && !g.threads[i].GiveAdd?
  }

  /**
   In every state of every interleaving the packed count is the number of threads that use a core,
   within the limit. The running total, with what threads still owe, is the lock-based total, and
   a reading taken when nobody owes anything is the exact area under the cores in use.
   */
  lemma AccountingIsExact(states: seq<Group>, actions: seq<Action>, k: nat)
    requires Run(states, actions) && k < |states|
    ensures var g := states[k];
            && TicketsOf(g.word) == Sum(g.threads, Counted) <= states[0].maxCores
            && TimeOf(g.word) <= g.clock
            && g.utilization + Sum(g.threads, Owed) + Window(g.word, g.clock) == Area(g.history, g.clock)
            && (Quiescent(g) ==> g.utilization == Locked(g.history).total)
            && (Quiescent(g) ==> g.utilization + Window(g.word, g.clock) == Area(g.history, g.clock))
  {
    RunInv(states, actions, k);
    var g := states[k];
    LockedIsArea(g.history, g.clock);
    if |g.threads| > 0 {
      Room(g, 0);
      SumGap(g.threads, 0, Counted, Admitted);
    }
    if Quiescent(g) {
      SumZero(g.threads, Owed);
    }
  }

  // ---------------------------------------------------------------- cores are handed out and given back

  /** Thread `i` takes `n` steps while everybody else waits. */
  ghost function Solo(g: Group, i: nat, n: nat): (r: Group)
    requires Inv(g) && i < |g.threads|
    ensures Inv(r) && |r.threads| == |g.threads|
    decreases n
  {
    if n == 0 then g
    else
      StepInv(g, i);
      Solo(Step(g, i), i, n - 1)
  }

  /** In every state with a free permit an idle thread gets a core in five steps of its own. */
  lemma IdleGetsCore(g: Group, i: nat)
    requires Inv(g) && i < |g.threads| && g.threads[i].Idle? && g.permits > 0
    ensures var r := Solo(g, i, 5);
            && r.threads == g.threads[i := Holding] && r.permits == g.permits - 1
            && r.maxCores == g.maxCores && r.clock == g.clock && TicketsOf(r.word) == TicketsOf(g.word) + 1
  {
  }

  /** A thread that holds a core is idle again in five steps of its own, and its permit is free. */
  lemma CoreIsGivenBack(g: Group, i: nat)
    requires Inv(g) && i < |g.threads| && g.threads[i].Holding?
    ensures var r := Solo(g, i, 5);
            && r.threads == g.threads[i := Idle] && r.permits == g.permits + 1
            && r.maxCores == g.maxCores && r.clock == g.clock && TicketsOf(r.word) == TicketsOf(g.word) - 1
  {
  }

  /** A run goes on with steps of one thread. */
  lemma {:induction false} RunOn(states: seq<Group>, actions: seq<Action>, i: nat, n: nat)
    returns (states': seq<Group>, actions': seq<Action>)
    requires Run(states, actions) && i < |states[|actions|].threads|
    ensures Run(states', actions') && states'[0] == states[0]
    ensures Inv(states[|actions|]) && states'[|actions'|] == Solo(states[|actions|], i, n)
    decreases n
  {
    hide Inv, Step, Init, AllSane;
    RunInv(states, actions, |actions|);
    states', actions' := states, actions;
    if n > 0 {
      var g := states[|actions|];
      StepInv(g, i);
      SameThreads(g, i);
      states', actions' := RunMore(states, actions, i);
      states', actions' := RunOn(states', actions', i, n - 1);
    }
  }

  lemma SameThreads(g: Group, i: nat)
    requires Inv(g) && i < |g.threads|
    ensures |Step(g, i).threads| == |g.threads|
  {
    hide Counts, Agrees;
  }

  lemma RunMore(states: seq<Group>, actions: seq<Action>, i: nat) returns (states': seq<Group>, actions': seq<Action>)
    requires Run(states, actions) && Inv(states[|actions|]) && i < |states[|actions|].threads|
    ensures Run(states', actions') && states'[0] == states[0] && |actions'| == |actions| + 1
    ensures states'[|actions'|] == Step(states[|actions|], i)
  {
    hide Step, Init, Counts, Agrees;
    var g := states[|actions|];
    states', actions' := states + [Act(g, Advance(i))], actions + [Advance(i)];
    forall k | 0 <= k < |actions'| && AllSane(states'[k]) ensures states'[k + 1] == Act(states'[k], actions'[k]) {
      if k < |actions| { assert states[k + 1] == Act(states[k], actions[k]); }
    }
  }

  /** All cores can be in use at once: some run makes as many threads hold one as there are cores. */
  lemma {:induction false} AllCoresInUse(maxCores: nat, threads: nat, n: nat) returns (states: seq<Group>, actions: seq<Action>)
    requires maxCores < TICKETS && n <= maxCores && n <= threads
    ensures Run(states, actions) && states[0] == Init(maxCores, threads)
    ensures var g := states[|actions|];
            && g.permits == maxCores - n && |g.threads| == threads
            && forall i :: 0 <= i < threads ==> g.threads[i] == if i < n then Holding else Idle
  {
    if n == 0 {
      states, actions := [Init(maxCores, threads)], [];
    } else {
      states, actions := AllCoresInUse(maxCores, threads, n - 1);
      hide Run, Inv, Init;
      var g := states[|actions|];
      RunInv(states, actions, |actions|);
      states, actions := RunOn(states, actions, n - 1, 5);
      IdleGetsCore(g, n - 1);
    }
  }
}
