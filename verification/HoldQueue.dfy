/** Requests held at the gateway while a service wakes up: one queue per service, with deadlines. */
module HoldQueue {
  import opened Buckets
  import opened Durations

  datatype Config = Config(holdTimeout: int, maxHeld: int)
  {
    predicate Valid() {
      holdTimeout > 0 && maxHeld > 0
    }
  }

  /** Zero and negative settings fall back to thirty seconds and a hundred requests. */
  function Defaulted(c: Config): (d: Config)
    ensures d.Valid() && (c.Valid() ==> d == c)
  {
    Config(if c.holdTimeout <= 0 then 30 * SECOND else c.holdTimeout, if c.maxHeld <= 0 then 100 else c.maxHeld)
  }

  datatype Hold = Hold(requestId: string, service: string, correlationId: string, heldAt: int, expiresAt: int)

  type Queues = Buckets<Hold>

  datatype State = State(holds: Queues, total: nat, expired: nat, resumed: nat)

  const EMPTY := State(map[], 0, 0, 0)

  datatype Command =
    | HoldRequest(service: string, requestId: string, correlationId: string, timeout: int, now: int)
    | Resume(service: string, now: int)
    | Collect(now: int)

  /** Requests whose deadline is still ahead. */
  function Resumable(q: seq<Hold>, now: int): seq<Hold> {
    if q == [] then []
    else if now < q[0].expiresAt then [q[0]] + Resumable(q[1..], now)
    else Resumable(q[1..], now)
  }

  /** Requests whose deadline has not passed: the deadline itself still counts as not passed. */
  function Remaining(q: seq<Hold>, now: int): seq<Hold> {
    if q == [] then []
    else if now > q[0].expiresAt then Remaining(q[1..], now)
    else [q[0]] + Remaining(q[1..], now)
  }

  /** Requests whose deadline has passed. */
  function Passed(q: seq<Hold>, now: int): seq<Hold> {
    if q == [] then []
    else if now > q[0].expiresAt then [q[0]] + Passed(q[1..], now)
    else Passed(q[1..], now)
  }

  function AfterCollect(holds: Queues, now: int): Queues {
    map service | service in holds && Remaining(holds[service], now) != [] :: Remaining(holds[service], now)
  }

  function NewHold(cfg: Config, c: Command): Hold
    requires c.HoldRequest?
  {
    Hold(c.requestId, c.service, c.correlationId, c.now, c.now + if c.timeout <= 0 then cfg.holdTimeout else c.timeout)
  }

  predicate Refused(s: State, cfg: Config, c: Command)
    requires c.HoldRequest?
  {
    |BucketOf(s.holds, c.service)| >= cfg.maxHeld
  }

  ghost function Step(s: State, cfg: Config, c: Command): State {
    match c
    case HoldRequest(service, _, _, _, _) =>
      var counted := s.(total := s.total + 1);
      if Refused(s, cfg, c) then counted
      else counted.(holds := s.holds[service := BucketOf(s.holds, service) + [NewHold(cfg, c)]])
    case Resume(service, now) =>
      var q := BucketOf(s.holds, service);
      var alive := |Resumable(q, now)|;
      ResumableFits(q, now);
      if q == [] then s
      else s.(holds := s.holds - {service}, resumed := s.resumed + alive, expired := s.expired + (|q| - alive))
    case Collect(now) =>
      AfterCollectKeeps(s.holds, now);
      s.(holds := AfterCollect(s.holds, now),
         expired := s.expired + (|All(s.holds)| - |All(AfterCollect(s.holds, now))|))
  }

  // ---------------------------------------------------------------- queues split into parts

  lemma {:induction false} ResumableFits(q: seq<Hold>, now: int)
    ensures multiset(Resumable(q, now)) <= multiset(q) && |Resumable(q, now)| <= |q|
  {
    if q != [] {
      ResumableFits(q[1..], now);
      assert q == [q[0]] + q[1..];
    }
  }

  lemma {:induction false} CollectSplits(q: seq<Hold>, now: int)
    ensures multiset(q) == multiset(Remaining(q, now)) + multiset(Passed(q, now))
  {
    if q != [] {
      CollectSplits(q[1..], now);
      assert q == [q[0]] + q[1..];
    }
  }

  function PassedQueues(holds: Queues, now: int): Queues {
    map service | service in holds :: Passed(holds[service], now)
  }

  /** The requests that a collection expires, over all services. */
  ghost function AllPassed(holds: Queues, now: int): multiset<Hold> {
    All(PassedQueues(holds, now))
  }

  lemma KeptOfOneService(holds: Queues, service: string, now: int)
    requires service in holds
    ensures All(AfterCollect(holds, now))
        == multiset(Remaining(holds[service], now)) + All(AfterCollect(holds - {service}, now))
  {
    var after := AfterCollect(holds, now);
    AllOfBucket(after, service);
    assert after - {service} == AfterCollect(holds - {service}, now);
    assert BucketOf(after, service) == Remaining(holds[service], now);
  }

  lemma PassedOfOneService(holds: Queues, service: string, now: int)
    requires service in holds
    ensures AllPassed(holds, now) == multiset(Passed(holds[service], now)) + AllPassed(holds - {service}, now)
  {
    var passed := PassedQueues(holds, now);
    AllWithout(passed, service);
    assert passed - {service} == PassedQueues(holds - {service}, now);
  }

  /** Collecting splits the held requests into those kept and those expired. */
  lemma {:induction false} AfterCollectKeeps(holds: Queues, now: int)
    ensures All(holds) == All(AfterCollect(holds, now)) + AllPassed(holds, now)
    decreases |holds|
  {
    if holds != map[] {
      var service :| service in holds;
      AfterCollectKeeps(holds - {service}, now);
      AllWithout(holds, service);
      CollectSplits(holds[service], now);
      KeptOfOneService(holds, service, now);
      PassedOfOneService(holds, service, now);
    } else {
      assert AfterCollect(holds, now) == map[] && PassedQueues(holds, now) == map[];
    }
  }

  /** The counter may be raised by the number of expired requests handed back. */
  lemma CollectStep(s: State, cfg: Config, passed: seq<Hold>, now: int)
    requires multiset(passed) == AllPassed(s.holds, now)
    ensures Step(s, cfg, Collect(now)) == s.(holds := AfterCollect(s.holds, now), expired := s.expired + |passed|)
  {
    AfterCollectKeeps(s.holds, now);
    assert |multiset(passed)| == |passed|;
  }

  // ---------------------------------------------------------------- runs

  /** What became of every request so far. */
  datatype Ledger = Ledger(rejected: nat, accepted: multiset<Hold>, resumed: multiset<Hold>, expired: multiset<Hold>)

  ghost function Record(l: Ledger, s: State, cfg: Config, c: Command): Ledger {
    match c
    case HoldRequest(_, _, _, _, _) =>
      if Refused(s, cfg, c) then l.(rejected := l.rejected + 1)
      else l.(accepted := l.accepted + multiset{NewHold(cfg, c)})
    case Resume(service, now) =>
      var q := BucketOf(s.holds, service);
      l.(resumed := l.resumed + multiset(Resumable(q, now)),
         expired := l.expired + (multiset(q) - multiset(Resumable(q, now))))
    case Collect(now) => l.(expired := l.expired + AllPassed(s.holds, now))
  }

  datatype Outcome = Outcome(state: State, ledger: Ledger)

  ghost function Run(cfg: Config, commands: seq<Command>): Outcome {
    if commands == [] then Outcome(EMPTY, Ledger(0, multiset{}, multiset{}, multiset{}))
    else
      var before := Run(cfg, commands[..|commands| - 1]);
      var c := commands[|commands| - 1];
      Outcome(Step(before.state, cfg, c), Record(before.ledger, before.state, cfg, c))
  }

  predicate QueuesAreSound(s: State, cfg: Config) {
    forall service :: service in s.holds ==>
      && 1 <= |s.holds[service]| <= cfg.maxHeld
      && forall k :: 0 <= k < |s.holds[service]| ==> s.holds[service][k].service == service
  }

  ghost predicate Balanced(o: Outcome) {
    && o.ledger.accepted == All(o.state.holds) + o.ledger.resumed + o.ledger.expired
    && o.state.total == o.ledger.rejected + |o.ledger.accepted|
    && o.state.resumed == |o.ledger.resumed|
    && o.state.expired == |o.ledger.expired|
  }

  lemma HoldingKeepsBalance(cfg: Config, o: Outcome, c: Command)
    requires Balanced(o) && c.HoldRequest?
    ensures Balanced(Outcome(Step(o.state, cfg, c), Record(o.ledger, o.state, cfg, c)))
  {
    var s := o.state;
    if !Refused(s, cfg, c) {
      AllAfterAppend(s.holds, c.service, NewHold(cfg, c));
    }
  }

  /** Moving one queue out of the held requests, part to the resumed and the rest to the expired. */
  lemma MoveParts<T>(
    q: multiset<T>, alive: multiset<T>, others: multiset<T>, resumed: multiset<T>, expired: multiset<T>)
    requires alive <= q
    ensures q + others + resumed + expired == others + (resumed + alive) + (expired + (q - alive))
    ensures |expired + (q - alive)| == |expired| + (|q| - |alive|)
  {
  }

  lemma ResumeSplits(holds: Queues, service: string, now: int, resumed: multiset<Hold>, expired: multiset<Hold>)
    ensures var q := BucketOf(holds, service);
            var alive := multiset(Resumable(q, now));
            && All(holds) + resumed + expired
                == All(holds - {service}) + (resumed + alive) + (expired + (multiset(q) - alive))
            && |resumed + alive| == |resumed| + |Resumable(q, now)|
            && |expired + (multiset(q) - alive)| == |expired| + (|q| - |Resumable(q, now)|)
  {
    var q := BucketOf(holds, service);
    AllOfBucket(holds, service);
    ResumableFits(q, now);
    MoveParts(multiset(q), multiset(Resumable(q, now)), All(holds - {service}), resumed, expired);
  }

  lemma ResumingKeepsBalance(cfg: Config, o: Outcome, c: Command)
    requires Balanced(o) && c.Resume?
    ensures Balanced(Outcome(Step(o.state, cfg, c), Record(o.ledger, o.state, cfg, c)))
  {
    ResumeSplits(o.state.holds, c.service, c.now, o.ledger.resumed, o.ledger.expired);
    if BucketOf(o.state.holds, c.service) == [] {
      AllOfBucket(o.state.holds, c.service);
    }
  }

  lemma CollectingKeepsBalance(cfg: Config, o: Outcome, c: Command)
    requires Balanced(o) && c.Collect?
    ensures Balanced(Outcome(Step(o.state, cfg, c), Record(o.ledger, o.state, cfg, c)))
  {
    AfterCollectKeeps(o.state.holds, c.now);
  }

  lemma BalanceIsKept(cfg: Config, o: Outcome, c: Command)
    requires Balanced(o)
    ensures Balanced(Outcome(Step(o.state, cfg, c), Record(o.ledger, o.state, cfg, c)))
  {
    match c {
      case HoldRequest(_, _, _, _, _) => HoldingKeepsBalance(cfg, o, c);
      case Resume(_, _) => ResumingKeepsBalance(cfg, o, c);
      case Collect(_) => CollectingKeepsBalance(cfg, o, c);
    }
  }

  /**
   No request is lost or counted twice: each one ever accepted is held, resumed or expired, and the counters say
   how many.
   */
  lemma {:induction false} EveryRequestIsAccountedFor(cfg: Config, commands: seq<Command>)
    ensures Balanced(Run(cfg, commands))
  {
    if commands != [] {
      EveryRequestIsAccountedFor(cfg, commands[..|commands| - 1]);
      BalanceIsKept(cfg, Run(cfg, commands[..|commands| - 1]), commands[|commands| - 1]);
    }
  }

  /** The counters alone: total is rejected, held, expired and resumed together. */
  lemma CountersAddUp(cfg: Config, commands: seq<Command>)
    ensures var o := Run(cfg, commands);
            o.state.total == o.ledger.rejected + |All(o.state.holds)| + o.state.expired + o.state.resumed
  {
    EveryRequestIsAccountedFor(cfg, commands);
  }

  lemma {:induction false} RemainingComesFrom(q: seq<Hold>, now: int)
    ensures |Remaining(q, now)| <= |q| && forall h :: h in Remaining(q, now) <==> h in q && now <= h.expiresAt
  {
    if q != [] {
      RemainingComesFrom(q[1..], now);
    }
  }

  lemma {:induction false} ResumableComesFrom(q: seq<Hold>, now: int)
    ensures forall h :: h in Resumable(q, now) <==> h in q && now < h.expiresAt
  {
    if q != [] {
      ResumableComesFrom(q[1..], now);
    }
  }

  lemma SoundnessIsKept(cfg: Config, s: State, c: Command)
    requires cfg.Valid() && QueuesAreSound(s, cfg)
    ensures QueuesAreSound(Step(s, cfg, c), cfg)
  {
    if c.Collect? {
      var after := Step(s, cfg, c);
      forall service | service in after.holds
        ensures 1 <= |after.holds[service]| <= cfg.maxHeld
             && forall k :: 0 <= k < |after.holds[service]| ==> after.holds[service][k].service == service
      {
        RemainingComesFrom(s.holds[service], c.now);
        forall k | 0 <= k < |after.holds[service]| ensures after.holds[service][k].service == service {
          assert after.holds[service][k] in s.holds[service];
        }
      }
    }
  }

  /** A queue is never empty, never longer than allowed, and holds requests of its own service only. */
  lemma {:induction false} QueuesStaySound(cfg: Config, commands: seq<Command>)
    requires cfg.Valid()
    ensures QueuesAreSound(Run(cfg, commands).state, cfg)
  {
    if commands != [] {
      QueuesStaySound(cfg, commands[..|commands| - 1]);
      SoundnessIsKept(cfg, Run(cfg, commands[..|commands| - 1]).state, commands[|commands| - 1]);
    }
  }

  // ---------------------------------------------------------------- order and deadlines

  predicate InOrder(q: seq<Hold>) {
    forall i, j :: 0 <= i < j < |q| ==> q[i].heldAt <= q[j].heldAt
  }

  predicate QueuesInOrder(holds: Queues, now: int) {
    forall service :: service in holds ==>
      InOrder(holds[service]) && forall h :: h in holds[service] ==> h.heldAt <= now
  }

  lemma InOrderCons(h: Hold, q: seq<Hold>)
    requires InOrder(q) && forall x :: x in q ==> h.heldAt <= x.heldAt
    ensures InOrder([h] + q)
  {
  }

  lemma InOrderTail(q: seq<Hold>)
    requires InOrder(q) && q != []
    ensures InOrder(q[1..]) && forall x :: x in q[1..] ==> q[0].heldAt <= x.heldAt
  {
  }

  lemma {:induction false} FiltersKeepOrder(q: seq<Hold>, now: int)
    requires InOrder(q)
    ensures InOrder(Resumable(q, now)) && InOrder(Remaining(q, now))
  {
    if q != [] {
      InOrderTail(q);
      FiltersKeepOrder(q[1..], now);
      ResumableComesFrom(q[1..], now);
      RemainingComesFrom(q[1..], now);
      InOrderCons(q[0], Resumable(q[1..], now));
      InOrderCons(q[0], Remaining(q[1..], now));
    }
  }

  predicate ClockIsMonotone(commands: seq<Command>) {
    forall i, j :: 0 <= i < j < |commands| ==> commands[i].now <= commands[j].now
  }

  lemma OrderIsKept(cfg: Config, s: State, c: Command, clock: int)
    requires QueuesInOrder(s.holds, clock) && clock <= c.now
    ensures QueuesInOrder(Step(s, cfg, c).holds, c.now)
  {
    var after := Step(s, cfg, c).holds;
    forall service | service in after
      ensures InOrder(after[service]) && forall h: Hold :: h in after[service] ==> h.heldAt <= c.now
    {
      if service in s.holds && c.Collect? {
        FiltersKeepOrder(s.holds[service], c.now);
        RemainingComesFrom(s.holds[service], c.now);
      }
    }
  }

  /** With a clock that never goes back, every queue is in the order of holding. */
  lemma {:induction false} QueuesStayInOrder(cfg: Config, commands: seq<Command>, now: int)
    requires ClockIsMonotone(commands) && (commands != [] ==> commands[|commands| - 1].now <= now)
    ensures QueuesInOrder(Run(cfg, commands).state.holds, now)
  {
    if commands != [] {
      var init, c := commands[..|commands| - 1], commands[|commands| - 1];
      QueuesStayInOrder(cfg, init, c.now);
      OrderIsKept(cfg, Run(cfg, init).state, c, c.now);
    }
  }

  /**
   Whatever happened before, resuming hands back, in order of holding, exactly the held requests whose deadline is
   still ahead.
   */
  lemma ResumesInOrderBeforeTheDeadline(cfg: Config, commands: seq<Command>, service: string, now: int)
    requires ClockIsMonotone(commands) && (commands != [] ==> commands[|commands| - 1].now <= now)
    ensures var q := BucketOf(Run(cfg, commands).state.holds, service);
            && InOrder(Resumable(q, now))
            && forall h :: h in Resumable(q, now) <==> h in q && now < h.expiresAt
  {
    QueuesStayInOrder(cfg, commands, now);
    var q := BucketOf(Run(cfg, commands).state.holds, service);
    FiltersKeepOrder(q, now);
    ResumableComesFrom(q, now);
  }

  /** Both sweeps agree on a request, except at the deadline itself: collecting keeps it, resuming expires it. */
  lemma SweepsDifferExactlyAtTheDeadline(q: seq<Hold>, now: int)
    ensures (forall h :: h in Resumable(q, now) <==> h in Remaining(q, now))
       <==> forall h :: h in q ==> h.expiresAt != now
  {
    ResumableComesFrom(q, now);
    RemainingComesFrom(q, now);
    if h :| h in q && h.expiresAt == now {
      assert h in Remaining(q, now) && h !in Resumable(q, now);
    }
  }

  // ---------------------------------------------------------------- deadlines

  /** Command i asked for this request to be held, and it was accepted with a deadline of the timeout asked for. */
  ghost predicate AskedAt(cfg: Config, commands: seq<Command>, i: nat, h: Hold) {
    && i < |commands| && commands[i].HoldRequest?
    && |BucketOf(Run(cfg, commands[..i]).state.holds, commands[i].service)| < cfg.maxHeld
    && h.requestId == commands[i].requestId && h.service == commands[i].service
    && h.correlationId == commands[i].correlationId && h.heldAt == commands[i].now
    && (commands[i].timeout > 0 ==> h.expiresAt == h.heldAt + commands[i].timeout)
    && (commands[i].timeout <= 0 ==> h.expiresAt == h.heldAt + cfg.holdTimeout)
  }

  lemma AskedInPrefix(cfg: Config, commands: seq<Command>, n: nat, i: nat, h: Hold)
    requires n <= |commands| && AskedAt(cfg, commands[..n], i, h)
    ensures AskedAt(cfg, commands, i, h)
  {
    assert commands[..n][..i] == commands[..i];
  }

  lemma {:induction false} AcceptedAsAsked(cfg: Config, commands: seq<Command>, h: Hold) returns (i: nat)
    requires h in Run(cfg, commands).ledger.accepted
    ensures AskedAt(cfg, commands, i, h)
  {
    var n := |commands| - 1;
    if h in Run(cfg, commands[..n]).ledger.accepted {
      i := AcceptedAsAsked(cfg, commands[..n], h);
      AskedInPrefix(cfg, commands, n, i, h);
    } else {
      i := n;
    }
  }

  /**
   Every request that is held, resumed or expired in a run was asked for, with its names, when its queue had room;
   its deadline is the timeout asked for, or the configured one, after it was held, and so ahead of that time.
   */
  lemma HeldAsAsked(cfg: Config, commands: seq<Command>, h: Hold)
    requires cfg.Valid()
    requires var o := Run(cfg, commands); h in All(o.state.holds) || h in o.ledger.resumed || h in o.ledger.expired
    ensures (exists i :: AskedAt(cfg, commands, i, h)) && h.heldAt < h.expiresAt
  {
    EveryRequestIsAccountedFor(cfg, commands);
    var i := AcceptedAsAsked(cfg, commands, h);
  }

  /** A request is accepted exactly when its queue has room, and then stands last in it with such a deadline. */
  lemma HoldsExactlyWhenRoom(cfg: Config, commands: seq<Command>, c: Command)
    requires c.HoldRequest?
    ensures var s, after := Run(cfg, commands).state, Run(cfg, commands + [c]).state;
            var q := BucketOf(s.holds, c.service);
            && after.total == s.total + 1 && after.expired == s.expired && after.resumed == s.resumed
            && (|q| >= cfg.maxHeld ==> after.holds == s.holds)
            && (|q| < cfg.maxHeld ==>
                  && c.service in after.holds && after.holds - {c.service} == s.holds - {c.service}
                  && |after.holds[c.service]| == |q| + 1 && after.holds[c.service][..|q|] == q
                  && AskedAt(cfg, commands + [c], |commands|, after.holds[c.service][|q|]))
  {
    assert (commands + [c])[..|commands|] == commands;
  }

  /** After a collection no request is held whose deadline has passed, and only such ones have gone. */
  lemma NothingOverdueIsHeld(cfg: Config, s: State, now: int, service: string, h: Hold)
    ensures h in BucketOf(Step(s, cfg, Collect(now)).holds, service)
       <==> h in BucketOf(s.holds, service) && now <= h.expiresAt
  {
    RemainingComesFrom(BucketOf(s.holds, service), now);
  }

  /** As many of each request as there are, if its deadline is still ahead; none of the others. */
  ghost predicate AllAhead(m: multiset<Hold>, among: multiset<Hold>, now: int) {
    forall h :: m[h] == if now < h.expiresAt then among[h] else 0
  }

  /** As many of each request as there are, if its deadline has passed. */
  ghost predicate AllOverdue(m: multiset<Hold>, among: multiset<Hold>, now: int) {
    forall h :: m[h] == if now > h.expiresAt then among[h] else 0
  }

  lemma {:induction false} ResumableAreAhead(q: seq<Hold>, now: int)
    ensures AllAhead(multiset(Resumable(q, now)), multiset(q), now)
  {
    if q != [] {
      ResumableAreAhead(q[1..], now);
      assert q == [q[0]] + q[1..];
    }
  }

  lemma {:induction false} PassedAreOverdue(q: seq<Hold>, now: int)
    ensures AllOverdue(multiset(Passed(q, now)), multiset(q), now)
  {
    if q != [] {
      PassedAreOverdue(q[1..], now);
      assert q == [q[0]] + q[1..];
    }
  }

  lemma {:induction false} AllPassedAreOverdue(holds: Queues, now: int)
    ensures AllOverdue(AllPassed(holds, now), All(holds), now)
    decreases |holds|
  {
    if holds == map[] {
      assert PassedQueues(holds, now) == map[];
    } else {
      var service :| service in holds;
      AllPassedAreOverdue(holds - {service}, now);
      PassedAreOverdue(holds[service], now);
      AllWithout(holds, service);
      PassedOfOneService(holds, service, now);
    }
  }

  /** Resuming ends the service's queue: requests whose deadline is ahead count as resumed, the others as expired. */
  lemma ResumingExactly(cfg: Config, s: State, service: string, now: int, ahead: multiset<Hold>)
    requires AllAhead(ahead, multiset(BucketOf(s.holds, service)), now)
    ensures var t, q := Step(s, cfg, Resume(service, now)), BucketOf(s.holds, service);
            && (q != [] ==> t.holds == s.holds - {service}) && (q == [] ==> t == s)
            && t.total == s.total && t.resumed == s.resumed + |ahead|
            && t.expired == s.expired + (|q| - |ahead|)
  {
    var q := BucketOf(s.holds, service);
    ResumableAreAhead(q, now);
    assert ahead == multiset(Resumable(q, now));
    assert |multiset(Resumable(q, now))| == |Resumable(q, now)|;
  }

  /** A collection takes out exactly the requests whose deadline has passed, over all services, and counts them. */
  lemma CollectingExactly(cfg: Config, s: State, now: int, overdue: multiset<Hold>)
    requires AllOverdue(overdue, All(s.holds), now)
    ensures var t := Step(s, cfg, Collect(now));
            && t.total == s.total && t.resumed == s.resumed && t.expired == s.expired + |overdue|
            && All(t.holds) == All(s.holds) - overdue
  {
    AllPassedAreOverdue(s.holds, now);
    assert overdue == AllPassed(s.holds, now);
    AfterCollectKeeps(s.holds, now);
  }

  /** Settings that are not positive fall back to thirty seconds and a hundred requests, and the others stay. */
  lemma SettingsFallBack(c: Config)
    ensures var d := Defaulted(c);
            && (if c.holdTimeout >= 1 then d.holdTimeout == c.holdTimeout else d.holdTimeout == 30 * SECOND)
            && (if c.maxHeld >= 1 then d.maxHeld == c.maxHeld else d.maxHeld == 100)
  {
  }
}
