/** The log collector: buffers per key, cooldowns against repeats, and batches handed out when they are due. */
module LogCollector {
  import opened Buckets
  import opened Durations
  import opened LogKeys

  datatype Config = Config(maxEntries: int, reportInterval: int, maxAge: int, maxBuffer: int, cooldown: int)
  {
    predicate Valid() {
      maxEntries > 0 && reportInterval > 0 && maxAge > 0 && maxBuffer > 0 && cooldown > 0
    }
  }

  function Positive(value: int, fallback: int): int {
    if value <= 0 then fallback else value
  }

  function Defaulted(c: Config): (d: Config)
    ensures d.Valid() && (c.Valid() ==> d == c)
  {
    Config(Positive(c.maxEntries, 100), Positive(c.reportInterval, 5 * SECOND), Positive(c.maxAge, 300 * SECOND),
           Positive(c.maxBuffer, 500), Positive(c.cooldown, 60 * SECOND))
  }

  datatype Buffered = Buffered(entry: Entry, ingested: int)

  /** What makes two entries repeats of each other. */
  datatype Repeat = Repeat(bufferKey: string, severity: string, message: string)

  function RepeatOf(e: Entry): Repeat {
    Repeat(BuildKey(e), e.severity, e.message)
  }

  datatype State = State(buffers: Buckets<Buffered>, cooldowns: map<Repeat, int>, total: nat, dropped: nat)

  const EMPTY := State(map[], map[], 0, 0)

  /** The clock readings of one ingestion: at the cooldown check, at buffering, and when the cooldown starts. */
  datatype Clock = Clock(checked: int, buffered: int, cooled: int)

  datatype Command =
    | Ingest(entry: Entry, clock: Clock)
    | Collect(now: int)

  datatype Fate = Unroutable | Overflow | Suppressed | Admitted

  /** The buffer limit is looked at before the cooldown. */
  function FateOf(s: State, cfg: Config, e: Entry, clock: Clock): Fate {
    if BuildKey(e) == "" then Unroutable
    else if |BucketOf(s.buffers, BuildKey(e))| >= cfg.maxBuffer then Overflow
    else if RepeatOf(e) in s.cooldowns && clock.checked - s.cooldowns[RepeatOf(e)] < cfg.cooldown then Suppressed
    else Admitted
  }

  predicate Due(cfg: Config, buffer: seq<Buffered>, now: int) {
    buffer != [] &&
    (|| now - buffer[0].ingested >= cfg.reportInterval
     || now - buffer[0].ingested >= cfg.maxAge
     || |buffer| >= cfg.maxEntries)
  }

  function DueBuffers(buffers: Buckets<Buffered>, cfg: Config, now: int): Buckets<Buffered> {
    map name | name in buffers && Due(cfg, buffers[name], now) :: buffers[name]
  }

  function OtherBuffers(buffers: Buckets<Buffered>, cfg: Config, now: int): Buckets<Buffered> {
    map name | name in buffers && !Due(cfg, buffers[name], now) :: buffers[name]
  }

  function Step(s: State, cfg: Config, c: Command): State {
    match c
    case Ingest(e, clock) =>
      var counted := s.(total := s.total + 1);
      match FateOf(s, cfg, e, clock) {
        case Unroutable => counted.(dropped := s.dropped + 1)
        case Overflow => counted.(dropped := s.dropped + 1)
        case Suppressed => counted
        case Admitted =>
          counted.(buffers := s.buffers[
                     BuildKey(e) := BucketOf(s.buffers, BuildKey(e)) + [Buffered(e, clock.buffered)]],
                   cooldowns := s.cooldowns[RepeatOf(e) := clock.cooled])
      }
    case Collect(now) => s.(buffers := OtherBuffers(s.buffers, cfg, now))
  }

  // ---------------------------------------------------------------- runs

  /** What became of every entry: how many were suppressed, which were handed out, and all admissions in order. */
  datatype Ledger = Ledger(suppressed: nat, handedOut: multiset<Buffered>, admissions: seq<Buffered>)

  ghost function Record(l: Ledger, s: State, cfg: Config, c: Command): Ledger {
    match c
    case Ingest(e, clock) =>
      match FateOf(s, cfg, e, clock) {
        case Suppressed => l.(suppressed := l.suppressed + 1)
        case Admitted => l.(admissions := l.admissions + [Buffered(e, clock.buffered)])
        case _ => l
      }
    case Collect(now) => l.(handedOut := l.handedOut + All(DueBuffers(s.buffers, cfg, now)))
  }

  datatype Outcome = Outcome(state: State, ledger: Ledger)

  ghost function Next(o: Outcome, cfg: Config, c: Command): Outcome {
    Outcome(Step(o.state, cfg, c), Record(o.ledger, o.state, cfg, c))
  }

  ghost function Run(cfg: Config, commands: seq<Command>): Outcome {
    if commands == [] then Outcome(EMPTY, Ledger(0, multiset{}, []))
    else Next(Run(cfg, commands[..|commands| - 1]), cfg, commands[|commands| - 1])
  }

  /** Every admitted entry is buffered or handed out, and the counters account for every entry. */
  ghost predicate Balanced(o: Outcome) {
    && multiset(o.ledger.admissions) == All(o.state.buffers) + o.ledger.handedOut
    && o.state.total == |o.ledger.admissions| + o.state.dropped + o.ledger.suppressed
  }

  lemma {:induction false} CollectSplits(buffers: Buckets<Buffered>, cfg: Config, now: int)
    ensures All(buffers) == All(OtherBuffers(buffers, cfg, now)) + All(DueBuffers(buffers, cfg, now))
    decreases |buffers|
  {
    if buffers == map[] {
      assert OtherBuffers(buffers, cfg, now) == map[] && DueBuffers(buffers, cfg, now) == map[];
    } else {
      var name :| name in buffers;
      CollectSplits(buffers - {name}, cfg, now);
      AllWithout(buffers, name);
      TakeOut(buffers, cfg, now, name);
    }
  }

  lemma TakeOut(buffers: Buckets<Buffered>, cfg: Config, now: int, name: string)
    requires name in buffers
    ensures All(OtherBuffers(buffers, cfg, now)) + All(DueBuffers(buffers, cfg, now))
         == multiset(buffers[name]) + All(OtherBuffers(buffers - {name}, cfg, now))
            + All(DueBuffers(buffers - {name}, cfg, now))
  {
    if Due(cfg, buffers[name], now) {
      TakeDue(buffers, cfg, now, name);
      AllWithout(DueBuffers(buffers, cfg, now), name);
    } else {
      TakeOther(buffers, cfg, now, name);
      AllWithout(OtherBuffers(buffers, cfg, now), name);
    }
  }

  lemma TakeDue(buffers: Buckets<Buffered>, cfg: Config, now: int, name: string)
    requires name in buffers && Due(cfg, buffers[name], now)
    ensures DueBuffers(buffers, cfg, now) - {name} == DueBuffers(buffers - {name}, cfg, now)
    ensures OtherBuffers(buffers, cfg, now) == OtherBuffers(buffers - {name}, cfg, now)
  {
  }

  lemma TakeOther(buffers: Buckets<Buffered>, cfg: Config, now: int, name: string)
    requires name in buffers && !Due(cfg, buffers[name], now)
    ensures OtherBuffers(buffers, cfg, now) - {name} == OtherBuffers(buffers - {name}, cfg, now)
    ensures DueBuffers(buffers, cfg, now) == DueBuffers(buffers - {name}, cfg, now)
  {
  }

  lemma BalanceIsKept(cfg: Config, o: Outcome, c: Command)
    requires Balanced(o)
    ensures Balanced(Next(o, cfg, c))
  {
    match c {
      case Ingest(e, clock) => IngestBalances(cfg, o, e, clock);
      case Collect(now) => CollectSplits(o.state.buffers, cfg, now);
    }
  }

  lemma IngestBalances(cfg: Config, o: Outcome, e: Entry, clock: Clock)
    requires Balanced(o)
    ensures Balanced(Next(o, cfg, Ingest(e, clock)))
  {
    if FateOf(o.state, cfg, e, clock) == Admitted {
      AllAfterAppend(o.state.buffers, BuildKey(e), Buffered(e, clock.buffered));
    }
  }

  /** No admitted entry is lost or doubled, and the counters account for every entry. */
  lemma {:induction false} EveryEntryIsAccountedFor(cfg: Config, commands: seq<Command>)
    ensures Balanced(Run(cfg, commands))
    ensures var o := Run(cfg, commands);
            && All(o.state.buffers) <= multiset(o.ledger.admissions)
            && o.ledger.handedOut <= multiset(o.ledger.admissions)
  {
    if commands != [] {
      EveryEntryIsAccountedFor(cfg, commands[..|commands| - 1]);
      BalanceIsKept(cfg, Run(cfg, commands[..|commands| - 1]), commands[|commands| - 1]);
    }
  }

  /** The counters alone: total is buffered, handed out, dropped and suppressed together. */
  lemma CountersAddUp(cfg: Config, commands: seq<Command>)
    ensures var o := Run(cfg, commands);
            o.state.total == |All(o.state.buffers)| + |o.ledger.handedOut| + o.state.dropped + o.ledger.suppressed
  {
    EveryEntryIsAccountedFor(cfg, commands);
    var o := Run(cfg, commands);
    assert |multiset(o.ledger.admissions)| == |o.ledger.admissions|;
  }

  // ---------------------------------------------------------------- buffers and keys

  predicate BufferIsSound(buffer: seq<Buffered>, name: string, cfg: Config) {
    1 <= |buffer| <= cfg.maxBuffer && forall k :: 0 <= k < |buffer| ==> BuildKey(buffer[k].entry) == name
  }

  predicate BuffersAreSound(s: State, cfg: Config) {
    forall name :: name in s.buffers ==> name != "" && BufferIsSound(s.buffers[name], name, cfg)
  }

  lemma SoundnessIsKept(cfg: Config, s: State, c: Command)
    requires cfg.Valid() && BuffersAreSound(s, cfg)
    ensures BuffersAreSound(Step(s, cfg, c), cfg)
  {
    if c.Ingest? && FateOf(s, cfg, c.entry, c.clock) == Admitted {
      var name := BuildKey(c.entry);
      if name in s.buffers {
        assert BufferIsSound(s.buffers[name], name, cfg);
      }
      assert BufferIsSound(BucketOf(s.buffers, name) + [Buffered(c.entry, c.clock.buffered)], name, cfg);
    }
  }

  /** A buffer is never empty, never longer than allowed, and holds only entries of its own key. */
  lemma {:induction false} BuffersStaySound(cfg: Config, commands: seq<Command>)
    requires cfg.Valid()
    ensures BuffersAreSound(Run(cfg, commands).state, cfg)
  {
    if commands != [] {
      BuffersStaySound(cfg, commands[..|commands| - 1]);
      SoundnessIsKept(cfg, Run(cfg, commands[..|commands| - 1]).state, commands[|commands| - 1]);
    }
  }

  // ---------------------------------------------------------------- cooldown

  /** Within one ingestion the clock does not go back. */
  predicate ClocksAdvance(commands: seq<Command>) {
    forall k :: 0 <= k < |commands| && commands[k].Ingest? ==>
      commands[k].clock.checked <= commands[k].clock.buffered <= commands[k].clock.cooled
  }

  /** The cooldown of a repeat started no earlier than any admission of it. */
  predicate CooldownsCover(o: Outcome) {
    forall a :: a in o.ledger.admissions ==>
      RepeatOf(a.entry) in o.state.cooldowns && a.ingested <= o.state.cooldowns[RepeatOf(a.entry)]
  }

  predicate Spaced(admissions: seq<Buffered>, gap: int) {
    forall i, j :: 0 <= i < j < |admissions| && RepeatOf(admissions[i].entry) == RepeatOf(admissions[j].entry)
               ==> admissions[j].ingested - admissions[i].ingested >= gap
  }

  lemma SpacedSnoc(admissions: seq<Buffered>, a: Buffered, gap: int)
    requires Spaced(admissions, gap)
    requires forall b :: b in admissions && RepeatOf(b.entry) == RepeatOf(a.entry) ==> a.ingested - b.ingested >= gap
    ensures Spaced(admissions + [a], gap)
  {
  }

  lemma SpacingIsKept(cfg: Config, o: Outcome, c: Command)
    requires cfg.Valid() && CooldownsCover(o) && Spaced(o.ledger.admissions, cfg.cooldown)
    requires c.Ingest? ==> c.clock.checked <= c.clock.buffered <= c.clock.cooled
    ensures CooldownsCover(Next(o, cfg, c)) && Spaced(Next(o, cfg, c).ledger.admissions, cfg.cooldown)
  {
    if c.Ingest? && FateOf(o.state, cfg, c.entry, c.clock) == Admitted {
      AdmittedIsSpaced(cfg, o, c.entry, c.clock);
      AdmittedIsCovered(cfg, o, c.entry, c.clock);
    }
  }

  lemma AdmittedIsSpaced(cfg: Config, o: Outcome, e: Entry, clock: Clock)
    requires CooldownsCover(o) && Spaced(o.ledger.admissions, cfg.cooldown) && clock.checked <= clock.buffered
    requires FateOf(o.state, cfg, e, clock) == Admitted
    ensures Spaced(o.ledger.admissions + [Buffered(e, clock.buffered)], cfg.cooldown)
  {
    SpacedSnoc(o.ledger.admissions, Buffered(e, clock.buffered), cfg.cooldown);
  }

  lemma AdmittedIsCovered(cfg: Config, o: Outcome, e: Entry, clock: Clock)
    requires cfg.Valid() && CooldownsCover(o) && clock.checked <= clock.buffered <= clock.cooled
    requires FateOf(o.state, cfg, e, clock) == Admitted
    ensures CooldownsCover(Next(o, cfg, Ingest(e, clock)))
  {
  }

  /** In every run, two admitted entries with the same key, severity and message lie at least a cooldown apart. */
  lemma {:induction false} RepeatsKeepTheirDistance(cfg: Config, commands: seq<Command>)
    requires cfg.Valid() && ClocksAdvance(commands)
    ensures CooldownsCover(Run(cfg, commands)) && Spaced(Run(cfg, commands).ledger.admissions, cfg.cooldown)
  {
    if commands != [] {
      var init := commands[..|commands| - 1];
      RepeatsKeepTheirDistance(cfg, init);
      SpacingIsKept(cfg, Run(cfg, init), commands[|commands| - 1]);
    }
  }

  /**
   An entry is suppressed only while its repeat is cooling down: something like it was admitted before, or its
   cooldown would not exist.
   */
  lemma {:induction false} CooldownsComeFromAdmissions(cfg: Config, commands: seq<Command>, r: Repeat)
    requires r in Run(cfg, commands).state.cooldowns
    ensures exists a :: a in Run(cfg, commands).ledger.admissions && RepeatOf(a.entry) == r
  {
    if commands != [] {
      var init, c := commands[..|commands| - 1], commands[|commands| - 1];
      var o, p := Run(cfg, init), Run(cfg, commands);
      if r in o.state.cooldowns {
        CooldownsComeFromAdmissions(cfg, init, r);
        var a :| a in o.ledger.admissions && RepeatOf(a.entry) == r;
        assert a in p.ledger.admissions;
      } else {
        var a := Buffered(c.entry, c.clock.buffered);
        assert p.ledger.admissions == o.ledger.admissions + [a];
        assert a in p.ledger.admissions && RepeatOf(a.entry) == r;
      }
    }
  }
}
