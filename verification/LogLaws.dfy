/** What the collector keeps, drops and hands out, said of entries, clocks and settings. */
module LogLaws {
  import opened Text
  import opened Buckets
  import opened Durations
  import opened LogKeys
  import opened LogCollector

  // ---------------------------------------------------------------- where an entry goes

  /** The first of two values that is not blank, trimmed; empty if both are blank. */
  function FirstOfTwo(a: string, b: string): string {
    if Trim(a) != "" then Trim(a) else Trim(b)
  }

  /**
   An entry belongs by its labels, of which `service` goes before `service_name`, and by its own source before the
   label; it has no key without a source, and just the source if all other fields are blank.
   */
  lemma KeyOfAnEntry(e: Entry)
    ensures var given := (key: string) => if key in e.labels then e.labels[key] else "";
            var source, service := FirstOfTwo(e.source, given("source")),
              FirstOfTwo(given("service"), given("service_name"));
            var project, binding, revision :=
              Trim(given("project_id")), Trim(given("binding_id")), Trim(given("revision_id"));
            && (source == "" ==> BuildKey(e) == "")
            && (source != "" && project == "" && binding == "" && revision == "" && service == "" ==>
                  BuildKey(e) == source)
            && (source != "" && !(project == "" && binding == "" && revision == "" && service == "") ==>
                  BuildKey(e) == Join([project, binding, revision, service, source], '\U{001F}'))
  {
    var a, b := LabelOf(e, "service"), LabelOf(e, "service_name");
    TrimTwice(a);
    TrimTwice(b);
    FirstOrNext(Trim(a), [Trim(b)]);
    FirstOrNext(Trim(b), []);
    assert [Trim(a)] + [Trim(b)] == [Trim(a), Trim(b)] && [Trim(b)] + [] == [Trim(b)];
  }

  /** What an ingestion changes: a counter, and buffer and cooldown only if the entry is admitted. */
  lemma IngestionExactly(s: State, cfg: Config, e: Entry, clock: Clock)
    ensures var t, key := Step(s, cfg, Ingest(e, clock)), BuildKey(e);
            var r := Repeat(key, e.severity, e.message);
            var buffer := if key in s.buffers then s.buffers[key] else [];
            var lost := key == "" || |buffer| >= cfg.maxBuffer;
            var cooling := r in s.cooldowns && clock.checked - s.cooldowns[r] < cfg.cooldown;
            && t.total == s.total + 1 && t.dropped == s.dropped + (if lost then 1 else 0)
            && (lost || cooling ==> t.buffers == s.buffers && t.cooldowns == s.cooldowns)
            && (!lost && !cooling ==>
                  && t.buffers == s.buffers[key := buffer + [Buffered(e, clock.buffered)]]
                  && t.cooldowns == s.cooldowns[r := clock.cooled])
  {
  }

  // ---------------------------------------------------------------- what a collection leaves

  /** The oldest entry came a reporting interval or the maximal age ago, or a batch is full. */
  predicate MustGo(cfg: Config, buffer: seq<Buffered>, now: int)
    requires buffer != []
  {
    || now >= buffer[0].ingested + cfg.reportInterval || now >= buffer[0].ingested + cfg.maxAge
    || |buffer| >= cfg.maxEntries
  }

  /** A collection hands out exactly the buffers that must go, whole, and leaves the others alone. */
  lemma CollectsExactlyWhatMustGo(cfg: Config, commands: seq<Command>, now: int, name: string)
    requires cfg.Valid() && name in Run(cfg, commands).state.buffers
    ensures var o := Run(cfg, commands);
            var after := Next(o, cfg, Collect(now));
            && o.state.buffers[name] != []
            && (name in after.state.buffers <==> !MustGo(cfg, o.state.buffers[name], now))
            && (name in after.state.buffers ==> after.state.buffers[name] == o.state.buffers[name])
            && (MustGo(cfg, o.state.buffers[name], now) ==>
                  o.ledger.handedOut + multiset(o.state.buffers[name]) <= after.ledger.handedOut)
            && after.state.buffers.Keys <= o.state.buffers.Keys
  {
    BuffersStaySound(cfg, commands);
    var o := Run(cfg, commands);
    assert BufferIsSound(o.state.buffers[name], name, cfg);
    if Due(cfg, o.state.buffers[name], now) {
      AllWithout(DueBuffers(o.state.buffers, cfg, now), name);
    }
  }

  /** The clock that a command reads first. */
  function TimeOf(c: Command): int {
    match c
    case Ingest(_, clock) => clock.buffered
    case Collect(now) => now
  }

  predicate ClockIsMonotone(commands: seq<Command>) {
    forall i, j :: 0 <= i < j < |commands| ==> TimeOf(commands[i]) <= TimeOf(commands[j])
  }

  predicate OldestFirst(buffer: seq<Buffered>, now: int) {
    && (forall i, j :: 0 <= i < j < |buffer| ==> buffer[i].ingested <= buffer[j].ingested)
    && (forall i :: 0 <= i < |buffer| ==> buffer[i].ingested <= now)
  }

  predicate BuffersOldestFirst(s: State, now: int) {
    forall name :: name in s.buffers ==> OldestFirst(s.buffers[name], now)
  }

  lemma OldestFirstSnoc(buffer: seq<Buffered>, b: Buffered, now: int)
    requires OldestFirst(buffer, now) && now <= b.ingested
    ensures OldestFirst(buffer + [b], b.ingested)
  {
  }

  lemma OldestFirstIsKept(cfg: Config, s: State, c: Command, now: int)
    requires BuffersOldestFirst(s, now) && now <= TimeOf(c)
    ensures BuffersOldestFirst(Step(s, cfg, c), TimeOf(c))
  {
    var after := Step(s, cfg, c).buffers;
    forall name | name in after ensures OldestFirst(after[name], TimeOf(c)) {
      if name in s.buffers {
        assert OldestFirst(s.buffers[name], now);
      }
      if c.Ingest? && name == BuildKey(c.entry) {
        OldestFirstSnoc(BucketOf(s.buffers, name), Buffered(c.entry, c.clock.buffered), now);
      }
    }
  }

  lemma {:induction false} RunOldestFirst(cfg: Config, commands: seq<Command>, now: int)
    requires ClockIsMonotone(commands) && (commands != [] ==> TimeOf(commands[|commands| - 1]) <= now)
    ensures BuffersOldestFirst(Run(cfg, commands).state, now)
  {
    if commands != [] {
      var init, c := commands[..|commands| - 1], commands[|commands| - 1];
      RunOldestFirst(cfg, init, TimeOf(c));
      OldestFirstIsKept(cfg, Run(cfg, init).state, c, TimeOf(c));
    }
  }

  /**
   With a clock that never goes back, a collection leaves no entry that came a reporting interval or the maximal age
   ago, and no buffer with a full batch.
   */
  lemma NothingOverdueIsLeft(cfg: Config, commands: seq<Command>, now: int, name: string, k: nat)
    requires cfg.Valid() && ClockIsMonotone(commands)
    requires commands != [] ==> TimeOf(commands[|commands| - 1]) <= now
    requires var left := Next(Run(cfg, commands), cfg, Collect(now)).state.buffers;
             name in left && k < |left[name]|
    ensures var buffer := Next(Run(cfg, commands), cfg, Collect(now)).state.buffers[name];
            && now < buffer[k].ingested + cfg.reportInterval && now < buffer[k].ingested + cfg.maxAge
            && |buffer| < cfg.maxEntries
  {
    RunOldestFirst(cfg, commands, now);
    CollectsExactlyWhatMustGo(cfg, commands, now, name);
    assert OldestFirst(Run(cfg, commands).state.buffers[name], now);
  }

  // ---------------------------------------------------------------- when a repeat is suppressed

  /** Each ingestion reads one time. */
  predicate OneReading(commands: seq<Command>) {
    forall k :: 0 <= k < |commands| && commands[k].Ingest? ==>
      commands[k].clock.checked == commands[k].clock.buffered == commands[k].clock.cooled
  }

  /** Admission k is the last of its repeat. */
  predicate LastOf(admissions: seq<Buffered>, k: nat, r: Repeat) {
    && k < |admissions| && RepeatOf(admissions[k].entry) == r
    && forall j :: k < j < |admissions| ==> RepeatOf(admissions[j].entry) != r
  }

  predicate CooledAt(admissions: seq<Buffered>, r: Repeat, time: int) {
    exists k :: 0 <= k < |admissions| && LastOf(admissions, k, r) && admissions[k].ingested == time
  }

  lemma LastOfSnoc(admissions: seq<Buffered>, a: Buffered, r: Repeat, time: int)
    requires RepeatOf(a.entry) != r && CooledAt(admissions, r, time)
    ensures CooledAt(admissions + [a], r, time)
  {
    var k :| 0 <= k < |admissions| && LastOf(admissions, k, r) && admissions[k].ingested == time;
    assert LastOf(admissions + [a], k, r);
  }

  lemma LastOfNow(admissions: seq<Buffered>, a: Buffered)
    ensures CooledAt(admissions + [a], RepeatOf(a.entry), a.ingested)
  {
    assert LastOf(admissions + [a], |admissions|, RepeatOf(a.entry));
  }

  /** The cooldown of a repeat runs from its last admission. */
  lemma {:induction false} CooldownRunsFromTheLast(cfg: Config, commands: seq<Command>, r: Repeat)
    requires OneReading(commands) && r in Run(cfg, commands).state.cooldowns
    ensures CooledAt(Run(cfg, commands).ledger.admissions, r, Run(cfg, commands).state.cooldowns[r])
  {
    if commands != [] {
      var init, c := commands[..|commands| - 1], commands[|commands| - 1];
      var o := Run(cfg, init);
      if c.Ingest? && FateOf(o.state, cfg, c.entry, c.clock) == Admitted {
        var a := Buffered(c.entry, c.clock.buffered);
        if RepeatOf(c.entry) == r {
          LastOfNow(o.ledger.admissions, a);
        } else {
          CooldownRunsFromTheLast(cfg, init, r);
          LastOfSnoc(o.ledger.admissions, a, r, o.state.cooldowns[r]);
        }
      } else {
        CooldownRunsFromTheLast(cfg, init, r);
      }
    }
  }

  lemma LastIsUnique(admissions: seq<Buffered>, r: Repeat, time: int, other: int)
    requires CooledAt(admissions, r, time) && CooledAt(admissions, r, other)
    ensures time == other
  {
    var j :| 0 <= j < |admissions| && LastOf(admissions, j, r) && admissions[j].ingested == time;
    var k :| 0 <= k < |admissions| && LastOf(admissions, k, r) && admissions[k].ingested == other;
    assert j == k;
  }

  /** The last admitted entry with this key, severity and message came after that time. */
  ghost predicate CameWithin(admissions: seq<Buffered>, e: Entry, since: int) {
    exists time :: since < time && CooledAt(admissions, Repeat(BuildKey(e), e.severity, e.message), time)
  }

  lemma CooledIsKnown(o: Outcome, r: Repeat, time: int)
    requires CooldownsCover(o) && CooledAt(o.ledger.admissions, r, time)
    ensures r in o.state.cooldowns
  {
    var k :| 0 <= k < |o.ledger.admissions| && LastOf(o.ledger.admissions, k, r);
    assert o.ledger.admissions[k] in o.ledger.admissions;
  }

  lemma CoolingMeans(cfg: Config, commands: seq<Command>, e: Entry, since: int)
    requires cfg.Valid() && ClocksAdvance(commands) && OneReading(commands)
    ensures var o, r := Run(cfg, commands), Repeat(BuildKey(e), e.severity, e.message);
            CameWithin(o.ledger.admissions, e, since) <==> r in o.state.cooldowns && since < o.state.cooldowns[r]
  {
    var o, r := Run(cfg, commands), Repeat(BuildKey(e), e.severity, e.message);
    RepeatsKeepTheirDistance(cfg, commands);
    if r in o.state.cooldowns {
      CooldownRunsFromTheLast(cfg, commands, r);
    }
    if CameWithin(o.ledger.admissions, e, since) {
      var time :| since < time && CooledAt(o.ledger.admissions, r, time);
      CooledIsKnown(o, r, time);
      LastIsUnique(o.ledger.admissions, r, time, o.state.cooldowns[r]);
    }
  }

  lemma CoolingDecides(cfg: Config, o: Outcome, e: Entry, clock: Clock)
    requires BuildKey(e) != "" && |BucketOf(o.state.buffers, BuildKey(e))| < cfg.maxBuffer
    ensures var r, after := Repeat(BuildKey(e), e.severity, e.message), Next(o, cfg, Ingest(e, clock));
            if r in o.state.cooldowns && clock.checked - cfg.cooldown < o.state.cooldowns[r]
            then after.ledger == o.ledger.(suppressed := o.ledger.suppressed + 1)
            else after.ledger.admissions == o.ledger.admissions + [Buffered(e, clock.buffered)]
  {
  }

  /**
   An entry that has a key and room in its buffer is suppressed exactly if the last admitted entry with the same key,
   severity and message came less than a cooldown before.
   */
  lemma SuppressedExactlyWhen(cfg: Config, commands: seq<Command>, e: Entry, clock: Clock)
    requires cfg.Valid() && ClocksAdvance(commands) && OneReading(commands)
    requires BuildKey(e) != "" && |BucketOf(Run(cfg, commands).state.buffers, BuildKey(e))| < cfg.maxBuffer
    ensures var before, after := Run(cfg, commands), Next(Run(cfg, commands), cfg, Ingest(e, clock));
            var cooling := CameWithin(before.ledger.admissions, e, clock.checked - cfg.cooldown);
            && (cooling ==> after.ledger == before.ledger.(suppressed := before.ledger.suppressed + 1))
            && (!cooling ==>
                  after.ledger.admissions == before.ledger.admissions + [Buffered(e, clock.buffered)])
  {
    CoolingMeans(cfg, commands, e, clock.checked - cfg.cooldown);
    CoolingDecides(cfg, Run(cfg, commands), e, clock);
  }

  /** Settings that are not positive fall back to the documented defaults, and the others stay. */
  lemma SettingsFallBack(c: Config)
    ensures var d := Defaulted(c);
            && (if c.maxEntries >= 1 then d.maxEntries == c.maxEntries else d.maxEntries == 100)
            && (if c.maxBuffer >= 1 then d.maxBuffer == c.maxBuffer else d.maxBuffer == 500)
            && (if c.reportInterval >= 1 then d.reportInterval == c.reportInterval
                else d.reportInterval == 5 * SECOND)
            && (if c.maxAge >= 1 then d.maxAge == c.maxAge else d.maxAge == 5 * 60 * SECOND)
            && (if c.cooldown >= 1 then d.cooldown == c.cooldown else d.cooldown == 60 * SECOND)
  {
  }
}
