/** The hold manager in place: request records whose status changes, queues and counters. */
module HoldManager {
  import opened Buckets
  import opened HoldQueue

  datatype Status = Held | Resumed | Expired

  /** A request record; the caller that held it keeps a reference and sees its status change. */
  class HeldRequest {
    const hold: Hold
    var status: Status

    constructor (hold: Hold)
      ensures this.hold == hold && status == Held
    {
      this.hold, status := hold, Held;
    }
  }

  function Values(requests: seq<HeldRequest>): (q: seq<Hold>)
    ensures |q| == |requests|
  {
    if requests == [] then [] else [requests[0].hold] + Values(requests[1..])
  }

  lemma {:induction false} ValuesSnoc(requests: seq<HeldRequest>, r: HeldRequest)
    ensures Values(requests + [r]) == Values(requests) + [r.hold]
  {
    if requests != [] {
      ValuesSnoc(requests[1..], r);
      assert (requests + [r])[1..] == requests[1..] + [r];
    } else {
      assert requests + [r] == [r];
    }
  }

  lemma {:induction false} ValuesConcat(a: seq<HeldRequest>, b: seq<HeldRequest>)
    ensures Values(a + b) == Values(a) + Values(b)
  {
    if a == [] {
      assert a + b == b;
    } else {
      assert (a + b)[1..] == a[1..] + b && (a + b)[0] == a[0];
      ValuesConcat(a[1..], b);
      assert Values(a + b) == [a[0].hold] + Values((a + b)[1..]);
      assert [a[0].hold] + (Values(a[1..]) + Values(b)) == [a[0].hold] + Values(a[1..]) + Values(b);
    }
  }

  lemma ValuesNext(requests: seq<HeldRequest>, k: nat)
    requires k < |requests|
    ensures Values(requests[k..]) == [requests[k].hold] + Values(requests[k + 1..])
  {
  }

  lemma SettleNext(requests: seq<HeldRequest>, k: nat, now: int)
    requires k < |requests|
    ensures var h, rest := requests[k].hold, Values(requests[k + 1..]);
            Resumable(Values(requests[k..]), now) == (if now < h.expiresAt then [h] else []) + Resumable(rest, now)
  {
  }

  /** The first k requests of a queue have been settled. */
  ghost predicate Settled(requests: seq<HeldRequest>, k: nat, resumable: seq<HeldRequest>, now: int)
    requires k <= |requests|
  {
    Values(resumable) + Resumable(Values(requests[k..]), now) == Resumable(Values(requests), now)
  }

  lemma SettledNext(requests: seq<HeldRequest>, k: nat, resumable: seq<HeldRequest>, now: int)
    requires k < |requests| && Settled(requests, k, resumable, now)
    ensures var r := requests[k];
            Settled(requests, k + 1, if now < r.hold.expiresAt then resumable + [r] else resumable, now)
  {
    SettleNext(requests, k, now);
    ValuesSnoc(resumable, requests[k]);
  }

  /** The first k requests of a queue have been parted into those that remain and those that passed. */
  ghost predicate Parted(
    requests: seq<HeldRequest>, k: nat, remaining: seq<HeldRequest>, passed: seq<HeldRequest>, now: int)
    requires k <= |requests|
  {
    && Values(remaining) + Remaining(Values(requests[k..]), now) == Remaining(Values(requests), now)
    && Values(passed) + Passed(Values(requests[k..]), now) == Passed(Values(requests), now)
  }

  lemma PartedNext(requests: seq<HeldRequest>, k: nat, remaining: seq<HeldRequest>, passed: seq<HeldRequest>, now: int)
    requires k < |requests| && Parted(requests, k, remaining, passed, now)
    ensures var r := requests[k];
            if now > r.hold.expiresAt then Parted(requests, k + 1, remaining, passed + [r], now)
            else Parted(requests, k + 1, remaining + [r], passed, now)
  {
    var r := requests[k];
    PartNext(requests, k, now);
    ValuesSnoc(remaining, r);
    ValuesSnoc(passed, r);
  }

  lemma PartNext(requests: seq<HeldRequest>, k: nat, now: int)
    requires k < |requests|
    ensures var h, rest := requests[k].hold, Values(requests[k + 1..]);
            && Remaining(Values(requests[k..]), now)
                 == (if now > h.expiresAt then [] else [h]) + Remaining(rest, now)
            && Passed(Values(requests[k..]), now) == (if now > h.expiresAt then [h] else []) + Passed(rest, now)
  {
    ValuesNext(requests, k);
    assert Values(requests[k..])[1..] == Values(requests[k + 1..]);
  }

  /** Marks every request of a queue resumed or expired, and returns the resumed ones in order. */
  method Settle(requests: seq<HeldRequest>, now: int) returns (resumable: seq<HeldRequest>)
    modifies set r | r in requests
    ensures Values(resumable) == Resumable(Values(requests), now)
    ensures forall r :: r in resumable ==> r in requests
    ensures forall r :: r in requests ==> r.status == if now < r.hold.expiresAt then Resumed else Expired
  {
    resumable := [];
    for k := 0 to |requests|
      invariant Settled(requests, k, resumable, now)
      invariant forall r :: r in resumable ==> r in requests
      invariant forall j :: 0 <= j < k ==>
          requests[j].status == if now < requests[j].hold.expiresAt then Resumed else Expired
    {
      var req := requests[k];
      SettledNext(requests, k, resumable, now);
      if now < req.hold.expiresAt {
        req.status := Resumed;
        resumable := resumable + [req];
      } else {
        req.status := Expired;
      }
    }
  }

  /** Marks the requests past their deadline expired, and parts them from the others. */
  method Sweep(requests: seq<HeldRequest>, now: int) returns (remaining: seq<HeldRequest>, passed: seq<HeldRequest>)
    modifies set r | r in requests
    ensures Values(remaining) == Remaining(Values(requests), now) && Values(passed) == Passed(Values(requests), now)
    ensures forall r :: r in remaining ==> r in requests && now <= r.hold.expiresAt
    ensures forall r :: r in passed ==> r in requests
    ensures forall r :: r in requests ==> r.status == if now > r.hold.expiresAt then Expired else old(r.status)
  {
    remaining, passed := [], [];
    for k := 0 to |requests|
      invariant Parted(requests, k, remaining, passed, now)
      invariant forall r :: r in remaining ==> r in requests && now <= r.hold.expiresAt
      invariant forall r :: r in passed ==> r in requests
      invariant forall r :: r in requests && now <= r.hold.expiresAt ==> r.status == old(r.status)
      invariant forall j :: 0 <= j < k && now > requests[j].hold.expiresAt ==> requests[j].status == Expired
    {
      var req := requests[k];
      PartedNext(requests, k, remaining, passed, now);
      if now > req.hold.expiresAt {
        req.status := Expired;
        passed := passed + [req];
      } else {
        remaining := remaining + [req];
      }
    }
  }

  type Table = map<string, seq<HeldRequest>>

  function ViewOf(holds: Table): Queues {
    map service | service in holds :: Values(holds[service])
  }

  ghost predicate AllHeld(requests: seq<HeldRequest>, service: string)
    reads set r | r in requests
  {
    forall r :: r in requests ==> r.status == Held && r.hold.service == service
  }

  ghost predicate AllExpired(requests: seq<HeldRequest>)
    reads set r | r in requests
  {
    forall r :: r in requests ==> r.status == Expired
  }

  ghost function RequestsOf(holds: Table): set<HeldRequest> {
    set service, r | service in holds && r in holds[service] :: r
  }

  /** Every queue holds requests of its own service that are still held. */
  ghost predicate Waiting(holds: Table)
    reads RequestsOf(holds)
  {
    forall service :: service in holds ==> AllHeld(holds[service], service)
  }

  /** The table with another queue for one service; an empty queue is no queue. */
  function Replaced(holds: Table, service: string, requests: seq<HeldRequest>): Table {
    if |requests| == 0 then holds - {service} else holds[service := requests]
  }

  lemma ViewOfUpdate(holds: Table, service: string, requests: seq<HeldRequest>)
    ensures ViewOf(holds[service := requests]) == ViewOf(holds)[service := Values(requests)]
  {
    assert ViewOf(holds[service := requests]).Keys == ViewOf(holds)[service := Values(requests)].Keys;
  }

  lemma ReplacedView(holds: Table, service: string, requests: seq<HeldRequest>)
    ensures ViewOf(Replaced(holds, service, requests))
         == if |requests| == 0 then ViewOf(holds) - {service} else ViewOf(holds)[service := Values(requests)]
  {
    ViewOfUpdate(holds, service, requests);
  }

  lemma ReplacedWaits(holds: Table, service: string, requests: seq<HeldRequest>)
    requires Waiting(holds - {service}) && AllHeld(requests, service)
    ensures Waiting(Replaced(holds, service, requests))
  {
    var after, others := Replaced(holds, service, requests), holds - {service};
    forall name | name in after ensures AllHeld(after[name], name) {
      if name != service {
        assert after[name] == others[name];
      }
    }
  }

  lemma ReplacedShrinks(holds: Table, service: string, requests: seq<HeldRequest>)
    requires service in holds && forall r :: r in requests ==> r in holds[service]
    ensures RequestsOf(Replaced(holds, service, requests)) <= RequestsOf(holds)
  {
  }

  /** A waiting table stays waiting without one service, whose requests are in no other queue. */
  lemma OthersWait(holds: Table, service: string)
    requires Waiting(holds) && service in holds
    ensures Waiting(holds - {service}) && forall r :: r in holds[service] ==> r !in RequestsOf(holds - {service})
  {
  }

  /** A collection that has been through some services: theirs are swept, the others are as before. */
  function Progress(holds: Queues, done: set<string>, now: int): Queues {
    map service | service in holds && (service in done ==> Remaining(holds[service], now) != [])
      :: if service in done then Remaining(holds[service], now) else holds[service]
  }

  lemma ProgressNext(holds: Queues, done: set<string>, service: string, now: int)
    requires service in holds && service !in done
    ensures var before := Progress(holds, done, now);
            var rest := Remaining(holds[service], now);
            && service in before && before[service] == holds[service]
            && Progress(holds, done + {service}, now)
                 == if rest == [] then before - {service} else before[service := rest]
  {
  }

  /** One service's share of a collection. */
  method SweepQueue(holds: Table, service: string, now: int) returns (after: Table, late: seq<HeldRequest>)
    requires Waiting(holds) && service in holds
    modifies set r | r in holds[service]
    ensures Waiting(after) && RequestsOf(after) <= RequestsOf(holds)
    ensures QueueSwept(holds, service, now, after, late)
    ensures AllExpired(late)
  {
    ghost var others := holds - {service};
    OthersWait(holds, service);
    var remaining;
    remaining, late := Sweep(holds[service], now);
    assert Waiting(others);
    LateAreLate(late, Values(holds[service]), now);
    ReplacedView(holds, service, remaining);
    ReplacedWaits(holds, service, remaining);
    ReplacedShrinks(holds, service, remaining);
    if |remaining| == 0 {
      after := holds - {service};
    } else {
      after := holds[service := remaining];
    }
  }

  /** These services have been swept: what is left, and what passed. */
  ghost predicate SweptUpTo(queues: Queues, done: set<string>, now: int, left: Queues, passed: seq<Hold>) {
    left == Progress(queues, done, now) && multiset(passed) == AllPassed(Part(queues, done), now)
  }

  lemma SweptBegins(queues: Queues, now: int)
    ensures SweptUpTo(queues, {}, now, queues, [])
  {
  }

  lemma SweptNext(queues: Queues, done: set<string>, service: string, now: int, left: Queues, passed: seq<Hold>)
    requires service in queues && service !in done && SweptUpTo(queues, done, now, left, passed)
    ensures service in left
    ensures var q := left[service];
            var rest := if Remaining(q, now) == [] then left - {service} else left[service := Remaining(q, now)];
            SweptUpTo(queues, done + {service}, now, rest, passed + Passed(q, now))
  {
    ProgressNext(queues, done, service, now);
    OneMore(queues, done, service, now);
  }

  /** What sweeping one service's queue does to a table. */
  ghost predicate QueueSwept(before: Table, service: string, now: int, after: Table, late: seq<HeldRequest>)
    requires service in before
  {
    var q := Values(before[service]);
    && Values(late) == Passed(q, now)
    && ViewOf(after)
         == if Remaining(q, now) == [] then ViewOf(before) - {service}
            else ViewOf(before)[service := Remaining(q, now)]
  }

  lemma SweptTable(
    queues: Queues, done: set<string>, service: string, now: int, before: Table, passed: seq<HeldRequest>,
    after: Table, late: seq<HeldRequest>)
    requires service in queues && service !in done && service in before
    requires SweptUpTo(queues, done, now, ViewOf(before), Values(passed))
        && QueueSwept(before, service, now, after, late)
    ensures SweptUpTo(queues, done + {service}, now, ViewOf(after), Values(passed + late))
  {
    SweptNext(queues, done, service, now, ViewOf(before), Values(passed));
    ValuesConcat(passed, late);
  }

  lemma SweptEnds(queues: Queues, now: int, left: Queues, passed: seq<Hold>)
    requires SweptUpTo(queues, queues.Keys, now, left, passed)
    ensures left == AfterCollect(queues, now) && multiset(passed) == AllPassed(queues, now)
  {
    PartOfAll(queues);
  }

  /** One more service of a collection. */
  method SweepNext(ghost queues: Queues, ghost done: set<string>, service: string, holds: Table,
      passed: seq<HeldRequest>, now: int)
    returns (after: Table, expired: seq<HeldRequest>)
    requires Waiting(holds) && service in queues && service !in done
    requires SweptUpTo(queues, done, now, ViewOf(holds), Values(passed)) && AllExpired(passed)
    modifies RequestsOf(holds)
    ensures Waiting(after) && RequestsOf(after) <= RequestsOf(holds)
    ensures SweptUpTo(queues, done + {service}, now, ViewOf(after), Values(expired)) && AllExpired(expired)
  {
    ProgressNext(queues, done, service, now);
    assert service in ViewOf(holds) && AllHeld(holds[service], service);
    var late;
    after, late := SweepQueue(holds, service, now);
    SweptTable(queues, done, service, now, holds, passed, after, late);
    expired := passed + late;
  }

  /** Every service's queue in turn. */
  method SweepAll(holds: Table, order: seq<string>, now: int) returns (after: Table, passed: seq<HeldRequest>)
    requires Waiting(holds) && ListsOnce(order, holds.Keys)
    modifies RequestsOf(holds)
    ensures Waiting(after) && ViewOf(after) == AfterCollect(ViewOf(holds), now)
    ensures multiset(Values(passed)) == AllPassed(ViewOf(holds), now) && AllExpired(passed)
  {
    after, passed := holds, [];
    ghost var queues := ViewOf(holds);
    SweptBegins(queues, now);
    for k := 0 to |order|
      invariant Waiting(after) && RequestsOf(after) <= RequestsOf(holds)
      invariant SweptUpTo(queues, Visited(order, k), now, ViewOf(after), Values(passed)) && AllExpired(passed)
    {
      VisitNext(order, queues.Keys, k);
      after, passed := SweepNext(queues, Visited(order, k), order[k], after, passed, now);
    }
    VisitedAll(order, queues.Keys);
    SweptEnds(queues, now, ViewOf(after), Values(passed));
  }

  /** The requests of one service, all settled, and the table without them. */
  method SettleQueue(holds: Table, service: string, now: int) returns (after: Table, resumable: seq<HeldRequest>)
    requires Waiting(holds) && service in holds
    modifies set r | r in holds[service]
    ensures Waiting(after) && ViewOf(after) == ViewOf(holds) - {service}
    ensures Values(resumable) == Resumable(Values(holds[service]), now)
    ensures forall r :: r in resumable ==> r.status == Resumed
    ensures forall r :: r in holds[service] && now >= r.hold.expiresAt ==> r.status == Expired
  {
    OthersWait(holds, service);
    ghost var others := holds - {service};
    resumable := Settle(holds[service], now);
    assert Waiting(others);
    ResumedAreAlive(resumable, Values(holds[service]), now);
    ReplacedView(holds, service, []);
    after := holds - {service};
  }

  /** One more held request at the end of its service's queue. */
  lemma AddedIsSound(holds: Table, service: string, existing: seq<HeldRequest>, req: HeldRequest)
    requires Waiting(holds) && existing == (if service in holds then holds[service] else [])
    requires req.status == Held && req.hold.service == service
    ensures Waiting(holds[service := existing + [req]])
    ensures ViewOf(holds[service := existing + [req]])
        == ViewOf(holds)[service := BucketOf(ViewOf(holds), service) + [req.hold]]
  {
    if service in holds {
      OthersWait(holds, service);
      assert AllHeld(existing, service);
    } else {
      assert holds - {service} == holds;
    }
    ReplacedWaits(holds, service, existing + [req]);
    ReplacedView(holds, service, existing + [req]);
    ValuesSnoc(existing, req);
  }

  method CountAll(holds: Table, order: seq<string>) returns (active: nat)
    requires ListsOnce(order, holds.Keys)
    ensures active == |All(ViewOf(holds))|
  {
    active := 0;
    ghost var queues := ViewOf(holds);
    for k := 0 to |order|
      invariant active == Total(queues, order, k)
    {
      active := active + |holds[order[k]]|;
    }
    TotalIsAll(queues, order);
  }

  class GatewayHoldManager {
    const cfg: Config
    var holds: Table
    var total: nat
    var expired: nat
    var resumed: nat

    ghost function View(): State
      reads this
    {
      State(ViewOf(holds), total, expired, resumed)
    }

    ghost predicate Valid()
      reads this, RequestsOf(holds)
    {
      cfg.Valid() && Waiting(holds)
    }

    constructor (cfg: Config)
      ensures Valid() && View() == EMPTY && this.cfg == Defaulted(cfg)
    {
      this.cfg := Defaulted(cfg);
      holds, total, expired, resumed := map[], 0, 0, 0;
    }

    method HoldRequest(service: string, requestId: string, correlationId: string, timeout: int, now: int)
      returns (held: HeldRequest?)
      requires Valid()
      modifies this
      ensures Valid()
      ensures var c := Command.HoldRequest(service, requestId, correlationId, timeout, now);
              && View() == Step(old(View()), cfg, c)
              && (held == null <==> Refused(old(View()), cfg, c))
              && (held != null ==> fresh(held) && held.hold == NewHold(cfg, c) && held.status == Held)
    {
      total := total + 1;
      var wait := if timeout <= 0 then cfg.holdTimeout else timeout;
      var existing := if service in holds then holds[service] else [];
      if |existing| >= cfg.maxHeld {
        return null;
      }
      var req := new HeldRequest(Hold(requestId, service, correlationId, now, now + wait));
      AddedIsSound(holds, service, existing, req);
      holds := holds[service := existing + [req]];
      return req;
    }

    method ResumeRequests(service: string, now: int) returns (resumable: seq<HeldRequest>)
      requires Valid()
      modifies this, RequestsOf(holds)
      ensures Valid()
      ensures View() == Step(old(View()), cfg, Resume(service, now))
      ensures Values(resumable) == Resumable(BucketOf(old(View()).holds, service), now)
      ensures forall r :: r in resumable ==> r.status == Resumed
      ensures forall r :: service in old(holds) && r in old(holds)[service] && now >= r.hold.expiresAt ==>
          r.status == Expired
    {
      if service !in holds || |holds[service]| == 0 {
        return [];
      }
      var waiting := |holds[service]|;
      ResumableFits(Values(holds[service]), now);
      holds, resumable := SettleQueue(holds, service, now);
      resumed := resumed + |resumable|;
      expired := expired + (waiting - |resumable|);
    }

    /** The services are visited in the given order, which lists each of them once. */
    method CollectExpiredHolds(now: int, order: seq<string>) returns (passed: seq<HeldRequest>)
      requires Valid() && ListsOnce(order, holds.Keys)
      modifies this, RequestsOf(holds)
      ensures Valid()
      ensures View() == Step(old(View()), cfg, Collect(now))
      ensures multiset(Values(passed)) == AllPassed(old(View()).holds, now)
      ensures AllExpired(passed)
    {
      var after;
      after, passed := SweepAll(holds, order, now);
      CollectStep(View(), cfg, Values(passed), now);
      expired := expired + |passed|;
      holds := after;
    }

    method Stats(order: seq<string>) returns (all: nat, active: nat, late: nat, woken: nat)
      requires ListsOnce(order, holds.Keys)
      ensures all == View().total && active == |All(View().holds)| && late == View().expired && woken == View().resumed
    {
      active := CountAll(holds, order);
      all, late, woken := total, expired, resumed;
    }
  }

  lemma OneMore(holds: Queues, done: set<string>, service: string, now: int)
    requires service in holds && service !in done
    ensures AllPassed(Part(holds, done + {service}), now)
        == AllPassed(Part(holds, done), now) + multiset(Passed(holds[service], now))
  {
    PartGrows(PassedQueues(holds, now), done, service);
    assert PassedQueues(Part(holds, done + {service}), now) == Part(PassedQueues(holds, now), done + {service});
    assert PassedQueues(Part(holds, done), now) == Part(PassedQueues(holds, now), done);
  }

  lemma {:induction false} ValuesIn(requests: seq<HeldRequest>, r: HeldRequest)
    requires r in requests
    ensures r.hold in Values(requests)
  {
    if requests[0] != r {
      ValuesIn(requests[1..], r);
    }
  }

  lemma ResumedAreAlive(resumable: seq<HeldRequest>, q: seq<Hold>, now: int)
    requires Values(resumable) == Resumable(q, now)
    ensures forall r :: r in resumable ==> now < r.hold.expiresAt
  {
    ResumableComesFrom(q, now);
    forall r | r in resumable ensures now < r.hold.expiresAt {
      ValuesIn(resumable, r);
    }
  }

  lemma LateAreLate(late: seq<HeldRequest>, q: seq<Hold>, now: int)
    requires Values(late) == Passed(q, now)
    ensures forall r :: r in late ==> now > r.hold.expiresAt
  {
    PassedComesFrom(q, now);
    forall r | r in late ensures now > r.hold.expiresAt {
      ValuesIn(late, r);
    }
  }

  lemma {:induction false} PassedComesFrom(q: seq<Hold>, now: int)
    ensures forall h :: h in Passed(q, now) <==> h in q && now > h.expiresAt
  {
    if q != [] {
      PassedComesFrom(q[1..], now);
    }
  }
}
