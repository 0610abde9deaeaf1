/** Runtime ports of standalone services: the wrapping probe sequence, and the assignment loop over all services. */
module Ports {
  import opened Text

  const RANGE_START := 20000
  const RANGE_END := 45000
  const SPAN := 25001
  const TWO_32 := 0x1_0000_0000

  /** The first four bytes of a digest, read as an unsigned 32-bit number. */
  type Seed = s: nat | s < TWO_32

  /** Whether a port number can be bound on the loopback address: the host's answer, the same for the whole call. */
  type Bindable = int -> bool

  predicate InRange(port: int) {
    RANGE_START <= port <= RANGE_END
  }

  /** The sum of the seed and the attempt wraps at 2^32 before the remainder is taken. */
  function Candidate(seed: Seed, attempt: nat): int {
    RANGE_START + (seed + attempt) % TWO_32 % SPAN
  }

  predicate Tried(seed: Seed, port: int) {
    exists attempt: nat :: attempt < SPAN && Candidate(seed, attempt) == port
  }

  predicate Available(port: int, reserved: set<int>, bind: Bindable) {
    port > 0 && port !in reserved && bind(port)
  }

  /** The first available candidate from this attempt on. */
  function FirstFit(seed: Seed, attempt: nat, reserved: set<int>, bind: Bindable): Option<int>
    requires attempt <= SPAN
    decreases SPAN - attempt
  {
    if attempt == SPAN then None
    else if Available(Candidate(seed, attempt), reserved, bind) then Some(Candidate(seed, attempt))
    else FirstFit(seed, attempt + 1, reserved, bind)
  }

  method Allocate(seed: Seed, reserved: map<int, string>, bind: Bindable) returns (port: Option<int>)
    ensures port == FirstFit(seed, 0, reserved.Keys, bind)
  {
    var span := RANGE_END - RANGE_START + 1;
    for attempt := 0 to span
      invariant FirstFit(seed, 0, reserved.Keys, bind) == FirstFit(seed, attempt, reserved.Keys, bind)
    {
      var candidate := RANGE_START + (seed + attempt) % TWO_32 % span;
      if candidate > 0 && candidate !in reserved && bind(candidate) {
        return Some(candidate);
      }
    }
    return None;
  }

  // ---------------------------------------------------------------- which ports are tried

  /** Allocation returns an available tried port, and fails only when every tried port is unavailable. */
  lemma {:induction false} FirstFitMeans(seed: Seed, attempt: nat, reserved: set<int>, bind: Bindable)
    requires attempt <= SPAN
    ensures var r := FirstFit(seed, attempt, reserved, bind);
            && (r.Some? ==> Tried(seed, r.value) && InRange(r.value) && Available(r.value, reserved, bind))
            && (r.None? <==> forall a: nat :: attempt <= a < SPAN ==> !Available(Candidate(seed, a), reserved, bind))
    decreases SPAN - attempt
  {
    if attempt < SPAN {
      FirstFitMeans(seed, attempt + 1, reserved, bind);
    }
  }

  /** The remainder of a sum, one operand already reduced. */
  lemma ResidueOfSum(x: int, q: nat)
    requires q < SPAN
    ensures (x + (q - x) % SPAN) % SPAN == q
  {
  }

  lemma SmallDifference(x: int, y: int)
    requires x % SPAN == y % SPAN && x <= y < x + SPAN
    ensures x == y
  {
  }

  /** Below the wrap every port of the range is tried, and by one attempt only. */
  lemma EveryPortTriedOnce(seed: Seed, port: int)
    requires seed + SPAN - 1 < TWO_32 && InRange(port)
    ensures exists a: nat :: a < SPAN && Candidate(seed, a) == port
                          && forall b: nat :: b < SPAN && Candidate(seed, b) == port ==> b == a
  {
    var q: nat := port - RANGE_START;
    var a: nat := (q - seed) % SPAN;
    ResidueOfSum(seed, q);
    assert Candidate(seed, a) == port;
    forall b: nat | b < SPAN && Candidate(seed, b) == port ensures b == a {
      SmallDifference(seed + if a <= b then a else b, seed + if a <= b then b else a);
    }
  }

  /** Residues of 2^32 - k + a for the attempts before the wrap; 2^32 leaves 20505. */
  lemma BeforeTheWrap(k: nat, a: nat)
    requires 1 <= k < SPAN && a < k
    ensures (TWO_32 - k + a) % SPAN == if k - a <= 20505 then 20505 - k + a else SPAN + 20505 - k + a
  {
  }

  lemma AfterTheWrap(seed: Seed, a: nat)
    requires seed + a >= TWO_32 && a < SPAN
    ensures Candidate(seed, a) == RANGE_START + seed + a - TWO_32
  {
  }

  /** The offsets tried by a seed that lies k below 2^32. */
  predicate TriedOffset(k: nat, q: nat) {
    || q + k < SPAN
    || (20505 - k <= q < 20505)
    || SPAN + 20505 - k <= q < SPAN
  }

  /** Above the wrap, exactly these ports are tried. */
  lemma WrappedProbeTries(seed: Seed, port: int)
    requires seed + SPAN - 1 >= TWO_32 && InRange(port)
    ensures Tried(seed, port) <==> TriedOffset(TWO_32 - seed, port - RANGE_START)
  {
    var k, q: nat := TWO_32 - seed, port - RANGE_START;
    forall a: nat | a < SPAN && Candidate(seed, a) == port ensures TriedOffset(k, q) {
      if a < k {
        BeforeTheWrap(k, a);
      } else {
        AfterTheWrap(seed, a);
      }
    }
    if q + k < SPAN {
      AfterTheWrap(seed, q + k);
      assert Candidate(seed, q + k) == port;
    } else if 20505 - k <= q < 20505 {
      BeforeTheWrap(k, q + k - 20505);
      assert Candidate(seed, q + k - 20505) == port;
    } else if SPAN + 20505 - k <= q < SPAN {
      BeforeTheWrap(k, q + k - 20505 - SPAN);
      assert Candidate(seed, q + k - 20505 - SPAN) == port;
    }
  }

  /** A port the wrapped probe never tries. */
  function Missed(seed: Seed): (port: int)
    requires seed + SPAN - 1 >= TWO_32
    ensures InRange(port) && !Tried(seed, port)
  {
    var port := if TWO_32 - seed <= 20505 then RANGE_END else RANGE_START + 20505;
    WrappedProbeTries(seed, port);
    port
  }

  /** Every port of the range is tried exactly when the seed is at least 25001 below 2^32. */
  lemma TriesEveryPortExactlyWhen(seed: Seed)
    ensures (forall port :: InRange(port) ==> Tried(seed, port)) <==> seed + SPAN - 1 < TWO_32
  {
    if seed + SPAN - 1 < TWO_32 {
      forall port | InRange(port) ensures Tried(seed, port) {
        EveryPortTriedOnce(seed, port);
      }
    } else {
      var port := Missed(seed);
      assert InRange(port) && !Tried(seed, port);
    }
  }

  /** Below the wrap, allocation fails exactly when no port of the range is available. */
  lemma FailsExactlyWhenFull(seed: Seed, reserved: set<int>, bind: Bindable)
    requires seed + SPAN - 1 < TWO_32
    ensures FirstFit(seed, 0, reserved, bind).None?
       <==> forall port :: InRange(port) ==> !Available(port, reserved, bind)
  {
    FirstFitMeans(seed, 0, reserved, bind);
    TriesEveryPortExactlyWhen(seed);
    if FirstFit(seed, 0, reserved, bind).None? {
      forall port | InRange(port) ensures !Available(port, reserved, bind) {
        assert Tried(seed, port);
      }
    }
  }

  /** Above the wrap, allocation can fail although a port of the range is free. */
  lemma FailsWithAFreePort(seed: Seed)
    requires seed + SPAN - 1 >= TWO_32
    ensures exists bind: Bindable, port ::
              InRange(port) && Available(port, {}, bind) && FirstFit(seed, 0, {}, bind).None?
  {
    var missed := Missed(seed);
    var bind := p => p == missed;
    FirstFitMeans(seed, 0, {}, bind);
    assert InRange(missed) && Available(missed, {}, bind) && FirstFit(seed, 0, {}, bind).None?;
  }

  // ---------------------------------------------------------------- assigning ports to services

  /**
   A service: its health check, target and service ports, the ports found in its image, and its dependencies'
   listeners.
   */
  datatype Service = Service(
    name: string,
    healthPort: int,
    targetPort: int,
    servicePort: int,
    detected: seq<int>,
    listeners: seq<int>,
    runtimePort: int)

  function Lower(s: string): string {
    seq(|s|, i requires 0 <= i < |s| => if 'A' <= s[i] <= 'Z' then (s[i] as int + 32) as char else s[i])
  }

  predicate IsInternal(name: string) {
    var normalized := Lower(Trim(name));
    normalized == "lazyops-internal-service" || "lazyops-internal-" <= normalized
  }

  function FirstPositive(ports: seq<int>): (port: int)
    ensures port >= 0 && (port == 0 <==> forall k :: 0 <= k < |ports| ==> ports[k] <= 0) && (port > 0 ==> port in ports)
  {
    if ports == [] then 0 else if ports[0] > 0 then ports[0] else FirstPositive(ports[1..])
  }

  function DeclaredPort(s: Service): int {
    if s.healthPort > 0 then s.healthPort
    else if s.targetPort > 0 then s.targetPort
    else if s.servicePort > 0 then s.servicePort
    else FirstPositive(s.detected)
  }

  /** Only listener ports above zero count. */
  predicate ListensOn(s: Service, port: int) {
    port > 0 && port in s.listeners
  }

  function PortFor(s: Service, seed: Seed, reserved: set<int>, bind: Bindable): Option<int> {
    var declared := DeclaredPort(s);
    if declared > 0 && !ListensOn(s, declared) && Available(declared, reserved, bind) then Some(declared)
    else FirstFit(seed, 0, reserved, bind)
  }

  function Reserved(done: seq<Service>): set<int> {
    set k | 0 <= k < |done| && !IsInternal(done[k].name) :: done[k].runtimePort
  }

  /** The first n services with their ports, or nothing once an allocation failed. */
  function AssignUpTo(
    services: seq<Service>, n: nat, seedOf: string -> Seed, bind: Bindable): (done: Option<seq<Service>>)
    requires n <= |services|
    ensures done.Some? ==> |done.value| == n
  {
    if n == 0 then Some([])
    else
      var before := AssignUpTo(services, n - 1, seedOf, bind);
      var s := services[n - 1];
      if before.None? then None
      else if IsInternal(s.name) then Some(before.value + [s])
      else
        var port := PortFor(s, seedOf(Trim(s.name)), Reserved(before.value), bind);
        if port.None? then None else Some(before.value + [s.(runtimePort := port.value)])
  }

  method HasConflict(s: Service, port: int) returns (conflict: bool)
    ensures conflict <==> ListensOn(s, port)
  {
    if port <= 0 {
      return false;
    }
    for k := 0 to |s.listeners|
      invariant port !in s.listeners[..k]
    {
      if s.listeners[k] == port {
        return true;
      }
    }
    return false;
  }

  method FindDeclared(s: Service) returns (port: int)
    ensures port == DeclaredPort(s)
  {
    if s.healthPort > 0 {
      return s.healthPort;
    }
    if s.targetPort > 0 {
      return s.targetPort;
    }
    if s.servicePort > 0 {
      return s.servicePort;
    }
    for k := 0 to |s.detected|
      invariant FirstPositive(s.detected) == FirstPositive(s.detected[k..])
    {
      if s.detected[k] > 0 {
        return s.detected[k];
      }
      assert s.detected[k..][1..] == s.detected[k + 1..];
    }
    return 0;
  }

  lemma ReservedSnoc(done: seq<Service>, s: Service)
    ensures Reserved(done + [s]) == Reserved(done) + (if IsInternal(s.name) then {} else {s.runtimePort})
  {
    var longer := done + [s];
    forall port | port in Reserved(done) ensures port in Reserved(longer) {
      var k :| 0 <= k < |done| && !IsInternal(done[k].name) && done[k].runtimePort == port;
      assert longer[k] == done[k];
    }
    assert longer[|done|] == s;
  }

  lemma FailureGoesOn(services: seq<Service>, n: nat, seedOf: string -> Seed, bind: Bindable)
    requires n < |services| && AssignUpTo(services, n, seedOf, bind).None?
    ensures AssignUpTo(services, n + 1, seedOf, bind).None?
  {
  }

  lemma {:induction false} FailureLasts(services: seq<Service>, n: nat, m: nat, seedOf: string -> Seed, bind: Bindable)
    requires n <= m <= |services| && AssignUpTo(services, n, seedOf, bind).None?
    ensures AssignUpTo(services, m, seedOf, bind).None?
    decreases m - n
  {
    if n < m {
      FailureGoesOn(services, n, seedOf, bind);
      FailureLasts(services, n + 1, m, seedOf, bind);
    }
  }

  lemma Advance(result: seq<Service>, services: seq<Service>, i: nat, s: Service)
    requires i < |result| == |services| && result[i..] == services[i..]
    ensures result[i := s][..i + 1] == result[..i] + [s] && result[i := s][i + 1..] == services[i + 1..]
    ensures s == result[i] ==> result[i := s] == result
  {
    assert result[i + 1..] == result[i..][1..] && services[i + 1..] == services[i..][1..];
  }

  method AssignRuntimePorts(standalone: bool, services: seq<Service>, seedOf: string -> Seed, bind: Bindable)
    returns (outcome: Option<seq<Service>>)
    ensures outcome == if standalone then AssignUpTo(services, |services|, seedOf, bind) else Some(services)
  {
    if !standalone || |services| == 0 {
      return Some(services);
    }
    var result := services;
    var reserved: map<int, string> := map[];
    for i := 0 to |services|
      invariant |result| == |services| && result[i..] == services[i..]
      invariant AssignUpTo(services, i, seedOf, bind) == Some(result[..i])
      invariant reserved.Keys == Reserved(result[..i])
    {
      var service := result[i];
      assert service == result[i..][0] == services[i..][0] == services[i];
      if IsInternal(service.name) {
        Advance(result, services, i, service);
        ReservedSnoc(result[..i], service);
        continue;
      }
      var declared := FindDeclared(service);
      var conflict := HasConflict(service, declared);
      var port := Some(declared);
      if declared <= 0 || conflict || declared in reserved || !bind(declared) {
        port := Allocate(seedOf(Trim(service.name)), reserved, bind);
      }
      if port.None? {
        FailureLasts(services, i + 1, |services|, seedOf, bind);
        return None;
      }
      var placed := service.(runtimePort := port.value);
      Advance(result, services, i, placed);
      ReservedSnoc(result[..i], placed);
      result := result[i := placed];
      reserved := reserved[port.value := service.name];
    }
    assert result[..|services|] == result;
    return Some(result);
  }

  // ---------------------------------------------------------------- what an assignment promises

  /** What a service may have been given: its own declared port, clear of its listeners, or a port of the range. */
  predicate PortIsFit(s: Service, port: int, bind: Bindable) {
    port > 0 && bind(port) && ((port == DeclaredPort(s) && !ListensOn(s, port)) || InRange(port))
  }

  lemma PortForIsFit(s: Service, seed: Seed, reserved: set<int>, bind: Bindable)
    requires PortFor(s, seed, reserved, bind).Some?
    ensures var port := PortFor(s, seed, reserved, bind).value; PortIsFit(s, port, bind) && port !in reserved
  {
    FirstFitMeans(seed, 0, reserved, bind);
  }

  predicate Distinct(done: seq<Service>) {
    forall i, j :: 0 <= i < j < |done| && !IsInternal(done[i].name) && !IsInternal(done[j].name)
               ==> done[i].runtimePort != done[j].runtimePort
  }

  predicate Fit(services: seq<Service>, done: seq<Service>, bind: Bindable)
    requires |done| <= |services|
  {
    forall k :: 0 <= k < |done| ==>
      && done[k] == services[k].(runtimePort := done[k].runtimePort)
      && (if IsInternal(services[k].name) then done[k] == services[k]
          else PortIsFit(services[k], done[k].runtimePort, bind))
  }

  lemma DistinctSnoc(before: seq<Service>, s: Service)
    requires Distinct(before) && (IsInternal(s.name) || s.runtimePort !in Reserved(before))
    ensures Distinct(before + [s])
  {
  }

  lemma FitSnoc(services: seq<Service>, before: seq<Service>, s: Service, bind: Bindable)
    requires |before| < |services| && Fit(services, before, bind)
    requires var given := services[|before|];
             && s == given.(runtimePort := s.runtimePort)
             && (if IsInternal(given.name) then s == given else PortIsFit(given, s.runtimePort, bind))
    ensures Fit(services, before + [s], bind)
  {
  }

  /** One service more: the assignment before it, and what it is given. */
  lemma AssignedNext(services: seq<Service>, k: nat, seedOf: string -> Seed, bind: Bindable)
    requires k < |services| && AssignUpTo(services, k + 1, seedOf, bind).Some?
    ensures var before, s := AssignUpTo(services, k, seedOf, bind), services[k];
            && before.Some?
            && var done := AssignUpTo(services, k + 1, seedOf, bind).value;
               && done == before.value + [done[k]]
               && done[k] == s.(runtimePort := done[k].runtimePort)
               && (if IsInternal(s.name) then done[k] == s
                   else
                     && PortIsFit(s, done[k].runtimePort, bind)
                     && done[k].runtimePort !in Reserved(before.value))
  {
    var s := services[k];
    if !IsInternal(s.name) {
      PortForIsFit(s, seedOf(Trim(s.name)), Reserved(AssignUpTo(services, k, seedOf, bind).value), bind);
    }
  }

  /**
   Every service keeps its other fields, internal services keep their port, and all other ports are fit and
   pairwise distinct.
   */
  lemma {:induction false} PortsAreFitAndDistinct(
    services: seq<Service>, n: nat, seedOf: string -> Seed, bind: Bindable)
    requires n <= |services| && AssignUpTo(services, n, seedOf, bind).Some?
    ensures var done := AssignUpTo(services, n, seedOf, bind).value; Distinct(done) && Fit(services, done, bind)
  {
    if n > 0 {
      var k: nat := n - 1;
      AssignedNext(services, k, seedOf, bind);
      PortsAreFitAndDistinct(services, k, seedOf, bind);
      var before, done := AssignUpTo(services, k, seedOf, bind).value, AssignUpTo(services, n, seedOf, bind).value;
      DistinctSnoc(before, done[k]);
      FitSnoc(services, before, done[k], bind);
    }
  }

  /**
   A service gets its declared port exactly when that port is usable, not its own listener, and not given to an
   earlier service, or the probe lands on it.
   */
  lemma DeclaredPortIsKeptUnless(s: Service, seed: Seed, reserved: set<int>, bind: Bindable)
    requires DeclaredPort(s) > 0
    ensures PortFor(s, seed, reserved, bind) == Some(DeclaredPort(s))
       <==> Available(DeclaredPort(s), reserved, bind)
            && (!ListensOn(s, DeclaredPort(s)) || FirstFit(seed, 0, reserved, bind) == Some(DeclaredPort(s)))
  {
    FirstFitMeans(seed, 0, reserved, bind);
  }

  function RangeOf(bind: Bindable): set<int> {
    set port | RANGE_START <= port <= RANGE_END && bind(port)
  }

  lemma {:induction false} ReservedIsSmall(done: seq<Service>)
    ensures |Reserved(done)| <= |done|
  {
    if done != [] {
      var init, last := done[..|done| - 1], done[|done| - 1];
      ReservedIsSmall(init);
      assert done == init + [last];
      ReservedSnoc(init, last);
    }
  }

  lemma SubsetIsNoLarger(a: set<int>, b: set<int>)
    requires a <= b
    ensures |a| <= |b|
  {
    assert b == a + (b - a);
  }

  /** With unwrapped seeds and at least as many bindable ports in the range as services, every service gets a port. */
  lemma {:induction false} EnoughPortsMeanSuccess(
    services: seq<Service>, n: nat, seedOf: string -> Seed, bind: Bindable)
    requires n <= |services| <= |RangeOf(bind)|
    requires forall name :: seedOf(name) + SPAN - 1 < TWO_32
    ensures AssignUpTo(services, n, seedOf, bind).Some?
  {
    if n > 0 {
      EnoughPortsMeanSuccess(services, n - 1, seedOf, bind);
      var before, s := AssignUpTo(services, n - 1, seedOf, bind).value, services[n - 1];
      FailsExactlyWhenFull(seedOf(Trim(s.name)), Reserved(before), bind);
      ReservedIsSmall(before);
      if RangeOf(bind) <= Reserved(before) {
        SubsetIsNoLarger(RangeOf(bind), Reserved(before));
        assert false;
      }
      var port :| port in RangeOf(bind) && port !in Reserved(before);
      assert InRange(port) && Available(port, Reserved(before), bind);
    }
  }

  /**
   The allocated port is never checked against the service's own listeners: any seed has a service given its own
   listener port.
   */
  lemma AllocatedPortCanBeItsOwnListener(name: string, seedOf: string -> Seed, bind: Bindable)
    requires !IsInternal(name) && bind(Candidate(seedOf(Trim(name)), 0))
    ensures exists s: Service, port :: s.name == name
              && AssignUpTo([s], 1, seedOf, bind) == Some([s.(runtimePort := port)]) && ListensOn(s, port)
  {
    var port := Candidate(seedOf(Trim(name)), 0);
    var s := Service(name, 0, 0, 0, [], [port], 0);
    assert AssignUpTo([s], 0, seedOf, bind) == Some([]) && Reserved([]) == {};
    assert FirstFit(seedOf(Trim(name)), 0, {}, bind) == Some(port);
    assert DeclaredPort(s) == 0 && PortFor(s, seedOf(Trim(name)), {}, bind) == Some(port);
    assert AssignUpTo([s], 1, seedOf, bind) == Some([] + [s.(runtimePort := port)]);
    assert [] + [s.(runtimePort := port)] == [s.(runtimePort := port)] && ListensOn(s, port);
  }

  /** The port that a service would be given is not one of its own listeners. */
  predicate Clear(s: Service, port: Option<int>) {
    port.Some? ==> !ListensOn(s, port.value)
  }

  predicate NoListenerTried(s: Service, seed: Seed) {
    forall port :: port in s.listeners ==> !Tried(seed, port)
  }

  predicate NoListenerInRange(s: Service) {
    forall port :: port in s.listeners ==> !InRange(port)
  }

  lemma TriedIsInRange(seed: Seed, port: int)
    requires Tried(seed, port)
    ensures InRange(port)
  {
  }

  lemma UntriedMeansClear(s: Service, seed: Seed, reserved: set<int>, bind: Bindable)
    requires NoListenerTried(s, seed)
    ensures Clear(s, PortFor(s, seed, reserved, bind))
  {
    FirstFitMeans(seed, 0, reserved, bind);
  }

  /** A host on which only one port can be bound. */
  function Only(port: int): Bindable {
    p => p == port
  }

  lemma TriedListenerIsGiven(s: Service, seed: Seed, port: int)
    requires port in s.listeners && Tried(seed, port)
    ensures PortFor(s, seed, {}, Only(port)) == Some(port) && ListensOn(s, port)
  {
    TriedIsInRange(seed, port);
    FirstFitMeans(seed, 0, {}, Only(port));
    var a: nat :| a < SPAN && Candidate(seed, a) == port;
    assert Available(Candidate(seed, a), {}, Only(port));
  }

  /** With this seed a service can be given its own listener port, on some host, exactly when the probe tries one. */
  lemma NeverOwnListenerExactlyWhen(s: Service, seed: Seed)
    ensures (forall reserved: set<int>, bind: Bindable :: Clear(s, PortFor(s, seed, reserved, bind)))
       <==> NoListenerTried(s, seed)
  {
    if NoListenerTried(s, seed) {
      forall reserved: set<int>, bind: Bindable ensures Clear(s, PortFor(s, seed, reserved, bind)) {
        UntriedMeansClear(s, seed, reserved, bind);
      }
    } else {
      var port :| port in s.listeners && Tried(seed, port);
      TriedListenerIsGiven(s, seed, port);
      assert !Clear(s, PortFor(s, seed, {}, Only(port)));
    }
  }

  /** The port that an assignment gives a service is what it would be given after the services before it. */
  lemma {:induction false} GivenInTurn(
    services: seq<Service>, n: nat, k: nat, seedOf: string -> Seed, bind: Bindable)
    requires k < n <= |services| && AssignUpTo(services, n, seedOf, bind).Some? && !IsInternal(services[k].name)
    ensures AssignUpTo(services, k, seedOf, bind).Some?
    ensures var before := AssignUpTo(services, k, seedOf, bind).value;
            Some(AssignUpTo(services, n, seedOf, bind).value[k].runtimePort)
              == PortFor(services[k], seedOf(Trim(services[k].name)), Reserved(before), bind)
  {
    if k < n - 1 {
      GivenInTurn(services, n - 1, k, seedOf, bind);
    }
  }

  /** Wherever the service stands among others, it does not end on its own listener port. */
  predicate ClearAmong(services: seq<Service>, k: nat, seedOf: string -> Seed, bind: Bindable)
    requires k < |services|
  {
    var done := AssignUpTo(services, |services|, seedOf, bind);
    done.Some? ==> !ListensOn(services[k], done.value[k].runtimePort)
  }

  ghost predicate AlwaysClear(s: Service, seedOf: string -> Seed) {
    forall services: seq<Service>, k: nat, bind: Bindable :: k < |services| && services[k] == s ==>
      ClearAmong(services, k, seedOf, bind)
  }

  lemma ClearInTurn(services: seq<Service>, k: nat, seedOf: string -> Seed, bind: Bindable)
    requires k < |services| && !IsInternal(services[k].name)
    requires NoListenerTried(services[k], seedOf(Trim(services[k].name)))
    ensures ClearAmong(services, k, seedOf, bind)
  {
    if AssignUpTo(services, |services|, seedOf, bind).Some? {
      GivenInTurn(services, |services|, k, seedOf, bind);
      var before := AssignUpTo(services, k, seedOf, bind).value;
      UntriedMeansClear(services[k], seedOf(Trim(services[k].name)), Reserved(before), bind);
    }
  }

  lemma AloneIsUnclear(s: Service, seedOf: string -> Seed, port: int)
    requires !IsInternal(s.name) && port in s.listeners && Tried(seedOf(Trim(s.name)), port)
    ensures !ClearAmong([s], 0, seedOf, Only(port))
  {
    TriedListenerIsGiven(s, seedOf(Trim(s.name)), port);
    assert AssignUpTo([s], 0, seedOf, Only(port)) == Some([]) && Reserved([]) == {};
    assert AssignUpTo([s], 1, seedOf, Only(port)) == Some([] + [s.(runtimePort := port)]);
  }

  /** Over all assignments on all hosts: clear exactly when the service's own probe tries none of its listeners. */
  lemma AlwaysClearExactlyWhen(s: Service, seedOf: string -> Seed)
    requires !IsInternal(s.name)
    ensures AlwaysClear(s, seedOf) <==> NoListenerTried(s, seedOf(Trim(s.name)))
  {
    if NoListenerTried(s, seedOf(Trim(s.name))) {
      forall services: seq<Service>, k: nat, bind: Bindable | k < |services| && services[k] == s
        ensures ClearAmong(services, k, seedOf, bind)
      {
        ClearInTurn(services, k, seedOf, bind);
      }
    } else {
      var port :| port in s.listeners && Tried(seedOf(Trim(s.name)), port);
      AloneIsUnclear(s, seedOf, port);
    }
  }

  /**
   Over all digests too: a service is safe from its own listener ports exactly when they all lie outside the range.
   */
  lemma NoOwnListenerOutsideTheRange(s: Service)
    requires !IsInternal(s.name)
    ensures (forall seedOf: string -> Seed :: AlwaysClear(s, seedOf)) <==> NoListenerInRange(s)
  {
    if NoListenerInRange(s) {
      forall seedOf: string -> Seed ensures AlwaysClear(s, seedOf) {
        AlwaysClearExactlyWhen(s, seedOf);
      }
    } else {
      var port :| port in s.listeners && InRange(port);
      var zero: string -> Seed := name => 0;
      EveryPortTriedOnce(0, port);
      assert Tried(zero(Trim(s.name)), port);
      AlwaysClearExactlyWhen(s, zero);
    }
  }

  // ---------------------------------------------------------------- which port, exactly

  /** Attempt a is the first whose port can be had. */
  predicate FirstToFit(seed: Seed, from: nat, a: nat, reserved: set<int>, bind: Bindable) {
    && from <= a < SPAN && Available(Candidate(seed, a), reserved, bind)
    && forall b: nat :: from <= b < a ==> !Available(Candidate(seed, b), reserved, bind)
  }

  /** Allocation takes the port of the first attempt whose port can be had, in the order of the 32-bit probe. */
  lemma {:induction false} FirstFitIsFirst(seed: Seed, from: nat, a: nat, reserved: set<int>, bind: Bindable)
    requires FirstToFit(seed, from, a, reserved, bind)
    ensures FirstFit(seed, from, reserved, bind) == Some(Candidate(seed, a))
    decreases SPAN - from
  {
    if from < a {
      FirstFitIsFirst(seed, from + 1, a, reserved, bind);
    }
  }

  /** The declared port: the health check's, else the target, else the service port, else the first one detected. */
  predicate Declares(s: Service, port: int) {
    || (port >= 1 && port == s.healthPort)
    || (s.healthPort <= 0 && port >= 1 && port == s.targetPort)
    || (s.healthPort <= 0 && s.targetPort <= 0 && port >= 1 && port == s.servicePort)
    || (s.healthPort <= 0 && s.targetPort <= 0 && s.servicePort <= 0
        && exists k :: 0 <= k < |s.detected| && DetectsFirst(s.detected, k) && s.detected[k] == port)
  }

  predicate DetectsFirst(ports: seq<int>, k: nat) {
    k < |ports| && ports[k] >= 1 && forall j :: 0 <= j < k ==> ports[j] <= 0
  }

  lemma {:induction false} FirstPositiveIsFirst(ports: seq<int>, k: nat)
    requires DetectsFirst(ports, k)
    ensures FirstPositive(ports) == ports[k]
  {
    if k > 0 {
      assert DetectsFirst(ports[1..], k - 1) by {
        assert forall j :: 0 <= j < |ports| - 1 ==> ports[1..][j] == ports[j + 1];
      }
      FirstPositiveIsFirst(ports[1..], k - 1);
    }
  }

  lemma {:induction false} FindsFirst(ports: seq<int>) returns (k: nat)
    requires FirstPositive(ports) > 0
    ensures DetectsFirst(ports, k) && ports[k] == FirstPositive(ports)
  {
    if ports[0] > 0 {
      k := 0;
    } else {
      var j := FindsFirst(ports[1..]);
      k := j + 1;
      assert forall i :: 1 <= i < k ==> ports[i] == ports[1..][i - 1];
    }
  }

  lemma DeclaredMeans(s: Service, port: int)
    requires port >= 1
    ensures DeclaredPort(s) == port <==> Declares(s, port)
  {
    if s.healthPort <= 0 && s.targetPort <= 0 && s.servicePort <= 0 {
      if FirstPositive(s.detected) == port {
        var k := FindsFirst(s.detected);
      }
      forall k: nat | DetectsFirst(s.detected, k) ensures FirstPositive(s.detected) == s.detected[k] {
        FirstPositiveIsFirst(s.detected, k);
      }
    }
  }

  predicate Claimed(done: seq<Service>, port: int) {
    exists k :: 0 <= k < |done| && !IsInternal(done[k].name) && done[k].runtimePort == port
  }

  /** The service declares this port, the host can bind it, nobody before has it, and it is not its own listener. */
  predicate MayKeep(s: Service, before: seq<Service>, bind: Bindable, port: int) {
    Declares(s, port) && port !in s.listeners && bind(port) && !Claimed(before, port)
  }

  lemma PortForMeans(s: Service, seed: Seed, before: seq<Service>, bind: Bindable, port: int)
    requires port >= 1
    ensures MayKeep(s, before, bind, port) ==> PortFor(s, seed, Reserved(before), bind) == Some(port)
    ensures (DeclaredPort(s) == port && !MayKeep(s, before, bind, port)) || DeclaredPort(s) <= 0 ==>
              PortFor(s, seed, Reserved(before), bind) == FirstFit(seed, 0, Reserved(before), bind)
  {
    DeclaredMeans(s, port);
    ReservedIsClaimed(before);
  }

  /** The port that a service was given, from its seed and the services before it. */
  lemma GivenAfter(services: seq<Service>, k: nat, seedOf: string -> Seed, bind: Bindable, done: seq<Service>)
    requires k < |services| == |done| && AssignUpTo(services, |services|, seedOf, bind) == Some(done)
    requires !IsInternal(services[k].name)
    ensures PortFor(services[k], seedOf(Trim(services[k].name)), Reserved(done[..k]), bind)
         == Some(done[k].runtimePort)
  {
    GivenInTurn(services, |services|, k, seedOf, bind);
    AssignedSoFar(services, |services|, k, seedOf, bind);
  }

  /**
   In every assignment a service keeps a port that it declares if nobody before has it, the host can bind it, and it
   is not one of its own listeners.
   */
  lemma DeclaredPortIsGiven(
    services: seq<Service>, k: nat, seedOf: string -> Seed, bind: Bindable, done: seq<Service>, port: int)
    requires k < |services| == |done| && AssignUpTo(services, |services|, seedOf, bind) == Some(done)
    requires !IsInternal(services[k].name) && port >= 1 && MayKeep(services[k], done[..k], bind, port)
    ensures done[k].runtimePort == port
  {
    GivenAfter(services, k, seedOf, bind, done);
    PortForMeans(services[k], seedOf(Trim(services[k].name)), done[..k], bind, port);
  }

  lemma ProbedIsGiven(s: Service, seed: Seed, before: seq<Service>, bind: Bindable, a: nat)
    requires forall port :: port >= 1 ==> !MayKeep(s, before, bind, port)
    requires FirstToFit(seed, 0, a, Reserved(before), bind)
    ensures PortFor(s, seed, Reserved(before), bind) == Some(Candidate(seed, a))
  {
    var port := if DeclaredPort(s) >= 1 then DeclaredPort(s) else 1;
    assert !MayKeep(s, before, bind, port);
    PortForMeans(s, seed, before, bind, port);
    FirstFitIsFirst(seed, 0, a, Reserved(before), bind);
  }

  /** Any other service gets the port of its first attempt whose port can be had and is not reserved before it. */
  lemma ElseTheFirstFitIsGiven(
    services: seq<Service>, k: nat, seedOf: string -> Seed, bind: Bindable, done: seq<Service>, a: nat)
    requires k < |services| == |done| && AssignUpTo(services, |services|, seedOf, bind) == Some(done)
    requires !IsInternal(services[k].name)
    requires forall port :: port >= 1 ==> !MayKeep(services[k], done[..k], bind, port)
    requires var reserved := set j | 0 <= j < k && !IsInternal(done[j].name) :: done[j].runtimePort;
             FirstToFit(seedOf(Trim(services[k].name)), 0, a, reserved, bind)
    ensures done[k].runtimePort == Candidate(seedOf(Trim(services[k].name)), a)
  {
    ReservedSoFar(done, k);
    GivenAfter(services, k, seedOf, bind, done);
    ProbedIsGiven(services[k], seedOf(Trim(services[k].name)), done[..k], bind, a);
  }

  /** The probe goes upwards from where the seed falls and wraps at the end of the range, and once at 2^32. */
  lemma ProbeGoesUpwards(seed: Seed, a: nat)
    requires a + 1 < SPAN
    ensures Candidate(seed, 0) == 20000 + seed % 25001
    ensures Candidate(seed, a + 1)
         == if seed + a + 1 == 0x1_0000_0000 || Candidate(seed, a) == 45000 then 20000 else Candidate(seed, a) + 1
  {
    if seed + a + 1 >= TWO_32 {
      AfterTheWrap(seed, a + 1);
      if seed + a >= TWO_32 {
        AfterTheWrap(seed, a);
      }
    } else {
      NextResidue(seed + a);
    }
  }

  lemma NextResidue(x: nat)
    ensures (x + 1) % SPAN == if x % SPAN == SPAN - 1 then 0 else x % SPAN + 1
  {
  }

  lemma ReservedSoFar(done: seq<Service>, k: nat)
    requires k <= |done|
    ensures Reserved(done[..k]) == set j | 0 <= j < k && !IsInternal(done[j].name) :: done[j].runtimePort
  {
  }

  lemma ReservedIsClaimed(done: seq<Service>)
    ensures forall port :: port in Reserved(done) <==> Claimed(done, port)
  {
  }

  lemma {:induction false} AssignedSoFar(
    services: seq<Service>, n: nat, k: nat, seedOf: string -> Seed, bind: Bindable)
    requires k <= n <= |services| && AssignUpTo(services, n, seedOf, bind).Some?
    ensures AssignUpTo(services, k, seedOf, bind) == Some(AssignUpTo(services, n, seedOf, bind).value[..k])
  {
    var done := AssignUpTo(services, n, seedOf, bind).value;
    if k < n {
      AssignedSoFar(services, n - 1, k, seedOf, bind);
      assert done[..n - 1] == AssignUpTo(services, n - 1, seedOf, bind).value;
      assert done[..k] == done[..n - 1][..k];
    } else {
      assert done[..k] == done;
    }
  }

  /** Internal are the services whose trimmed name, whatever its case, starts with the reserved prefix. */
  lemma InternalExactlyWhen(name: string)
    ensures var t, prefix := Trim(name), "lazyops-internal-";
            IsInternal(name) <==>
              |t| >= |prefix| && forall k :: 0 <= k < |prefix| ==>
                t[k] == prefix[k] || ('A' <= t[k] <= 'Z' && t[k] as int + 32 == prefix[k] as int)
  {
    var t, prefix := Trim(name), "lazyops-internal-";
    var lower := Lower(t);
    assert prefix <= "lazyops-internal-service";
    if prefix <= lower {
      assert forall k :: 0 <= k < |prefix| ==> lower[k] == prefix[k];
    }
    if |t| >= |prefix| && forall k :: 0 <= k < |prefix| ==>
      t[k] == prefix[k] || ('A' <= t[k] <= 'Z' && t[k] as int + 32 == prefix[k] as int) {
      assert forall k :: 0 <= k < |prefix| ==> !('A' <= prefix[k] <= 'Z');
      assert forall k :: 0 <= k < |prefix| ==> lower[k] == prefix[k];
      assert lower[..|prefix|] == prefix;
    }
  }
}
