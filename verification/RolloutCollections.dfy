/** What garbage collection leaves to a rollout in progress, field by field of the cache, and over whole runs. */
module RolloutCollections {
  import opened Text
  import opened Candidate
  import opened Rollout
  import opened RolloutRuns

  /**
   Every root that the command names, or the cache as current, stable, previous stable, pending, candidate or
   draining revision, is there unchanged after any collection; every other one is there exactly if it was not
   removed, and a finished collection leaves none of them.
   */
  lemma CollectionLeavesExactlyTheNamed(
    s: State, r: RevisionId, removed: set<RevisionId>, stuck: Option<Stuck>, id: RevisionId)
    requires Trim(r) != "" && id in s.roots
    ensures var named := Trim(id) != "" && (id == r || id == s.cache.current || id == s.cache.stable
                           || id == s.cache.previousStable || id == s.cache.pending || id == s.cache.candidate
                           || id == s.cache.draining);
            var reply := Step(s, Collect(r, removed, stuck));
            && (id in reply.state.roots <==> named || id !in removed)
            && (named ==> reply.state.roots[id] == s.roots[id])
            && (reply.outcome == Done ==> (id in reply.state.roots <==> named))
  {
  }

  lemma {:induction false} RunRootsAreNamed(cmds: seq<Command>)
    ensures forall id :: id in Run(cmds).roots ==> Trim(id) != ""
  {
    if cmds != [] {
      RunRootsAreNamed(cmds[..|cmds| - 1]);
      RootsStayNamed(Run(cmds[..|cmds| - 1]), cmds[|cmds| - 1]);
    }
  }

  lemma RootsStayNamed(s: State, c: Command)
    requires forall id :: id in s.roots ==> Trim(id) != ""
    ensures forall id :: id in Step(s, c).state.roots ==> Trim(id) != ""
  {
  }

  /** In every run, the roots after a finished collection are exactly those, with nothing in them touched. */
  lemma RunCollects(cmds: seq<Command>, r: RevisionId, removed: set<RevisionId>, stuck: Option<Stuck>)
    requires Step(Run(cmds), Collect(r, removed, stuck)).outcome == Done
    ensures var s := Run(cmds);
            Step(s, Collect(r, removed, stuck)).state.roots ==
            map id | id in s.roots
                     && (id == r || id == s.cache.current || id == s.cache.stable || id == s.cache.previousStable
                         || id == s.cache.pending || id == s.cache.candidate || id == s.cache.draining)
                   :: s.roots[id]
  {
    var s := Run(cmds);
    RunRootsAreNamed(cmds);
    forall id | id in s.roots {
      CollectionLeavesExactlyTheNamed(s, r, removed, stuck, id);
    }
  }

  // ---------------------------------------------------------------- what the cache names over a run

  predicate Shifts(c: Command) {
    c.Promote? || c.Rollback?
  }

  /** The commands that name the pending revision and, if asked, only those that name the candidate too. */
  predicate Names(c: Command, candidate: bool) {
    c.Start? || c.RunGate? || (!candidate && (c.Prepare? || c.RenderConfig?))
  }

  /** Command j was accepted, and sets the field anew. */
  predicate Sets(cmds: seq<Command>, j: nat, candidate: bool) {
    j < |cmds| && (Names(cmds[j], candidate) || Shifts(cmds[j])) && Accepted(cmds, j)
  }

  predicate NoneSetsAfter(cmds: seq<Command>, i: nat, candidate: bool) {
    forall j :: i < j < |cmds| ==> !Sets(cmds, j, candidate)
  }

  /** Command i was accepted and names r, and no later one was accepted that names another or shifts traffic. */
  predicate NamedLast(cmds: seq<Command>, i: nat, r: RevisionId, candidate: bool) {
    && Sets(cmds, i, candidate) && Names(cmds[i], candidate) && cmds[i].revision == r
    && NoneSetsAfter(cmds, i, candidate)
  }

  function Field(s: State, candidate: bool): RevisionId {
    if candidate then s.cache.candidate else s.cache.pending
  }

  lemma FieldAfter(s: State, c: Command, candidate: bool)
    ensures var reply := Step(s, c);
            Field(reply.state, candidate) ==
            if reply.outcome == Done && Names(c, candidate) then c.revision
            else if reply.outcome == Done && Shifts(c) then "" else Field(s, candidate)
  {
  }

  lemma SetsInPrefix(cmds: seq<Command>, n: nat, j: nat, candidate: bool)
    requires j < n <= |cmds|
    ensures Sets(cmds[..n], j, candidate) <==> Sets(cmds, j, candidate)
  {
    PrefixOfPrefix(cmds, j, n);
  }

  lemma NoneSetsInPrefix(cmds: seq<Command>, n: nat, i: nat, candidate: bool)
    requires i < n && |cmds| == n + 1 && !Sets(cmds, n, candidate)
    ensures NoneSetsAfter(cmds[..n], i, candidate) <==> NoneSetsAfter(cmds, i, candidate)
  {
    forall j | i < j < n ensures Sets(cmds[..n], j, candidate) <==> Sets(cmds, j, candidate) {
      SetsInPrefix(cmds, n, j, candidate);
    }
  }

  lemma NamedLastInPrefix(cmds: seq<Command>, n: nat, i: nat, r: RevisionId, candidate: bool)
    requires i < n && |cmds| == n + 1 && !Sets(cmds, n, candidate)
    ensures NamedLast(cmds[..n], i, r, candidate) <==> NamedLast(cmds, i, r, candidate)
  {
    SetsInPrefix(cmds, n, i, candidate);
    NoneSetsInPrefix(cmds, n, i, candidate);
  }

  ghost predicate SomeNamedLast(cmds: seq<Command>, r: RevisionId, candidate: bool) {
    exists i :: NamedLast(cmds, i, r, candidate)
  }

  lemma NamedNow(cmds: seq<Command>, n: nat, r: RevisionId, candidate: bool)
    requires |cmds| == n + 1 && Sets(cmds, n, candidate)
    ensures SomeNamedLast(cmds, r, candidate) <==> Names(cmds[n], candidate) && cmds[n].revision == r
  {
    if Names(cmds[n], candidate) && cmds[n].revision == r {
      assert NamedLast(cmds, n, r, candidate);
    }
    forall i: nat | NamedLast(cmds, i, r, candidate) ensures i == n {
      assert NoneSetsAfter(cmds, i, candidate);
    }
  }

  lemma NamedBefore(cmds: seq<Command>, n: nat, r: RevisionId, candidate: bool)
    requires |cmds| == n + 1 && !Sets(cmds, n, candidate)
    ensures SomeNamedLast(cmds, r, candidate) <==> SomeNamedLast(cmds[..n], r, candidate)
  {
    forall i: nat | i < n
      ensures NamedLast(cmds[..n], i, r, candidate) <==> NamedLast(cmds, i, r, candidate)
    {
      NamedLastInPrefix(cmds, n, i, r, candidate);
    }
  }

  /** Each of the two fields names r exactly if some command named it last. */
  lemma {:induction false} FieldIsNamedLast(cmds: seq<Command>, r: RevisionId, candidate: bool)
    requires r != ""
    ensures Field(Run(cmds), candidate) == r <==> SomeNamedLast(cmds, r, candidate)
  {
    if cmds != [] {
      var n := |cmds| - 1;
      FieldIsNamedLast(cmds[..n], r, candidate);
      FieldAfter(Run(cmds[..n]), cmds[n], candidate);
      if Sets(cmds, n, candidate) {
        NamedNow(cmds, n, r, candidate);
      } else {
        NamedBefore(cmds, n, r, candidate);
      }
    }
  }

  /** The pending revision is the one last prepared, rendered, started or gated since traffic last shifted. */
  lemma PendingIsTheLastOpened(cmds: seq<Command>, r: RevisionId)
    requires r != ""
    ensures Run(cmds).cache.pending == r <==> exists i :: NamedLast(cmds, i, r, false)
  {
    FieldIsNamedLast(cmds, r, false);
  }

  /** The candidate is the one last started or gated since then. */
  lemma CandidateIsTheLastStarted(cmds: seq<Command>, r: RevisionId)
    requires r != ""
    ensures Run(cmds).cache.candidate == r <==> exists i :: NamedLast(cmds, i, r, true)
  {
    FieldIsNamedLast(cmds, r, true);
  }

  /** The cache has a candidate state exactly with a candidate, and it is the one in the record, if that is there. */
  predicate CandidateStateAgrees(s: State) {
    && (s.cache.candidate == "" <==> s.cache.candidateState.None?)
    && (HasRecord(s, s.cache.candidate) && s.cache.candidate != "" ==>
          s.cache.candidateState == Some(s.roots[s.cache.candidate].record.value.state))
  }

  lemma CandidateStateStays(s: State, c: Command)
    requires CandidateStateAgrees(s)
    ensures CandidateStateAgrees(Step(s, c).state)
  {
    assert Trim("") == "";
  }

  lemma {:induction false} RunCandidateStateAgrees(cmds: seq<Command>)
    ensures CandidateStateAgrees(Run(cmds))
  {
    if cmds != [] {
      RunCandidateStateAgrees(cmds[..|cmds| - 1]);
      CandidateStateStays(Run(cmds[..|cmds| - 1]), cmds[|cmds| - 1]);
    }
  }

  // ---------------------------------------------------------------- a gated candidate waits for its promotion

  /** r is the candidate and the record in its root says that it may be promoted. */
  predicate AwaitsPromotion(s: State, r: RevisionId) {
    s.cache.candidate == r && HasRecord(s, r) && ReadyToPromote(s.roots[r].record.value)
  }

  /**
   The command leaves candidate r alone: it is any collection, rendering or other preparation, it was refused, or it
   is a start or a passing gate of r itself.
   */
  predicate LeavesAlone(s: State, c: Command, r: RevisionId) {
    match c
    case Collect(_, _, _) => true
    case RenderConfig(_) => true
    case Prepare(x, fate) => x != r || !fate.FailedLate?
    case Start(x, _) => x == r || Step(s, c).outcome != Done
    case RunGate(x, verdicts, _) => (x == r && AllPassed(verdicts)) || Step(s, c).outcome != Done
    case Promote(_, _, _) => Step(s, c).outcome != Done
    case Rollback(_, _, _) => Step(s, c).outcome != Done
  }

  lemma GateMakesItWait(s: State, c: Command)
    requires c.RunGate? && AllPassed(c.verdicts) && Step(s, c).outcome == Done
    ensures AwaitsPromotion(Step(s, c).state, c.revision)
  {
    var record := s.roots[c.revision].record.value;
    WalkEndsAt(record, GatePath(record.state, true).value);
  }

  lemma KeepsWaiting(s: State, c: Command, r: RevisionId)
    requires AwaitsPromotion(s, r) && Trim(r) != "" && LeavesAlone(s, c, r)
    ensures AwaitsPromotion(Step(s, c).state, r)
  {
    if c.RunGate? && Step(s, c).outcome == Done {
      GateMakesItWait(s, c);
    } else if c.Collect? && Trim(c.revision) != "" {
      CollectionLeavesExactlyTheNamed(s, c.revision, c.removed, c.stuck, r);
    }
  }

  lemma {:induction false} KeepsWaitingUntil(cmds: seq<Command>, from: nat, r: RevisionId)
    requires from <= |cmds| && AwaitsPromotion(Run(cmds[..from]), r) && Trim(r) != ""
    requires forall j :: from <= j < |cmds| ==> LeavesAlone(Run(cmds[..j]), cmds[j], r)
    ensures AwaitsPromotion(Run(cmds), r)
    decreases |cmds| - from
  {
    assert cmds[..|cmds|] == cmds;
    if from < |cmds| {
      assert cmds[..from + 1][..from] == cmds[..from];
      KeepsWaiting(Run(cmds[..from]), cmds[from], r);
      KeepsWaitingUntil(cmds, from + 1, r);
    }
  }

  lemma WaitsSinceItsGate(cmds: seq<Command>, i: nat, r: RevisionId)
    requires PassesGate(cmds, i, r)
    requires forall j :: i < j < |cmds| ==> LeavesAlone(Run(cmds[..j]), cmds[j], r)
    ensures AwaitsPromotion(Run(cmds), r) && Trim(r) != ""
  {
    assert cmds[..i + 1][..i] == cmds[..i];
    GateMakesItWait(Run(cmds[..i]), cmds[i]);
    KeepsWaitingUntil(cmds, i + 1, r);
  }

  lemma WaitingIsPromoted(s: State, r: RevisionId, keep: RevisionId, removed: set<RevisionId>, stuck: Option<Stuck>)
    requires AwaitsPromotion(s, r) && Trim(r) != ""
    ensures Step(s, Promote(r, true, true)).outcome == Done
    ensures Step(Step(s, Collect(keep, removed, stuck)).state, Promote(r, true, true)).outcome == Done
  {
    KeepsWaiting(s, Collect(keep, removed, stuck), r);
  }

  /**
   A candidate that passed its gate can be promoted after any collections, renderings and preparations that follow,
   whatever was removed and wherever a collection got stuck, as long as nothing started, promoted or rolled back
   another revision.
   */
  lemma GatedCandidateSurvivesCollections(
    cmds: seq<Command>, i: nat, r: RevisionId, keep: RevisionId, removed: set<RevisionId>, stuck: Option<Stuck>)
    requires PassesGate(cmds, i, r)
    requires forall j :: i < j < |cmds| ==> LeavesAlone(Run(cmds[..j]), cmds[j], r)
    ensures Step(Run(cmds), Promote(r, true, true)).outcome == Done
    ensures Step(Step(Run(cmds), Collect(keep, removed, stuck)).state, Promote(r, true, true)).outcome == Done
  {
    WaitsSinceItsGate(cmds, i, r);
    WaitingIsPromoted(Run(cmds), r, keep, removed, stuck);
  }

  /**
   The last condition is needed: once another revision has been started, a finished collection that names neither
   leaves the gated one promotable exactly if it is live, stable or draining or the one a rollback returns to.
   */
  lemma SupersededCandidateIsCollectedUnless(s: State, r: RevisionId, other: RevisionId, keep: RevisionId)
    requires AwaitsPromotion(s, r) && Trim(r) != "" && Trim(keep) != "" && r !in {other, keep}
    requires Step(s, Start(other, true)).outcome == Done
    ensures var started := Step(s, Start(other, true)).state;
            var collected := Step(started, Collect(keep, started.roots.Keys, None)).state;
            (Step(collected, Promote(r, true, true)).outcome == Done <==>
              r in {s.cache.current, s.cache.stable, s.cache.previousStable, s.cache.draining})
  {
    var started := Step(s, Start(other, true)).state;
    CollectionLeavesExactlyTheNamed(started, keep, started.roots.Keys, None, r);
  }
}
