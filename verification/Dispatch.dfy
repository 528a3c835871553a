/**
 * All the ways in which the program calls a provider: through the executor, as src/proxy/pipeline.rs does
 * for a buffered request, and straight, as it does for a streamed one and as src/server/passthrough.rs and
 * src/server/multimodal.rs do. A straight call neither reads nor writes the health registry.
 */
module Dispatch {
  import opened Base
  import opened Health
  import opened Fallback
  import opened Pipeline

  datatype Dispatch = Buffered(job: Job) | Straight(provider: string, at: nat)

  ghost predicate AllServed(ds: seq<Dispatch>) {
    forall i :: 0 <= i < |ds| && ds[i].Buffered? ==> Served(ds[i].job.plan, ds[i].job.ws)
  }

  /** What a dispatch adds to the history, given the registry it finds. */
  ghost function Adds(d: Dispatch, t: Table): seq<Event>
    requires d.Buffered? ==> Served(d.job.plan, d.job.ws)
  {
    match d
    case Buffered(Job(plan, b, ws)) => LogUpTo(plan, b, t, ws, Visited(plan, b, t, ws))
    case Straight(p, at) => [Called(p, at)]
  }

  ghost function DispatchLog(ds: seq<Dispatch>): seq<Event>
    requires AllServed(ds)
  {
    if ds == [] then []
    else
      var before := DispatchLog(ds[..|ds| - 1]);
      before + Adds(ds[|ds| - 1], Replay(before))
  }

  lemma {:induction false} HonouredPrefix(log: seq<Event>, more: seq<Event>)
    requires Honoured(log + more)
    ensures Honoured(log)
    decreases |more|
  {
    if more == [] {
      assert log + more == log;
    } else {
      assert (log + more)[..|log + more| - 1] == log + more[..|more| - 1];
      HonouredPrefix(log, more[..|more| - 1]);
    }
  }

  lemma BufferedHonours(log: seq<Event>, job: Job)
    requires Served(job.plan, job.ws)
    ensures Honoured(log + Adds(Buffered(job), Replay(log))) <==> Honoured(log)
  {
    if Honoured(log) {
      ServedIsFaithful(job.plan, job.ws);
      var n := WalkHonours(job.breaker, log, job.plan, job.ws, Visited(job.plan, job.breaker, Replay(log), job.ws));
    }
    if Honoured(log + Adds(Buffered(job), Replay(log))) {
      HonouredPrefix(log, Adds(Buffered(job), Replay(log)));
    }
  }

  lemma AllowedExactly(log: seq<Event>, provider: string, at: nat)
    ensures CallAllowed(log, provider, at) <==> !InCooldown(Replay(log), provider, at)
  {
    StateIsHistory(log, provider);
  }

  lemma StraightHonours(log: seq<Event>, provider: string, at: nat)
    ensures Honoured(log + [Called(provider, at)]) <==> Honoured(log) && !InCooldown(Replay(log), provider, at)
  {
    AllowedExactly(log, provider, at);
    assert (log + [Called(provider, at)])[..|log|] == log;
  }

  /** The straight call at i finds its provider out of cooldown. */
  ghost predicate InTime(ds: seq<Dispatch>, i: nat)
    requires AllServed(ds) && i < |ds|
  {
    ds[i].Straight? ==> !InCooldown(Replay(DispatchLog(ds[..i])), ds[i].provider, ds[i].at)
  }

  ghost predicate AllInTime(ds: seq<Dispatch>)
    requires AllServed(ds)
  {
    forall i :: 0 <= i < |ds| ==> InTime(ds, i)
  }

  lemma InTimeBefore(ds: seq<Dispatch>, i: nat)
    requires AllServed(ds) && i < |ds| - 1
    ensures InTime(ds[..|ds| - 1], i) == InTime(ds, i)
  {
    assert ds[..|ds| - 1][..i] == ds[..i];
  }

  lemma AllInTimeDown(ds: seq<Dispatch>)
    requires AllServed(ds) && ds != [] && AllInTime(ds)
    ensures AllInTime(ds[..|ds| - 1]) && InTime(ds, |ds| - 1)
  {
    forall i {:trigger InTime(ds[..|ds| - 1], i)} | 0 <= i < |ds| - 1
      ensures InTime(ds[..|ds| - 1], i)
    {
      InTimeBefore(ds, i);
    }
  }

  lemma AllInTimeUp(ds: seq<Dispatch>)
    requires AllServed(ds) && ds != [] && AllInTime(ds[..|ds| - 1]) && InTime(ds, |ds| - 1)
    ensures AllInTime(ds)
  {
    forall i | 0 <= i < |ds|
      ensures InTime(ds, i)
    {
      if i < |ds| - 1 { InTimeBefore(ds, i); }
    }
  }

  lemma {:induction false} KeptTogether(ds: seq<Dispatch>) returns (kept: bool)
    requires AllServed(ds)
    ensures kept == Honoured(DispatchLog(ds))
    ensures kept == AllInTime(ds)
    decreases |ds|
  {
    if ds == [] {
      kept := true;
    } else {
      kept := KeptTogether(ds[..|ds| - 1]);
      LastKept(ds);
      kept := kept && InTime(ds, |ds| - 1);
      if kept { AllInTimeUp(ds); }
      if AllInTime(ds) { AllInTimeDown(ds); }
    }
  }

  /**
   * Over any sequence of dispatches no call is made to a provider in cooldown if and only if every straight
   * call happens to be made out of it: the executor never breaks a breaker, and nothing else keeps one.
   */
  lemma BreakersKept(ds: seq<Dispatch>)
    requires AllServed(ds)
    ensures Honoured(DispatchLog(ds)) <==> AllInTime(ds)
  {
    var _ := KeptTogether(ds);
  }

  lemma LastKept(ds: seq<Dispatch>)
    requires AllServed(ds) && ds != []
    ensures Honoured(DispatchLog(ds)) <==> Honoured(DispatchLog(ds[..|ds| - 1])) && InTime(ds, |ds| - 1)
  {
    var before, d := DispatchLog(ds[..|ds| - 1]), ds[|ds| - 1];
    match d
    case Buffered(job) => BufferedHonours(before, job);
    case Straight(p, at) => StraightHonours(before, p, at);
  }

  // ----- the two kinds do not meet -----

  ghost function JobsOf(ds: seq<Dispatch>): (jobs: seq<Job>)
    requires AllServed(ds)
    ensures AllScripted(jobs)
  {
    if ds == [] then []
    else
      var before, d := JobsOf(ds[..|ds| - 1]), ds[|ds| - 1];
      if d.Buffered? then before + [d.job] else before
  }

  lemma CallChangesNothing(log: seq<Event>, provider: string, at: nat)
    ensures Replay(log + [Called(provider, at)]) == Replay(log)
  {
    ApplyAllSnoc(map[], log, Called(provider, at));
  }

  lemma RunSnoc(jobs: seq<Job>, job: Job)
    requires AllScripted(jobs) && Scripted(job.plan, job.ws)
    ensures AllScripted(jobs + [job])
    ensures
      var t := Replay(RunLog(jobs));
      RunLog(jobs + [job])
      == RunLog(jobs) + LogUpTo(job.plan, job.breaker, t, job.ws, Visited(job.plan, job.breaker, t, job.ws))
  {
    assert (jobs + [job])[..|jobs|] == jobs;
  }

  /**
   * Straight calls leave the registry to the executor: it is that of the buffered requests alone, so a
   * provider that only ever fails streamed requests is never found down.
   */
  lemma {:induction false} StraightLeavesNoTrace(ds: seq<Dispatch>)
    requires AllServed(ds)
    ensures Replay(DispatchLog(ds)) == Replay(RunLog(JobsOf(ds)))
    decreases |ds|
  {
    if ds != [] {
      var n := |ds| - 1;
      StraightLeavesNoTrace(ds[..n]);
      var before, jobs := DispatchLog(ds[..n]), JobsOf(ds[..n]);
      match ds[n] {
        case Buffered(job) =>
          RunSnoc(jobs, job);
          ApplyAllAppend(map[], before, Adds(ds[n], Replay(before)));
          ApplyAllAppend(map[], RunLog(jobs), Adds(ds[n], Replay(before)));
        case Straight(p, at) =>
          CallChangesNothing(before, p, at);
      }
    }
  }

  // ----- a streamed request to a provider that is down -----

  const ONE_MINUTE := Breaker(1, 60)

  function Only(c: string): Plan {
    Plan(c + "/" + "m", [], 1, 0)
  }

  lemma OneTimeOutLog(c: string)
    requires '/' !in c
    ensures Served(Only(c), [TimesOut(c)])
    ensures Adds(Buffered(Job(Only(c), ONE_MINUTE, [TimesOut(c)])), map[]) == CalledInVain(c, ONE_MINUTE)
  {
    var plan, ws, t: Table := Only(c), [TimesOut(c)], map[];
    SplitOf(c, "m");
    assert Chain(plan)[0] == (c, "m");
    assert Resolve(map[c := "m"], c) == ws[0].handle;
    assert ServedTurn(Chain(plan)[0].0, ws[0]);
    MovesOn(plan, t, Chain(plan)[0], c, ONE_MINUTE);
    assert VerdictAt(plan, ONE_MINUTE, t, ws, 0) == Moves;
    assert Visited(plan, ONE_MINUTE, t, ws) == 1;
    assert LogUpTo(plan, ONE_MINUTE, t, ws, 1) == [] + CalledInVain(c, ONE_MINUTE) == CalledInVain(c, ONE_MINUTE);
  }

  lemma CoolsAfterOne(c: string)
    ensures InCooldown(Replay(CalledInVain(c, ONE_MINUTE)), c, 1)
  {
    var log := CalledInVain(c, ONE_MINUTE);
    assert [Called(c, 0)] + [Failed(c, 0, ONE_MINUTE)] == log;
    ApplyAllSnoc(map[], [], Called(c, 0));
    ApplyAllSnoc(map[], [Called(c, 0)], Failed(c, 0, ONE_MINUTE));
  }

  /** One buffered request that times out under a threshold of one, and a streamed one a millisecond later. */
  lemma StreamedWhileDown(c: string)
    requires '/' !in c
    ensures
      var ds := [Buffered(Job(Only(c), ONE_MINUTE, [TimesOut(c)])), Straight(c, 1)];
      AllServed(ds) && !Honoured(DispatchLog(ds))
  {
    var ds := [Buffered(Job(Only(c), ONE_MINUTE, [TimesOut(c)])), Straight(c, 1)];
    OneTimeOutLog(c);
    CoolsAfterOne(c);
    assert ds[..1] == [ds[0]] && ds[..1][..0] == [];
    assert DispatchLog(ds[..1][..0]) == [];
    assert DispatchLog(ds[..1]) == [] + CalledInVain(c, ONE_MINUTE) == CalledInVain(c, ONE_MINUTE);
    StraightHonours(CalledInVain(c, ONE_MINUTE), c, 1);
    LastKept(ds);
  }
}
