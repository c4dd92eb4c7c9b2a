/**
 * The progress events of a run. A successful run over N scenes emits
 * `analyzing`, then `generating_assets` and `generating_video` for each scene
 * in order, then `completed`; a failed run emits a prefix of that log and
 * stops inside the scene that failed.
 */
module OrchestratorEvents {
  import opened Orchestrator

  /** The two events of each of `count` fully processed scenes, from 0-based scene `first` on. */
  function SceneEvents(first: nat, count: nat, total: nat): (r: seq<Progress>)
    ensures |r| == 2 * count
  {
    seq(2 * count, p requires 0 <= p < 2 * count => if p % 2 == 0 then AssetsEvent(first + p / 2 + 1, total)
                        else VideoEvent(first + p / 2 + 1, total))
  }

  /** The events of the scene at which a run stops: the assets event, then the video event if the assets arrived. */
  function StopEvents(o: Oracle, k: nat, total: nat): seq<Progress> {
    if k >= total then []
    else if AssetsOk(o, k) then [AssetsEvent(k + 1, total), VideoEvent(k + 1, total)]
    else [AssetsEvent(k + 1, total)]
  }

  /** The complete event log of a successful run over `total` scenes. */
  function FullEvents(total: nat): seq<Progress> {
    [AnalyzingEvent] + SceneEvents(0, total, total) + [ReadyEvent(total)]
  }

  /** `currentScene` never decreases along the log and never exceeds `totalScenes`. */
  predicate ProgressMonotone(events: seq<Progress>) {
    && (forall p, q :: 0 <= p <= q < |events| ==> events[p].currentScene <= events[q].currentScene)
    && (forall q :: 0 <= q < |events| ==> 0 <= events[q].currentScene <= events[q].totalScenes)
  }

  lemma SceneEventsCons(first: nat, count: nat, total: nat)
    requires count > 0
    ensures SceneEvents(first, count, total)
         == [AssetsEvent(first + 1, total), VideoEvent(first + 1, total)] + SceneEvents(first + 1, count - 1, total)
  {
    var a := SceneEvents(first, count, total);
    var b := [AssetsEvent(first + 1, total), VideoEvent(first + 1, total)] + SceneEvents(first + 1, count - 1, total);
    forall p | 0 <= p < |a| ensures a[p] == b[p] {
      if p >= 2 {
        assert (p - 2) % 2 == p % 2 && (p - 2) / 2 + 1 == p / 2;
      }
    }
  }

  /** The scene events of a stretch of scenes split at any point. */
  lemma SceneEventsSplit(first: nat, a: nat, b: nat, total: nat)
    ensures SceneEvents(first, a + b, total) == SceneEvents(first, a, total) + SceneEvents(first + a, b, total)
  {
  }

  /** A completed scene's pair of events, then the later scenes' events, are the events from that scene on. */
  lemma PrependPair(before: seq<Progress>, i: nat, k: nat, n: nat, stop: seq<Progress>)
    requires i < k
    ensures (before + [AssetsEvent(i + 1, n), VideoEvent(i + 1, n)]) + SceneEvents(i + 1, k - (i + 1), n) + stop
         == before + SceneEvents(i, k - i, n) + stop
  {
    var pair := [AssetsEvent(i + 1, n), VideoEvent(i + 1, n)];
    var rest := SceneEvents(i + 1, k - (i + 1), n);
    SceneEventsCons(i, k - i, n);
    assert (before + pair) + rest + stop == before + (pair + rest) + stop;
  }

  /** The events of the iteration at which the loop stops. */
  lemma StoppingIterationEvents(job: Job, i: nat, t: Trace)
    requires i < job.SceneCount() && !SceneOk(job.oracle, i)
    ensures ProcessScenes(job, i, t).0.events
         == t.events + SceneEvents(i, 0, job.SceneCount()) + StopEvents(job.oracle, i, job.SceneCount())
  {
    assert SceneEvents(i, 0, job.SceneCount()) == [];
    assert IterationEvents(job, i) == StopEvents(job.oracle, i, job.SceneCount());
  }

  /** The events the scene loop from index `i` appends to those of `t`. */
  predicate LoopEventsAppended(job: Job, i: nat, t: Trace)
    requires i <= job.SceneCount()
  {
    var n := job.SceneCount();
    var k := FirstFailure(job.oracle, i, n);
    ProcessScenes(job, i, t).0.events == t.events + SceneEvents(i, k - i, n) + StopEvents(job.oracle, k, n)
  }

  lemma CompletedIterationEvents(job: Job, i: nat, t: Trace)
    requires i < job.SceneCount() && SceneOk(job.oracle, i)
    requires LoopEventsAppended(job, i + 1, SceneStep(job, i, t))
    ensures LoopEventsAppended(job, i, t)
  {
    var n := job.SceneCount();
    var k := FirstFailure(job.oracle, i, n);
    CompletedIteration(job, i, t);
    PrependPair(t.events, i, k, n, StopEvents(job.oracle, k, n));
  }

  /** The scene loop from index `i` appends the completed scenes' events and those of the scene where it stops. */
  lemma {:induction false} ProcessScenesEvents(job: Job, i: nat, t: Trace)
    requires i <= job.SceneCount()
    ensures LoopEventsAppended(job, i, t)
    decreases job.SceneCount() - i
  {
    var n := job.SceneCount();
    if i == n {
      assert SceneEvents(i, 0, n) == [];
    } else if SceneOk(job.oracle, i) {
      ProcessScenesEvents(job, i + 1, SceneStep(job, i, t));
      CompletedIterationEvents(job, i, t);
    } else {
      StoppingIterationEvents(job, i, t);
    }
  }

  /**
   * The event log of a run whose analysis succeeded and whose first failing
   * scene is `k` (`k == n` when none fails): `analyzing`, two events per
   * scene before `k`, the events of scene `k`, and `completed` only when no
   * scene failed.
   */
  function EventLog(o: Oracle, k: nat, n: nat): seq<Progress> {
    [AnalyzingEvent] + SceneEvents(0, k, n) + StopEvents(o, k, n) + (if k == n then [ReadyEvent(n)] else [])
  }

  lemma RunEvents(request: Request, o: Oracle, ids: nat -> Id, s0: Store)
    requires o.analysis.Some?
    ensures var n := |o.analysis.value.scenes|;
            Run(request, o, ids, s0).events == EventLog(o, FirstFailure(o, 0, n), n)
  {
    var job := Job(request, o, ids, o.analysis.value);
    ProcessScenesEvents(job, 0, Prepared(job, s0));
  }

  /** The full log around 0-based scene `k`: what comes before it, its pair of events, what comes after. */
  lemma FullEventsAround(k: nat, n: nat)
    requires k < n
    ensures FullEvents(n)
         == ([AnalyzingEvent] + SceneEvents(0, k, n)) + [AssetsEvent(k + 1, n), VideoEvent(k + 1, n)]
            + (SceneEvents(k + 1, n - k - 1, n) + [ReadyEvent(n)])
  {
    SceneEventsSplit(0, k, n - k, n);
    SceneEventsCons(k, n - k, n);
  }

  /** A log that stops at scene `k` is a prefix of the full log, and is the full log exactly when `k == n`. */
  lemma EventLogIsPrefix(o: Oracle, k: nat, n: nat)
    requires k <= n
    ensures EventLog(o, k, n) <= FullEvents(n)
    ensures EventLog(o, k, n) == FullEvents(n) <==> k == n
    ensures k < n ==> |EventLog(o, k, n)| == 2 * k + (if AssetsOk(o, k) then 3 else 2)
  {
    if k == n {
      assert StopEvents(o, k, n) == [];
    } else {
      FullEventsAround(k, n);
      var pre := [AnalyzingEvent] + SceneEvents(0, k, n);
      var pair := [AssetsEvent(k + 1, n), VideoEvent(k + 1, n)];
      var stop := StopEvents(o, k, n);
      assert EventLog(o, k, n) == pre + stop;
      PrefixOfPair(pre, stop, pair, SceneEvents(k + 1, n - k - 1, n) + [ReadyEvent(n)]);
    }
  }

  /** Cutting a log inside a pair leaves a proper prefix. */
  lemma PrefixOfPair(pre: seq<Progress>, stop: seq<Progress>, pair: seq<Progress>, post: seq<Progress>)
    requires stop <= pair && |post| > 0
    ensures pre + stop <= pre + pair + post
    ensures |pre + stop| < |pre + pair + post|
  {
  }

  /** Positions of the full log: first `analyzing` at 0/0, then the scene pairs, last `completed` at N/N. */
  lemma FullEventsShape(n: nat)
    ensures |FullEvents(n)| == 2 * n + 2
    ensures FullEvents(n)[0] == AnalyzingEvent
    ensures FullEvents(n)[2 * n + 1] == ReadyEvent(n)
    ensures FullEvents(n)[0].status.Name() == "analyzing" && FullEvents(n)[2 * n + 1].status.Name() == "completed"
    ensures forall p :: 1 <= p <= 2 * n ==>
              && FullEvents(n)[p].status == (if p % 2 == 1 then GeneratingAssets else GeneratingVideo)
              && FullEvents(n)[p].status.Name() == (if p % 2 == 1 then "generating_assets" else "generating_video")
              && FullEvents(n)[p].currentScene == (p + 1) / 2
              && FullEvents(n)[p].totalScenes == n
  {
    var f := FullEvents(n);
    forall p | 1 <= p <= 2 * n
      ensures f[p] == SceneEvents(0, n, n)[p - 1]
    {
    }
  }

  lemma FullEventsMonotone(n: nat)
    ensures ProgressMonotone(FullEvents(n))
  {
    FullEventsShape(n);
    var f := FullEvents(n);
    forall p, q | 0 <= p <= q < |f| ensures f[p].currentScene <= f[q].currentScene {
      if 1 <= p && q <= 2 * n {
        assert (p + 1) / 2 <= (q + 1) / 2;
      }
    }
  }

  /** A prefix of a monotone log is monotone. */
  lemma MonotonePrefix(events: seq<Progress>, prefix: seq<Progress>)
    requires ProgressMonotone(events) && prefix <= events
    ensures ProgressMonotone(prefix)
  {
    forall p, q | 0 <= p <= q < |prefix|
      ensures prefix[p].currentScene <= prefix[q].currentScene
    {
      assert prefix[p] == events[p] && prefix[q] == events[q];
    }
    forall q | 0 <= q < |prefix|
      ensures 0 <= prefix[q].currentScene <= prefix[q].totalScenes
    {
      assert prefix[q] == events[q];
    }
  }

  /**
   * Whatever the services answer, the run emits a prefix of the full log of
   * its scene count; it emits the whole log exactly when it succeeds, and a
   * failure at 0-based scene k leaves 2k + 2 events (image or voiceover
   * failed) or 2k + 3 (video failed).
   */
  lemma RunEventsArePrefix(request: Request, o: Oracle, ids: nat -> Id, s0: Store)
    requires o.analysis.Some?
    ensures var n := |o.analysis.value.scenes|;
            var r := Run(request, o, ids, s0);
            && r.events <= FullEvents(n)
            && (r.outcome.Succeeded? <==> r.events == FullEvents(n))
    ensures var n := |o.analysis.value.scenes|;
            var k := FirstFailure(o, 0, n);
            var r := Run(request, o, ids, s0);
            r.outcome.Failed? ==> |r.events| == 2 * k + (if AssetsOk(o, k) then 3 else 2)
  {
    var n := |o.analysis.value.scenes|;
    RunEvents(request, o, ids, s0);
    EventLogIsPrefix(o, FirstFailure(o, 0, n), n);
  }

  /** On every run the scene counter of the events only moves forward and stays within the total. */
  lemma RunEventsMonotone(request: Request, o: Oracle, ids: nat -> Id, s0: Store)
    ensures ProgressMonotone(Run(request, o, ids, s0).events)
  {
    var r := Run(request, o, ids, s0);
    match o.analysis
    case None =>
    case Some(a) =>
      RunEventsArePrefix(request, o, ids, s0);
      FullEventsMonotone(|a.scenes|);
      MonotonePrefix(FullEvents(|a.scenes|), r.events);
  }
}
