/**
 * The service requests of a run. A successful run over N scenes makes one
 * analysis call and then, scene by scene, an image call, a voiceover call
 * and a video call that animates the image just obtained: 3N + 1 calls.
 * Every voiceover is requested in English, whatever the caller chose.
 */
module OrchestratorCalls {
  import opened Options
  import opened StoryTypes
  import opened Assets
  import opened Orchestrator

  /** The calls of `count` consecutive scene iterations from 0-based scene `first`. */
  function ScenesCalls(job: Job, first: nat, count: nat): (r: seq<ServiceCall>)
    requires first + count <= job.SceneCount()
    decreases count
  {
    if count == 0 then [] else IterationCalls(job, first) + ScenesCalls(job, first + 1, count - 1)
  }

  /** The calls of the iteration at which a run stops, if one does. */
  function StopCalls(job: Job, k: nat): seq<ServiceCall> {
    if k < job.SceneCount() then IterationCalls(job, k) else []
  }

  /** The calls the scene loop from index `i` appends to those of `t`. */
  predicate LoopCallsAppended(job: Job, i: nat, t: Trace)
    requires i <= job.SceneCount()
  {
    var k := FirstFailure(job.oracle, i, job.SceneCount());
    ProcessScenes(job, i, t).0.calls == t.calls + ScenesCalls(job, i, k - i) + StopCalls(job, k)
  }

  /** A completed scene's calls, then the later scenes' calls, are the calls from that scene on. */
  lemma PrependIteration(job: Job, before: seq<ServiceCall>, i: nat, k: nat, stop: seq<ServiceCall>)
    requires i < k <= job.SceneCount()
    ensures (before + IterationCalls(job, i)) + ScenesCalls(job, i + 1, k - (i + 1)) + stop
         == before + ScenesCalls(job, i, k - i) + stop
  {
    var mine := IterationCalls(job, i);
    var rest := ScenesCalls(job, i + 1, k - (i + 1));
    assert ScenesCalls(job, i, k - i) == mine + rest;
    assert (before + mine) + rest + stop == before + (mine + rest) + stop;
  }

  lemma CompletedIterationCalls(job: Job, i: nat, t: Trace)
    requires i < job.SceneCount() && SceneOk(job.oracle, i)
    requires LoopCallsAppended(job, i + 1, SceneStep(job, i, t))
    ensures LoopCallsAppended(job, i, t)
  {
    var k := FirstFailure(job.oracle, i, job.SceneCount());
    CompletedIteration(job, i, t);
    PrependIteration(job, t.calls, i, k, StopCalls(job, k));
  }

  /** The scene loop from index `i` appends the completed scenes' calls and those of the scene where it stops. */
  lemma {:induction false} ProcessScenesCalls(job: Job, i: nat, t: Trace)
    requires i <= job.SceneCount()
    ensures LoopCallsAppended(job, i, t)
    decreases job.SceneCount() - i
  {
    if i == job.SceneCount() {
    } else if SceneOk(job.oracle, i) {
      ProcessScenesCalls(job, i + 1, SceneStep(job, i, t));
      CompletedIterationCalls(job, i, t);
    } else {
      assert ScenesCalls(job, i, 0) == [];
    }
  }

  /** The calls of a run whose analysis succeeded, in terms of the scene where it stops. */
  lemma RunCalls(request: Request, o: Oracle, ids: nat -> Id, s0: Store)
    requires o.analysis.Some?
    ensures var job := Job(request, o, ids, o.analysis.value);
            var k := FirstFailure(o, 0, job.SceneCount());
            Run(request, o, ids, s0).calls
              == [AnalyzeCall(request.story, request.style)] + ScenesCalls(job, 0, k) + StopCalls(job, k)
  {
    var job := Job(request, o, ids, o.analysis.value);
    ProcessScenesCalls(job, 0, Prepared(job, s0));
  }

  /**
   * From position `offset` on, `s` holds the calls of the `count` completed
   * scenes from 0-based scene `first`, three per scene: the image call (the
   * scene's definition, all characters, the style), the voiceover call (its
   * narration, in English) and the video call (its image, its visual prompt).
   */
  predicate CallsLaidOut(job: Job, s: seq<ServiceCall>, offset: nat, first: nat, count: nat)
    requires first + count <= job.SceneCount()
  {
    && |s| == offset + 3 * count
    && forall j :: 0 <= j < count ==> SceneCallsAt(job, s, offset + 3 * j, first + j)
  }

  /** `s` holds scene `i`'s image, voiceover and video calls from position `p` on. */
  predicate SceneCallsAt(job: Job, s: seq<ServiceCall>, p: nat, i: nat)
    requires i < job.SceneCount()
  {
    var scene := job.analysis.scenes[i];
    && SceneOk(job.oracle, i)
    && p + 3 <= |s|
    && s[p] == ImageCall(scene, job.analysis.characters, job.request.style)
    && s[p + 1] == VoiceoverCall(scene.content, VoiceoverLanguage)
    && s[p + 2] == VideoCall(job.oracle.image(i).url, scene.visualPrompt)
  }

  /** A completed scene's three calls in front of the later scenes' calls. */
  lemma CallsLaidOutCons(job: Job, first: nat, count: nat, rest: seq<ServiceCall>)
    requires first < first + count <= job.SceneCount() && SceneOk(job.oracle, first)
    requires CallsLaidOut(job, rest, 0, first + 1, count - 1)
    ensures CallsLaidOut(job, IterationCalls(job, first) + rest, 0, first, count)
  {
    var mine := IterationCalls(job, first);
    var r := mine + rest;
    assert |mine| == 3;
    forall j | 0 <= j < count
      ensures SceneCallsAt(job, r, 0 + 3 * j, first + j)
    {
      if j == 0 {
        assert r[0] == mine[0] && r[1] == mine[1] && r[2] == mine[2];
      } else {
        assert SceneCallsAt(job, rest, 0 + 3 * (j - 1), first + 1 + (j - 1));
        assert r[3 * j] == rest[3 * (j - 1)];
        assert r[3 * j + 1] == rest[3 * (j - 1) + 1];
        assert r[3 * j + 2] == rest[3 * (j - 1) + 2];
      }
    }
  }

  /** The calls of completed scenes, three per scene in scene order. */
  lemma {:induction false} ScenesCallsShape(job: Job, first: nat, count: nat)
    requires first + count <= job.SceneCount()
    requires forall j :: first <= j < first + count ==> SceneOk(job.oracle, j)
    ensures CallsLaidOut(job, ScenesCalls(job, first, count), 0, first, count)
    decreases count
  {
    if count > 0 {
      ScenesCallsShape(job, first + 1, count - 1);
      assert SceneOk(job.oracle, first);
      CallsLaidOutCons(job, first, count, ScenesCalls(job, first + 1, count - 1));
    }
  }

  /**
   * A successful run over N scenes makes 3N + 1 calls: the analysis of the
   * story in its style, then for each scene in order its image, voiceover
   * and video calls.
   */
  lemma SucceededRunCalls(request: Request, o: Oracle, ids: nat -> Id, s0: Store)
    requires o.analysis.Some?
    requires Run(request, o, ids, s0).outcome.Succeeded?
    ensures var job := Job(request, o, ids, o.analysis.value);
            var r := Run(request, o, ids, s0).calls;
            && |r| == 3 * job.SceneCount() + 1
            && r[0] == AnalyzeCall(request.story, request.style)
            && forall j :: 0 <= j < job.SceneCount() ==>
                 var scene := job.analysis.scenes[j];
                 && SceneOk(job.oracle, j)
                 && r[3 * j + 1] == ImageCall(scene, job.analysis.characters, job.request.style)
                 && r[3 * j + 2] == VoiceoverCall(scene.content, VoiceoverLanguage)
                 && r[3 * j + 3] == VideoCall(job.oracle.image(j).url, scene.visualPrompt)
  {
    var job := Job(request, o, ids, o.analysis.value);
    var n := job.SceneCount();
    var r := Run(request, o, ids, s0).calls;
    assert FirstFailure(o, 0, n) == n;
    RunCalls(request, o, ids, s0);
    assert StopCalls(job, n) == [];
    assert r == [AnalyzeCall(request.story, request.style)] + ScenesCalls(job, 0, n);
    ScenesCallsShape(job, 0, n);
    PrependAnalysis(job, ScenesCalls(job, 0, n));
  }

  /** Putting the analysis call in front shifts each scene's three calls by one position. */
  lemma PrependAnalysis(job: Job, s: seq<ServiceCall>)
    requires CallsLaidOut(job, s, 0, 0, job.SceneCount())
    ensures CallsLaidOut(job, [AnalyzeCall(job.request.story, job.request.style)] + s, 1, 0, job.SceneCount())
  {
    var r := [AnalyzeCall(job.request.story, job.request.style)] + s;
    forall j | 0 <= j < job.SceneCount()
      ensures SceneCallsAt(job, r, 1 + 3 * j, 0 + j)
    {
      assert SceneCallsAt(job, s, 0 + 3 * j, 0 + j);
      assert r[1 + 3 * j] == s[3 * j] && r[1 + 3 * j + 1] == s[3 * j + 1] && r[1 + 3 * j + 2] == s[3 * j + 2];
    }
  }

  /** Every call the loop makes passes the analysed characters and the request's style, and English for voiceovers. */
  predicate CallConforms(job: Job, c: ServiceCall) {
    match c
    case AnalyzeCall(story, style) => story == job.request.story && style == job.request.style
    case ImageCall(_, characters, style) => characters == job.analysis.characters && style == job.request.style
    case VoiceoverCall(_, language) => language == VoiceoverLanguage
    case VideoCall(_, _) => true
  }

  predicate CallsConform(job: Job, calls: seq<ServiceCall>) {
    forall p :: 0 <= p < |calls| ==> CallConforms(job, calls[p])
  }

  lemma StepConforms(job: Job, i: nat, t: Trace)
    requires i < job.SceneCount()
    requires CallsConform(job, t.calls)
    ensures CallsConform(job, SceneStep(job, i, t).calls)
  {
    assert CallsConform(job, IterationCalls(job, i));
  }

  lemma CompletedIterationConforms(job: Job, i: nat, t: Trace)
    requires i < job.SceneCount() && SceneOk(job.oracle, i)
    requires CallsConform(job, ProcessScenes(job, i + 1, SceneStep(job, i, t)).0.calls)
    ensures CallsConform(job, ProcessScenes(job, i, t).0.calls)
  {
    CompletedIteration(job, i, t);
  }

  lemma StoppingIterationConforms(job: Job, i: nat, t: Trace)
    requires i < job.SceneCount() && !SceneOk(job.oracle, i)
    requires CallsConform(job, t.calls)
    ensures CallsConform(job, ProcessScenes(job, i, t).0.calls)
  {
    StepConforms(job, i, t);
  }

  lemma {:induction false} ProcessScenesConform(job: Job, i: nat, t: Trace)
    requires i <= job.SceneCount()
    requires CallsConform(job, t.calls)
    ensures CallsConform(job, ProcessScenes(job, i, t).0.calls)
    decreases job.SceneCount() - i
  {
    if i == job.SceneCount() {
    } else if SceneOk(job.oracle, i) {
      StepConforms(job, i, t);
      ProcessScenesConform(job, i + 1, SceneStep(job, i, t));
      CompletedIterationConforms(job, i, t);
    } else {
      StoppingIterationConforms(job, i, t);
    }
  }

  /**
   * On every run, each voiceover is requested in English whatever the
   * caller's setting, and so is sent as the narration with the fixed voice
   * and speed; each image request carries all analysed characters and the
   * request's style.
   */
  lemma RunVoiceoversInEnglish(request: Request, o: Oracle, ids: nat -> Id, s0: Store)
    ensures var r := Run(request, o, ids, s0).calls;
            forall p :: 0 <= p < |r| && r[p].VoiceoverCall? ==>
              && r[p].language == "English"
              && r[p].Wire() == Some(SpeechWire(SpeechRequest(r[p].text, Voice, SpeechSpeedPercent)))
    ensures var r := Run(request, o, ids, s0).calls;
            forall p :: 0 <= p < |r| && r[p].ImageCall? ==>
              o.analysis.Some? && r[p].characters == o.analysis.value.characters && r[p].style == request.style
  {
    var r := Run(request, o, ids, s0).calls;
    match o.analysis
    case None =>
    case Some(a) =>
      var job := Job(request, o, ids, a);
      ProcessScenesConform(job, 0, Prepared(job, s0));
      assert CallsConform(job, r);
  }
}
