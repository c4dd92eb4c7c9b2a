/**
 * The story-to-video pipeline of video-orchestrator.ts as a pure function.
 *
 * The hosted services are an oracle: the analysis answer, and for scene `i`
 * (counted from 0) the answers of the image, voiceover and video calls. The
 * identifier generator is an injected supply `ids`, drawn in the order the
 * pipeline draws them: `ids(0)` names the project, `ids(1 + j)` the j-th
 * character and `ids(1 + C + i)` the i-th scene, where C is the number of
 * characters. The record store is three maps keyed by id. A run returns the
 * final store, the progress events it emitted, the service requests it sent
 * and whether it produced a project id.
 */
module Orchestrator {
  import opened Options
  import opened Text
  import opened StoryTypes
  import opened Assets

  type Id = string

  // ---------------------------------------------------------------------------
  // Persisted records
  // ---------------------------------------------------------------------------

  datatype RecordStatus = Processing | Completed {
    /** The stored string. */
    function Name(): string {
      match this
      case Processing => "processing"
      case Completed => "completed"
    }
  }

  /** A project; `thumbnailUrl` is absent until the first scene is animated. */
  datatype ProjectRecord = ProjectRecord(
    id: Id,
    userId: Id,
    title: string,
    originalStory: string,
    style: string,
    status: RecordStatus,
    thumbnailUrl: Option<Url>)

  /** A character; the physical traits of the analysis are not stored. */
  datatype CharacterRecord = CharacterRecord(
    id: Id,
    projectId: Id,
    name: string,
    description: string)

  /** A scene; `videoUrl` is absent until the video stage succeeds. */
  datatype SceneRecord = SceneRecord(
    id: Id,
    projectId: Id,
    sceneNumber: int,
    content: string,
    visualPrompt: string,
    imageUrl: Url,
    voiceoverUrl: Url,
    videoUrl: Option<Url>,
    status: RecordStatus)

  datatype Store = Store(
    projects: map<Id, ProjectRecord>,
    characters: map<Id, CharacterRecord>,
    scenes: map<Id, SceneRecord>)

  /** A scene record is completed exactly when it carries a video URL. */
  predicate SceneCoherent(s: SceneRecord) {
    s.status == Completed <==> s.videoUrl.Some?
  }

  predicate StatusCoherent(store: Store) {
    forall id :: id in store.scenes ==> SceneCoherent(store.scenes[id])
  }

  // ---------------------------------------------------------------------------
  // Progress events
  // ---------------------------------------------------------------------------

  datatype Phase = Analyzing | GeneratingAssets | GeneratingVideo | Ready {
    /** The `status` string the observer receives. */
    function Name(): string {
      match this
      case Analyzing => "analyzing"
      case GeneratingAssets => "generating_assets"
      case GeneratingVideo => "generating_video"
      case Ready => "completed"
    }
  }

  /** The human-readable message of an event, kept structured; `Rendered` gives the string shown. */
  datatype Message = AnalyzingStory | GeneratingVisuals(scene: nat) | AnimatingScene(scene: nat) | VideoReady {
    function Rendered(): string {
      match this
      case AnalyzingStory => "Analyzing your story..."
      case GeneratingVisuals(n) => "Generating visuals and voiceover for Scene " + DecimalString(n) + "..."
      case AnimatingScene(n) => "Animating Scene " + DecimalString(n) + "..."
      case VideoReady => "Cinematic video ready!"
    }
  }

  /** Equal text around two different middles: the middles are equal. */
  lemma MiddleEqual(a: string, x: string, y: string, b: string)
    requires a + x + b == a + y + b
    ensures x == y
  {
    var s := a + x + b;
    assert |x| == |y|;
    assert s[|a|..|a| + |x|] == x;
    assert (a + y + b)[|a|..|a| + |y|] == y;
  }

  /** Different scene numbers give different "generating visuals" and "animating" messages. */
  lemma MessageRenderedInjective(m: nat, n: nat)
    ensures GeneratingVisuals(m).Rendered() == GeneratingVisuals(n).Rendered() ==> m == n
    ensures AnimatingScene(m).Rendered() == AnimatingScene(n).Rendered() ==> m == n
  {
    if GeneratingVisuals(m).Rendered() == GeneratingVisuals(n).Rendered() {
      MiddleEqual("Generating visuals and voiceover for Scene ", DecimalString(m), DecimalString(n), "...");
      DecimalStringInjective(m, n);
    }
    if AnimatingScene(m).Rendered() == AnimatingScene(n).Rendered() {
      MiddleEqual("Animating Scene ", DecimalString(m), DecimalString(n), "...");
      DecimalStringInjective(m, n);
    }
  }

  datatype Progress = Progress(status: Phase, currentScene: int, totalScenes: int, message: Message)

  const AnalyzingEvent: Progress := Progress(Analyzing, 0, 0, AnalyzingStory)

  /** Emitted before the image and voiceover of scene number `scene` (counted from 1) are requested. */
  function AssetsEvent(scene: nat, total: nat): Progress {
    Progress(GeneratingAssets, scene, total, GeneratingVisuals(scene))
  }

  /** Emitted after scene number `scene` is stored and before its video is requested. */
  function VideoEvent(scene: nat, total: nat): Progress {
    Progress(GeneratingVideo, scene, total, AnimatingScene(scene))
  }

  function ReadyEvent(total: nat): Progress {
    Progress(Ready, total, total, VideoReady)
  }

  // ---------------------------------------------------------------------------
  // The oracle and the run
  // ---------------------------------------------------------------------------

  /** One service answer: a URL, or a failure (error, timeout, rejected payload). */
  datatype Answer = Ok(url: Url) | Fail

  /**
   * What the hosted services answer during one run. `analysis` is `None`
   * when the analysis call fails; the other three are indexed by scene.
   */
  datatype Oracle = Oracle(
    analysis: Option<StoryAnalysis>,
    image: nat -> Answer,
    voiceover: nat -> Answer,
    video: nat -> Answer)

  /** The caller's arguments, without the progress callback (the event log replaces it). */
  datatype Request = Request(userId: Id, story: string, style: string)

  /**
   * A call the pipeline makes into the analyser or an asset generator, with
   * the arguments it passes. `Wire` gives the request the generator sends.
   */
  datatype ServiceCall =
    | AnalyzeCall(story: string, style: string)
    | ImageCall(scene: SceneDefinition, characters: seq<CharacterDefinition>, style: string)
    | VoiceoverCall(text: string, language: string)
    | VideoCall(imageUrl: Url, prompt: string)
  {
    /** The request sent to the hosted service, for the three asset generators. */
    function Wire(): Option<WireRequest> {
      match this
      case AnalyzeCall(_, _) => None
      case ImageCall(scene, characters, style) => Some(ImageWire(ImageRequestFor(scene, characters, style)))
      case VoiceoverCall(text, language) => Some(SpeechWire(SpeechRequestFor(text, language)))
      case VideoCall(imageUrl, prompt) => Some(VideoWire(VideoRequestFor(imageUrl, prompt)))
    }
  }

  datatype WireRequest = ImageWire(image: ImageRequest) | SpeechWire(speech: SpeechRequest) | VideoWire(video: VideoRequest)

  /** A resolved run yields the project id; a rejected one yields nothing. */
  datatype Outcome = Succeeded(projectId: Id) | Failed

  datatype Trace = Trace(store: Store, events: seq<Progress>, calls: seq<ServiceCall>)

  datatype RunResult = RunResult(store: Store, events: seq<Progress>, calls: seq<ServiceCall>, outcome: Outcome)

  /** The language the pipeline hands to the voiceover generator, whatever the user selected. */
  const VoiceoverLanguage: string := "English"

  /** Everything fixed once the analysis has succeeded. */
  datatype Job = Job(request: Request, oracle: Oracle, ids: nat -> Id, analysis: StoryAnalysis) {
    function ProjectId(): Id { ids(0) }
    function SceneCount(): nat { |analysis.scenes| }
    function CharacterId(j: nat): Id { ids(1 + j) }
    function SceneId(i: nat): Id { ids(1 + |analysis.characters| + i) }
  }

  predicate AssetsOk(o: Oracle, i: nat) {
    o.image(i).Ok? && o.voiceover(i).Ok?
  }

  predicate SceneOk(o: Oracle, i: nat) {
    AssetsOk(o, i) && o.video(i).Ok?
  }

  /** The first scene index in [i, n) whose service calls fail, or n when none does. */
  function FirstFailure(o: Oracle, i: nat, n: nat): (k: nat)
    requires i <= n
    ensures i <= k <= n
    ensures forall j :: i <= j < k ==> SceneOk(o, j)
    ensures k < n ==> !SceneOk(o, k)
    decreases n - i
  {
    if i == n then n else if !SceneOk(o, i) then i else FirstFailure(o, i + 1, n)
  }

  /** The scene record as first written: URLs of image and voiceover, no video, processing. */
  function PendingScene(job: Job, i: nat): SceneRecord
    requires i < job.SceneCount() && AssetsOk(job.oracle, i)
  {
    var scene := job.analysis.scenes[i];
    SceneRecord(job.SceneId(i), job.ProjectId(), i + 1, scene.content, scene.visualPrompt,
                job.oracle.image(i).url, job.oracle.voiceover(i).url, None, Processing)
  }

  /** The same record after the video stage. */
  function FinishedScene(job: Job, i: nat): SceneRecord
    requires i < job.SceneCount() && SceneOk(job.oracle, i)
  {
    PendingScene(job, i).(videoUrl := Some(job.oracle.video(i).url), status := Completed)
  }

  // ---------------------------------------------------------------------------
  // Record-store writes
  // ---------------------------------------------------------------------------

  /** The ids `ids(first)`, ..., `ids(first + count - 1)`. */
  function IdsFrom(ids: nat -> Id, first: nat, count: nat): set<Id> {
    set k: nat | first <= k < first + count :: ids(k)
  }

  /** One `characters.create` per analysed character, in order, with ids drawn from `first` on. */
  function CreateCharacters(m: map<Id, CharacterRecord>, projectId: Id, characters: seq<CharacterDefinition>,
                            ids: nat -> Id, first: nat): (r: map<Id, CharacterRecord>)
    ensures r.Keys == m.Keys + IdsFrom(ids, first, |characters|)
    ensures forall id :: id in r ==> (id in m && r[id] == m[id]) || r[id].projectId == projectId
    decreases |characters|
  {
    if |characters| == 0 then m
    else
      var c := characters[0];
      var m' := m[ids(first) := CharacterRecord(ids(first), projectId, c.name, c.description)];
      var r := CreateCharacters(m', projectId, characters[1..], ids, first + 1);
      assert IdsFrom(ids, first, |characters|) == {ids(first)} + IdsFrom(ids, first + 1, |characters| - 1);
      r
  }

  /** `scenes.update({video_url, status: 'completed'}, {id})`. */
  function UpdateSceneVideo(m: map<Id, SceneRecord>, id: Id, videoUrl: Url): map<Id, SceneRecord> {
    if id in m then m[id := m[id].(videoUrl := Some(videoUrl), status := Completed)] else m
  }

  /** `projects.update({thumbnail_url}, {id})`. */
  function SetThumbnail(m: map<Id, ProjectRecord>, id: Id, url: Url): map<Id, ProjectRecord> {
    if id in m then m[id := m[id].(thumbnailUrl := Some(url))] else m
  }

  /** `projects.update({status: 'completed'}, {id})`. */
  function CompleteProject(m: map<Id, ProjectRecord>, id: Id): map<Id, ProjectRecord> {
    if id in m then m[id := m[id].(status := Completed)] else m
  }

  // ---------------------------------------------------------------------------
  // The pipeline
  // ---------------------------------------------------------------------------

  /** The progress events of the iteration for scene `i`, up to where it stops. */
  function IterationEvents(job: Job, i: nat): seq<Progress> {
    var n := job.SceneCount();
    if AssetsOk(job.oracle, i) then [AssetsEvent(i + 1, n), VideoEvent(i + 1, n)]
    else [AssetsEvent(i + 1, n)]
  }

  /**
   * The service requests of the iteration for scene `i`. Image and
   * voiceover are requested together; the video request, made only when
   * both arrived, animates the image just obtained.
   */
  function IterationCalls(job: Job, i: nat): seq<ServiceCall>
    requires i < job.SceneCount()
  {
    var scene := job.analysis.scenes[i];
    var assets := [ImageCall(scene, job.analysis.characters, job.request.style),
                   VoiceoverCall(scene.content, VoiceoverLanguage)];
    if AssetsOk(job.oracle, i) then
      assets + [VideoCall(job.oracle.image(i).url, scene.visualPrompt)]
    else assets
  }

  /**
   * The record-store writes of the iteration for scene `i`: create the
   * scene once image and voiceover arrived, complete it once the video
   * arrived, and for the first scene set the project thumbnail.
   */
  function IterationStore(job: Job, i: nat, store: Store): (r: Store)
    requires i < job.SceneCount()
    ensures StatusCoherent(store) ==> StatusCoherent(r)
    ensures r.characters == store.characters
    ensures r.projects.Keys == store.projects.Keys
  {
    var o := job.oracle;
    if !AssetsOk(o, i) then store
    else
      var store1 := store.(scenes := store.scenes[job.SceneId(i) := PendingScene(job, i)]);
      if o.video(i).Fail? then store1
      else
        var store2 := store1.(scenes := UpdateSceneVideo(store1.scenes, job.SceneId(i), o.video(i).url));
        if i == 0 then store2.(projects := SetThumbnail(store2.projects, job.ProjectId(), o.image(i).url))
        else store2
  }

  /** One iteration of the scene loop, up to the await that fails if one does. */
  function SceneStep(job: Job, i: nat, t: Trace): Trace
    requires i < job.SceneCount()
  {
    Trace(IterationStore(job, i, t.store), t.events + IterationEvents(job, i), t.calls + IterationCalls(job, i))
  }

  /** The scene loop from index `i`; the flag says whether it ran to the end. */
  function ProcessScenes(job: Job, i: nat, t: Trace): (r: (Trace, bool))
    requires i <= job.SceneCount()
    ensures StatusCoherent(t.store) ==> StatusCoherent(r.0.store)
    ensures r.0.store.characters == t.store.characters
    ensures r.0.store.projects.Keys == t.store.projects.Keys
    ensures t.events <= r.0.events && t.calls <= r.0.calls
    ensures r.1 <==> FirstFailure(job.oracle, i, job.SceneCount()) == job.SceneCount()
    decreases job.SceneCount() - i
  {
    if i == job.SceneCount() then (t, true)
    else
      var t' := SceneStep(job, i, t);
      if SceneOk(job.oracle, i) then ProcessScenes(job, i + 1, t') else (t', false)
  }

  /** A completed iteration hands over to the next one, having appended its two events. */
  lemma CompletedIteration(job: Job, i: nat, t: Trace)
    requires i < job.SceneCount() && SceneOk(job.oracle, i)
    ensures ProcessScenes(job, i, t) == ProcessScenes(job, i + 1, SceneStep(job, i, t))
    ensures SceneStep(job, i, t).events
         == t.events + [AssetsEvent(i + 1, job.SceneCount()), VideoEvent(i + 1, job.SceneCount())]
    ensures FirstFailure(job.oracle, i, job.SceneCount()) == FirstFailure(job.oracle, i + 1, job.SceneCount())
  {
  }

  /** The project record as first written. */
  function NewProject(job: Job): ProjectRecord {
    ProjectRecord(job.ProjectId(), job.request.userId, job.analysis.title, job.request.story,
                  job.request.style, Processing, None)
  }

  /** The trace once the analysis has answered and the project and its characters are stored. */
  function Prepared(job: Job, s0: Store): Trace {
    var pid := job.ProjectId();
    var store1 := s0.(projects := s0.projects[pid := NewProject(job)]);
    var store2 := store1.(characters := CreateCharacters(store1.characters, pid, job.analysis.characters, job.ids, 1));
    Trace(store2, [AnalyzingEvent], [AnalyzeCall(job.request.story, job.request.style)])
  }

  /**
   * `orchestrateVideoGeneration`: analyse, store the project and its
   * characters, run the scene loop, then mark the project completed.
   */
  function Run(request: Request, o: Oracle, ids: nat -> Id, s0: Store): (r: RunResult)
    ensures |r.events| >= 1 && r.events[0] == AnalyzingEvent
    ensures |r.calls| >= 1 && r.calls[0] == AnalyzeCall(request.story, request.style)
    ensures o.analysis.None? ==> r == RunResult(s0, [AnalyzingEvent], [AnalyzeCall(request.story, request.style)], Failed)
    ensures o.analysis.Some? ==>
              (r.outcome.Succeeded? <==> FirstFailure(o, 0, |o.analysis.value.scenes|) == |o.analysis.value.scenes|)
    ensures r.outcome.Succeeded? ==> r.outcome.projectId == ids(0)
    ensures r.outcome.Succeeded? ==> ids(0) in r.store.projects && r.store.projects[ids(0)].status == Completed
    ensures StatusCoherent(s0) ==> StatusCoherent(r.store)
  {
    match o.analysis
    case None => RunResult(s0, [AnalyzingEvent], [AnalyzeCall(request.story, request.style)], Failed)
    case Some(a) =>
      var job := Job(request, o, ids, a);
      var (t, ok) := ProcessScenes(job, 0, Prepared(job, s0));
      if !ok then
        RunResult(t.store, t.events, t.calls, Failed)
      else
        var store := t.store.(projects := CompleteProject(t.store.projects, job.ProjectId()));
        RunResult(store, t.events + [ReadyEvent(job.SceneCount())], t.calls, Succeeded(job.ProjectId()))
  }
}
