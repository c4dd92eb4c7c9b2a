# Cinematic studio generation pipeline in Dafny

This project models the story-to-video generation core of the cinematic studio web app:

- **The pipeline.** `orchestrateVideoGeneration` first analyses a story. It then stores a project and one record per analysed character. Scene by scene, it requests an image and a voiceover, stores the scene, animates the image into a video and completes the scene. Finally it marks the project completed. It reports progress events along the way.
- **The requests.** These are the ones the three asset generators send to the hosted AI service.
- **The editor.** The editor page's guard in front of generation, and its preview cursor: the index of the scene shown in the player.

The pipeline is a pure function `Orchestrator.Run(request, oracle, ids, store)`.

- **The oracle** stands for the hosted services. It holds the analysis answer, which is absent when the analysis call fails. For each 0-based scene index it also holds the answers of the image, voiceover and video calls, each `Ok(url)` or `Fail`.
- **Identifiers** come from an injected supply `ids`, in the order the pipeline draws them:
  - `ids(0)` is the project;
  - `ids(1 + j)` is the j-th character;
  - `ids(1 + C + i)` is the i-th scene, where C is the number of characters.
- **The record store** is three maps keyed by id: projects, characters and scenes.
- **A run returns** the final store, the progress events emitted, the service calls made, and the outcome. The outcome is `Succeeded(projectId)` or `Failed`.
- **On failure,** the run stops at the first failing call. It keeps everything written so far, as the app does.

Modules:

- `Options`, `Text`: an option type; the string operations the TypeScript code relies on:
  - JavaScript `join`;
  - template concatenation;
  - `trim`;
  - decimal rendering of scene numbers.
- `StoryTypes`: `SceneDefinition`, `CharacterDefinition`, `StoryAnalysis`.
- `Assets`: image prompt and request, speech request, image-to-video request.
- `Orchestrator`: records, progress events, the oracle, the scene loop and `Run`.
- `OrchestratorEvents`, `OrchestratorStore`, `OrchestratorCalls`: what a run emits, writes and requests.
- `Scenario`: a worked run with three scenes and two characters.
- `Editor`: `handleGenerate` and the scene cursor.

## Model

| member | source | states |
|---|---|---|
| Assets.CharacterContext | bheem-ai-cinematic-studio-main/src/features/generator/asset-generator.ts:10-12 | the context is empty exactly when there are no characters; every character's `name: physicalTraits` clause occurs in it, and the first clause starts it |
| Assets.CharacterContextSnoc | bheem-ai-cinematic-studio-main/src/features/generator/asset-generator.ts:10-12 | one character gives its clause alone; each further character appends `". "` and its clause, in input order |
| Assets.ImagePrompt | bheem-ai-cinematic-studio-main/src/features/generator/asset-generator.ts:14 | the prompt starts with `Cinematic `, ends with the quality suffix, and contains the style, visual prompt, character context, lighting and camera angle verbatim |
| Assets.ImagePromptIsTemplate | bheem-ai-cinematic-studio-main/src/features/generator/asset-generator.ts:14 | the prompt is exactly the template: fixed connective text and the six inserted values, in order, with nothing else |
| Assets.ImagePromptIgnoresNarrative | bheem-ai-cinematic-studio-main/src/features/generator/asset-generator.ts:14 | scenes agreeing on visual prompt, lighting and camera angle give the same prompt, whatever their number, content or emotion |
| Assets.ImageRequestFor | bheem-ai-cinematic-studio-main/src/features/generator/asset-generator.ts:16-19 | the image request has the fixed size `1536x1024` and its prompt is exactly the full image prompt, which carries the scene's visual prompt and the style |
| Assets.FirstImage | bheem-ai-cinematic-studio-main/src/features/generator/asset-generator.ts:21 | the result is the first returned image, and is present exactly when the list is non-empty |
| Assets.SpeechRequestFor | bheem-ai-cinematic-studio-main/src/features/generator/asset-generator.ts:24-31 | the speech request carries the text unchanged, the voice `nova` and the fixed 0.9 rate |
| Assets.SpeechRequestIgnoresLanguage | bheem-ai-cinematic-studio-main/src/features/generator/asset-generator.ts:24-31 | the speech request is the same for every language argument |
| Assets.VideoPrompt | bheem-ai-cinematic-studio-main/src/features/generator/asset-generator.ts:40 | the video prompt is the motion prefix, then the prompt unchanged, then the motion suffix |
| Assets.VideoPromptRoundTrip | bheem-ai-cinematic-studio-main/src/features/generator/asset-generator.ts:40 | unwrapping a wrapped video prompt gives back the scene's visual prompt |
| Assets.UnwrapVideoPromptSound | bheem-ai-cinematic-studio-main/src/features/generator/asset-generator.ts:40 | any string that unwraps to a prompt is that prompt's wrapping, so the wrapping is injective |
| Assets.VideoRequestFor | bheem-ai-cinematic-studio-main/src/features/generator/asset-generator.ts:36-44 | the video request uses the fixed model and `5s` duration, passes the image URL unchanged, and its prompt unwraps to the given prompt |
| Text.DecimalStringRoundTrip | bheem-ai-cinematic-studio-main/src/features/generator/video-orchestrator.ts:55 | the scene number rendered into a progress message parses back to the same number |
| Text.DecimalStringInjective | bheem-ai-cinematic-studio-main/src/features/generator/video-orchestrator.ts:80 | different numbers render to different digit strings |
| Orchestrator.MessageRenderedInjective | bheem-ai-cinematic-studio-main/src/features/generator/video-orchestrator.ts:51-81 | different scene numbers give different "generating visuals" messages and different "animating" messages |
| Orchestrator.FirstFailure | bheem-ai-cinematic-studio-main/src/features/generator/video-orchestrator.ts:47-99 | the loop stops at the first scene whose image, voiceover or video call fails: every earlier scene succeeded, and the stopping scene did not |
| Orchestrator.CreateCharacters | bheem-ai-cinematic-studio-main/src/features/generator/video-orchestrator.ts:36-44 | the character loop adds exactly the drawn ids as keys; every added record points at the project |
| Orchestrator.IterationStore | bheem-ai-cinematic-studio-main/src/features/generator/video-orchestrator.ts:64-98 | one scene iteration leaves characters and the set of projects alone, and keeps each scene record `completed` exactly when it has a video URL |
| Orchestrator.ProcessScenes | bheem-ai-cinematic-studio-main/src/features/generator/video-orchestrator.ts:47-99 | the scene loop only appends events and calls, keeps the completed/video coupling, and runs to the end exactly when no scene fails |
| Orchestrator.Run | bheem-ai-cinematic-studio-main/src/features/generator/video-orchestrator.ts:13-110 | the first event is `analyzing` and the first call analyses the story; a failed analysis leaves the store untouched with only that event and call; the run succeeds exactly when no scene fails, and then returns `ids(0)` with that project completed; the completed/video coupling is preserved |
| OrchestratorEvents.RunEvents | bheem-ai-cinematic-studio-main/src/features/generator/video-orchestrator.ts:21-107 | the event log is: `analyzing`, two events per scene before the first failure, that scene's events up to its failure, and `completed` only when nothing failed |
| OrchestratorEvents.EventLogIsPrefix | bheem-ai-cinematic-studio-main/src/features/generator/video-orchestrator.ts:51-81 | a log stopping at scene k is a prefix of the full log, equals it exactly when k is the scene count, and otherwise has 2k+2 or 2k+3 events |
| OrchestratorEvents.FullEventsShape | bheem-ai-cinematic-studio-main/src/features/generator/video-orchestrator.ts:21-107 | the full log over N scenes has 2N+2 events: `analyzing` at 0/0, then `generating_assets` and `generating_video` alternating, event p carrying scene (p+1)/2 of N, then `completed` at N/N; the status strings are `analyzing`, `generating_assets`, `generating_video` and `completed` |
| OrchestratorEvents.FullEventsMonotone | bheem-ai-cinematic-studio-main/src/features/generator/video-orchestrator.ts:51-81 | in the full log, `currentScene` never decreases and never exceeds `totalScenes` |
| OrchestratorEvents.RunEventsArePrefix | bheem-ai-cinematic-studio-main/src/features/generator/video-orchestrator.ts:21-107 | a run's log is a prefix of the full log; it is the whole log exactly when the run succeeds; a failure at scene k leaves 2k+2 or 2k+3 events |
| OrchestratorEvents.RunEventsMonotone | bheem-ai-cinematic-studio-main/src/features/generator/video-orchestrator.ts:21-107 | on every run, `currentScene` never decreases and stays within `0..totalScenes` |
| OrchestratorStore.IdsFromCount | bheem-ai-cinematic-studio-main/src/features/generator/video-orchestrator.ts:39 | count draws from a supply of distinct ids give exactly count different ids |
| OrchestratorStore.CreateCharactersContent | bheem-ai-cinematic-studio-main/src/features/generator/video-orchestrator.ts:37-44 | character j is stored under the j-th drawn id with its name and description copied and the project id |
| OrchestratorStore.CreateCharactersKeeps | bheem-ai-cinematic-studio-main/src/features/generator/video-orchestrator.ts:37-44 | character creation leaves every record whose id it does not draw unchanged |
| OrchestratorStore.SceneAfterRun | bheem-ai-cinematic-studio-main/src/features/generator/video-orchestrator.ts:64-90 | a scene's final record is `completed` (stored as `"completed"`) exactly when its video call answered, and then carries that call's video URL; apart from video URL and status it is the record first written |
| OrchestratorStore.IterationWrites | bheem-ai-cinematic-studio-main/src/features/generator/video-orchestrator.ts:64-98 | an iteration writes the scene record exactly when image and voiceover arrived, and sets the thumbnail only for scene 0, only once it is animated |
| OrchestratorStore.RunCharacters | bheem-ai-cinematic-studio-main/src/features/generator/video-orchestrator.ts:36-44 | whatever the scenes do: one new record per analysed character, under the ids drawn after the project's, with name and description copied and the project id; other records kept |
| OrchestratorStore.RunProject | bheem-ai-cinematic-studio-main/src/features/generator/video-orchestrator.ts:26-105 | the one project record written holds the request's user, story and style and the analysis title; it is `completed` exactly when no scene failed, and has a thumbnail, the first scene's image URL, exactly when the first scene was animated; other projects unchanged |
| OrchestratorStore.RunScenes | bheem-ai-cinematic-studio-main/src/features/generator/video-orchestrator.ts:46-99 | after a run stopping at scene k: scenes before k are `completed` with their video; scene k is `processing` without video if only its video call failed, and has no record if its image or voiceover call failed; no other ids are added and old records are kept |
| OrchestratorStore.SucceededRunScenes | bheem-ai-cinematic-studio-main/src/features/generator/video-orchestrator.ts:47-90 | a successful run over N scenes adds exactly N scene records, numbered 1..N in analysis order, each `completed` with its video, its scene's content and visual prompt, and the returned project id |
| OrchestratorCalls.RunCalls | bheem-ai-cinematic-studio-main/src/features/generator/video-orchestrator.ts:23-84 | the calls are: the analysis, the three calls of each scene before the first failure, then the failing scene's calls up to its failure |
| OrchestratorCalls.SucceededRunCalls | bheem-ai-cinematic-studio-main/src/features/generator/video-orchestrator.ts:47-84 | a successful run over N scenes makes exactly 3N+1 calls: the analysis, then per scene its image, its voiceover in `English`, and the video that animates that scene's own image |
| OrchestratorCalls.RunVoiceoversInEnglish | bheem-ai-cinematic-studio-main/src/features/generator/video-orchestrator.ts:59-62 | on every run, every voiceover call uses the language `English` and sends the same speech request, and every image call uses the analysis characters and the requested style |
| Scenario.ThreeScenesEvents | bheem-ai-cinematic-studio-main/src/features/generator/video-orchestrator.ts:21-109 | with 3 scenes, 2 characters and every call answered, the run returns its project id and emits 8 events, the last `completed` at 3/3 |
| Scenario.ThreeScenesProject | bheem-ai-cinematic-studio-main/src/features/generator/video-orchestrator.ts:26-105 | the same run adds one project, completed, whose thumbnail is the first scene's image |
| Scenario.ThreeScenesRecords | bheem-ai-cinematic-studio-main/src/features/generator/video-orchestrator.ts:36-74 | the same run adds two character records and three scene records |
| Text.TrimEmptyIffBlank | bheem-ai-cinematic-studio-main/src/pages/ProjectEditor.tsx:64 | a string trims to empty exactly when all its characters are JavaScript whitespace |
| Editor.HandleGenerate | bheem-ai-cinematic-studio-main/src/pages/ProjectEditor.tsx:63-74 | a story that trims to empty is refused; otherwise no user means nothing happens; otherwise a run starts with the user's id, the untrimmed story and the style, and not the language |
| Editor.GenerateIgnoresLanguage | bheem-ai-cinematic-studio-main/src/pages/ProjectEditor.tsx:63-74 | pressing Generate does the same for every selected language |
| Editor.GeneratedRunIgnoresLanguage | bheem-ai-cinematic-studio-main/src/pages/ProjectEditor.tsx:69-74 | the run started is the same for every selected language |
| Editor.PreviousScene | bheem-ai-cinematic-studio-main/src/pages/ProjectEditor.tsx:226-227 | "previous" never goes below 0, moves back one from a positive index, and stays at 0 |
| Editor.NextScene | bheem-ai-cinematic-studio-main/src/pages/ProjectEditor.tsx:247-248 | "next" is disabled at `len - 1`, and otherwise sets the cursor to `min(len - 1, i + 1)`, for every integer cursor, -1 included; an in-range cursor stays in range |
| Editor.VideoEnded | bheem-ai-cinematic-studio-main/src/pages/ProjectEditor.tsx:200-213 | the end of a video advances the cursor exactly when a video is shown and it is not the last scene, and otherwise leaves it |
| Editor.SelectScene | bheem-ai-cinematic-studio-main/src/pages/ProjectEditor.tsx:290-293 | a click on sidebar entry `idx` moves the cursor to `idx` |
| Editor.StepKeepsCursorValid | bheem-ai-cinematic-studio-main/src/pages/ProjectEditor.tsx:200-293 | every control keeps the cursor on a scene, or in -1..0 when there are no scenes |
| Editor.CursorStaysValid | bheem-ai-cinematic-studio-main/src/pages/ProjectEditor.tsx:200-293 | any sequence of controls keeps the cursor valid |
| Editor.InitialCursorValid | bheem-ai-cinematic-studio-main/src/pages/ProjectEditor.tsx:39 | the opening cursor 0 is valid for every scene count |
| Editor.EmptyListNextReachesMinusOne | bheem-ai-cinematic-studio-main/src/pages/ProjectEditor.tsx:247-248 | with no scenes, "next" from 0 reaches -1 |
| Editor.CursorInvalidAfterLoad | bheem-ai-cinematic-studio-main/src/pages/ProjectEditor.tsx:247-248 | "next" pressed while the list is still empty leaves -1, which is not a valid cursor for any loaded list |
| Editor.LoadedCursorRecovers | bheem-ai-cinematic-studio-main/src/pages/ProjectEditor.tsx:200-293 | with scenes loaded, a -1 cursor goes to 0 on "previous" or "next" and to the clicked entry on a sidebar click; a video end cannot move it |
| Editor.AutoplayAdvances | bheem-ai-cinematic-studio-main/src/pages/ProjectEditor.tsx:208-211 | while every scene from the cursor on has a video, k video ends advance the cursor k scenes, stopping at the last |

The input records mirror bheem-ai-cinematic-studio-main/src/features/generator/story-analyzer.ts:3-24.

Two behaviours of the code to note:
- **Voiceover language.** The voiceover is always requested in English. The language the user selects on the editor page never reaches the pipeline, and the speech request ignores its own language argument. The model keeps the language as an inert parameter and proves it has no effect.
- **Scene numbers.** A stored scene is numbered from its position in the loop (`i + 1`). The analysis's own `sceneNumber` is not used.

## Left out

- **Database writes.** The `blink.db` create and update calls always succeed in the model. A persistence failure, which aborts the app's run, is not modelled.
- **`analyzeStory`.** It is one structured-generation call with an unchecked cast. It is the oracle's `analysis` answer, which is absent on failure. Its prompt and schema are not modelled.
- **Concurrency.** The image and voiceover calls run concurrently (`Promise.all`). They are two oracle answers that must both succeed. Their ordering and cancellation are not modelled.
- **`uuidv4`.** It is the injected supply `ids`. Distinctness, and freshness against the existing store, are hypotheses of the lemmas that need them.
- **Speech speed.** `Assets.SpeechRequestFor` keeps the floating-point rate 0.9 as the exact integer 90 percent.
- **Empty image list.** `Assets.FirstImage` models the `undefined` of an empty list as `None`. The orchestrator's oracle treats a whole image call as one answer, so that `undefined` URL never flows further in the model.
- **Video URL.** `return result.video.url` throws when `result` or `result.video` is missing, and that throw is folded into the video call's `Fail`. A `video` object without a `url` instead resolves to `undefined`, and the app would then store a completed scene without a video URL.
- **URLs in answers.** The oracle assumes every successful answer carries a URL. This also covers the speech answer's `const { url }`, which would yield `undefined`. The completed/video coupling the model proves holds under that assumption.
- **Progress callback.** The `onProgress` callback is replaced by the returned event log. Event messages are kept structured, and `Message.Rendered` gives the strings.
- **`created_at`.** The created timestamps set by the store are not modelled.
- **Editor page, rest.** These parts are not modelled:
  - the progress percentage and its `Math.round`;
  - rendering, toasts and navigation;
  - the play/pause button;
  - `fetchProjectData`.
- Editor.CursorStaysValid: the scene list is held fixed while the controls act. On the page the list starts empty and is replaced when the scenes load. A "next" pressed before the load leaves the cursor at -1, which is invalid for the loaded list (`Editor.CursorInvalidAfterLoad`). The cursor stays at -1, with no video shown, until a control is used. "Previous", "next" or a sidebar click then moves it back onto a scene (`Editor.LoadedCursorRecovers`).
- **`onEnded` closure.** The `onEnded` handler reads the cursor through a closure. It is modelled with the current cursor, so a stale closure is not represented.
- **Other pages.** Dashboard.tsx, App.tsx, Navbar.tsx and LandingPage.tsx are list, routing and layout code outside this model.
