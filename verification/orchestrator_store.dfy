/**
 * The records a run leaves in the store. With identifiers that are pairwise
 * distinct and unused in the initial store, a run that stops at 0-based
 * scene k (k == N when no scene fails) leaves:
 *  - the project, `completed` only when k == N, with a thumbnail exactly when
 *    the first scene was animated;
 *  - one record per analysed character;
 *  - a completed record for each scene before k, and for scene k a
 *    processing record without video when its video call failed, none when
 *    its image or voiceover call failed;
 *  - every record it found in the store, unchanged.
 */
module OrchestratorStore {
  import opened Options
  import opened StoryTypes
  import opened Orchestrator

  /** The identifier supply never repeats itself. */
  ghost predicate DistinctIds(ids: nat -> Id) {
    forall a: nat, b: nat :: a != b ==> ids(a) != ids(b)
  }

  /** No identifier of the supply is already a key of the store. */
  ghost predicate FreshIds(ids: nat -> Id, s0: Store) {
    forall k: nat :: ids(k) !in s0.projects && ids(k) !in s0.characters && ids(k) !in s0.scenes
  }

  lemma IdsFromCons(ids: nat -> Id, first: nat, count: nat)
    requires count > 0
    ensures IdsFrom(ids, first, count) == {ids(first)} + IdsFrom(ids, first + 1, count - 1)
  {
  }

  /** With a repetition-free supply, `ids(x)` is drawn in a range exactly when `x` lies in it. */
  lemma IdsFromMember(ids: nat -> Id, first: nat, count: nat, x: nat)
    requires DistinctIds(ids)
    ensures ids(x) in IdsFrom(ids, first, count) <==> first <= x < first + count
  {
    if ids(x) in IdsFrom(ids, first, count) {
      var y: nat :| first <= y < first + count && ids(y) == ids(x);
    }
  }

  /** With a repetition-free supply, `count` draws give `count` different ids. */
  lemma {:induction false} IdsFromCount(ids: nat -> Id, first: nat, count: nat)
    requires DistinctIds(ids)
    ensures |IdsFrom(ids, first, count)| == count
    decreases count
  {
    if count == 0 {
      assert IdsFrom(ids, first, count) == {};
    } else {
      IdsFromCons(ids, first, count);
      IdsFromCount(ids, first + 1, count - 1);
      IdsFromMember(ids, first + 1, count - 1, first);
    }
  }

  // ---------------------------------------------------------------------------
  // Characters
  // ---------------------------------------------------------------------------

  /** Character creation leaves every record whose id it does not draw. */
  lemma {:induction false} CreateCharactersKeeps(m: map<Id, CharacterRecord>, projectId: Id,
                                                 characters: seq<CharacterDefinition>, ids: nat -> Id, first: nat)
    ensures var r := CreateCharacters(m, projectId, characters, ids, first);
            forall id :: id in m && id !in IdsFrom(ids, first, |characters|) ==> r[id] == m[id]
    decreases |characters|
  {
    if |characters| > 0 {
      var c := characters[0];
      var m' := m[ids(first) := CharacterRecord(ids(first), projectId, c.name, c.description)];
      IdsFromCons(ids, first, |characters|);
      CreateCharactersKeeps(m', projectId, characters[1..], ids, first + 1);
    }
  }

  /** Character j is stored under the j-th drawn id, with its name and description and the project id. */
  lemma {:induction false} CreateCharactersContent(m: map<Id, CharacterRecord>, projectId: Id,
                                                   characters: seq<CharacterDefinition>, ids: nat -> Id, first: nat)
    requires DistinctIds(ids)
    ensures var r := CreateCharacters(m, projectId, characters, ids, first);
            forall j :: 0 <= j < |characters| ==>
              ids(first + j) in r
              && r[ids(first + j)] == CharacterRecord(ids(first + j), projectId, characters[j].name, characters[j].description)
    decreases |characters|
  {
    if |characters| > 0 {
      var c := characters[0];
      var m' := m[ids(first) := CharacterRecord(ids(first), projectId, c.name, c.description)];
      var r := CreateCharacters(m', projectId, characters[1..], ids, first + 1);
      CreateCharactersContent(m', projectId, characters[1..], ids, first + 1);
      CreateCharactersKeeps(m', projectId, characters[1..], ids, first + 1);
      IdsFromMember(ids, first + 1, |characters| - 1, first);
      forall j | 0 <= j < |characters|
        ensures ids(first + j) in r
        ensures r[ids(first + j)] == CharacterRecord(ids(first + j), projectId, characters[j].name, characters[j].description)
      {
        if j > 0 {
          assert characters[1..][j - 1] == characters[j];
          assert first + 1 + (j - 1) == first + j;
        }
      }
    }
  }

  // ---------------------------------------------------------------------------
  // One iteration
  // ---------------------------------------------------------------------------

  /** The record scene `i` is left with once its iteration ran: completed when its video arrived, else processing. */
  function SceneAfterRun(job: Job, i: nat): (s: SceneRecord)
    requires i < job.SceneCount() && AssetsOk(job.oracle, i)
    ensures SceneCoherent(s)
    ensures s.status == Completed <==> job.oracle.video(i).Ok?
    ensures s.status.Name() == (if job.oracle.video(i).Ok? then "completed" else "processing")
    ensures s.status == Completed ==> s.videoUrl == Some(job.oracle.video(i).url)
    ensures s.(videoUrl := None, status := Processing) == PendingScene(job, i)
  {
    if job.oracle.video(i).Ok? then FinishedScene(job, i) else PendingScene(job, i)
  }

  /** The writes of one iteration: its scene record, if any, and the thumbnail after the first animated scene. */
  lemma IterationWrites(job: Job, i: nat, store: Store)
    requires i < job.SceneCount()
    ensures var r := IterationStore(job, i, store);
            && r.scenes == (if AssetsOk(job.oracle, i) then store.scenes[job.SceneId(i) := SceneAfterRun(job, i)]
                            else store.scenes)
            && r.projects == (if i == 0 && SceneOk(job.oracle, i)
                              then SetThumbnail(store.projects, job.ProjectId(), job.oracle.image(i).url)
                              else store.projects)
  {
    if SceneOk(job.oracle, i) {
      var m := store.scenes[job.SceneId(i) := PendingScene(job, i)];
      assert UpdateSceneVideo(m, job.SceneId(i), job.oracle.video(i).url) == store.scenes[job.SceneId(i) := FinishedScene(job, i)];
    }
  }

  // ---------------------------------------------------------------------------
  // The scene loop
  // ---------------------------------------------------------------------------

  /** The ids of the scene records the loop from index `i` writes when it stops at `k`. */
  function WrittenSceneIds(job: Job, i: nat, k: nat): set<Id>
    requires i <= k
  {
    IdsFrom(job.ids, 1 + |job.analysis.characters| + i, k - i)
      + (if k < job.SceneCount() && AssetsOk(job.oracle, k) then {job.SceneId(k)} else {})
  }

  /** The loop from `i` adds exactly the scene ids it writes. */
  predicate LoopSceneKeys(job: Job, i: nat, t: Trace)
    requires i <= job.SceneCount()
  {
    var k := FirstFailure(job.oracle, i, job.SceneCount());
    ProcessScenes(job, i, t).0.store.scenes.Keys == t.store.scenes.Keys + WrittenSceneIds(job, i, k)
  }

  /** The loop from `i` leaves every scene record whose id it does not write. */
  predicate LoopScenesKept(job: Job, i: nat, t: Trace)
    requires i <= job.SceneCount()
  {
    var k := FirstFailure(job.oracle, i, job.SceneCount());
    var r := ProcessScenes(job, i, t).0.store;
    forall id :: id in t.store.scenes && id !in WrittenSceneIds(job, i, k) ==>
      id in r.scenes && r.scenes[id] == t.store.scenes[id]
  }

  /** Each scene the loop from `i` reaches and whose assets arrived holds its record as that iteration left it. */
  predicate LoopScenesWritten(job: Job, i: nat, t: Trace)
    requires i <= job.SceneCount()
  {
    var n := job.SceneCount();
    var k := FirstFailure(job.oracle, i, n);
    var r := ProcessScenes(job, i, t).0.store;
    forall j :: i <= j <= k && j < n && AssetsOk(job.oracle, j) ==>
      job.SceneId(j) in r.scenes && r.scenes[job.SceneId(j)] == SceneAfterRun(job, j)
  }

  /** The loop touches the projects only to set the thumbnail once the first scene is animated. */
  predicate LoopProjects(job: Job, i: nat, t: Trace)
    requires i <= job.SceneCount()
  {
    var k := FirstFailure(job.oracle, i, job.SceneCount());
    ProcessScenes(job, i, t).0.store.projects
      == (if i == 0 && k > 0 then SetThumbnail(t.store.projects, job.ProjectId(), job.oracle.image(0).url)
          else t.store.projects)
  }

  /** The ids a loop writes from a completed scene on: that scene's, then those from the next one. */
  lemma WrittenSceneIdsCons(job: Job, i: nat, k: nat)
    requires i < k
    ensures WrittenSceneIds(job, i, k) == {job.SceneId(i)} + WrittenSceneIds(job, i + 1, k)
  {
    IdsFromCons(job.ids, 1 + |job.analysis.characters| + i, k - i);
  }

  lemma CompletedIterationSceneKeys(job: Job, i: nat, t: Trace)
    requires i < job.SceneCount() && SceneOk(job.oracle, i)
    requires LoopSceneKeys(job, i + 1, SceneStep(job, i, t))
    ensures LoopSceneKeys(job, i, t)
  {
    var k := FirstFailure(job.oracle, i, job.SceneCount());
    CompletedIteration(job, i, t);
    IterationWrites(job, i, t.store);
    WrittenSceneIdsCons(job, i, k);
    assert SceneStep(job, i, t).store.scenes.Keys == t.store.scenes.Keys + {job.SceneId(i)};
  }

  lemma {:induction false} ProcessScenesKeys(job: Job, i: nat, t: Trace)
    requires i <= job.SceneCount()
    ensures LoopSceneKeys(job, i, t)
    decreases job.SceneCount() - i
  {
    if i == job.SceneCount() {
      assert WrittenSceneIds(job, i, i) == {};
    } else if SceneOk(job.oracle, i) {
      ProcessScenesKeys(job, i + 1, SceneStep(job, i, t));
      CompletedIterationSceneKeys(job, i, t);
    } else {
      IterationWrites(job, i, t.store);
      assert IdsFrom(job.ids, 1 + |job.analysis.characters| + i, 0) == {};
    }
  }

  lemma CompletedIterationScenesKept(job: Job, i: nat, t: Trace)
    requires i < job.SceneCount() && SceneOk(job.oracle, i)
    requires LoopScenesKept(job, i + 1, SceneStep(job, i, t))
    ensures LoopScenesKept(job, i, t)
  {
    var k := FirstFailure(job.oracle, i, job.SceneCount());
    var t' := SceneStep(job, i, t);
    CompletedIteration(job, i, t);
    IterationWrites(job, i, t.store);
    WrittenSceneIdsCons(job, i, k);
    var r := ProcessScenes(job, i, t).0.store;
    forall id | id in t.store.scenes && id !in WrittenSceneIds(job, i, k)
      ensures id in r.scenes && r.scenes[id] == t.store.scenes[id]
    {
      assert id != job.SceneId(i);
      assert id !in WrittenSceneIds(job, i + 1, k);
      assert t'.store.scenes[id] == t.store.scenes[id];
    }
  }

  lemma StoppingIterationScenesKept(job: Job, i: nat, t: Trace)
    requires i < job.SceneCount() && !SceneOk(job.oracle, i)
    ensures LoopScenesKept(job, i, t)
  {
    IterationWrites(job, i, t.store);
    assert FirstFailure(job.oracle, i, job.SceneCount()) == i;
    assert IdsFrom(job.ids, 1 + |job.analysis.characters| + i, 0) == {};
  }

  lemma {:induction false} ProcessScenesKept(job: Job, i: nat, t: Trace)
    requires i <= job.SceneCount()
    ensures LoopScenesKept(job, i, t)
    decreases job.SceneCount() - i
  {
    if i == job.SceneCount() {
    } else if SceneOk(job.oracle, i) {
      ProcessScenesKept(job, i + 1, SceneStep(job, i, t));
      CompletedIterationScenesKept(job, i, t);
    } else {
      StoppingIterationScenesKept(job, i, t);
    }
  }

  /** Scene `i`'s record, written before the loop goes on and not overwritten later, joins those written after it. */
  lemma ScenesWrittenStep(job: Job, i: nat, k: nat, m: map<Id, SceneRecord>, r: map<Id, SceneRecord>)
    requires i < k <= job.SceneCount() && AssetsOk(job.oracle, i)
    requires job.SceneId(i) in m && m[job.SceneId(i)] == SceneAfterRun(job, i)
    requires job.SceneId(i) !in WrittenSceneIds(job, i + 1, k)
    requires forall id :: id in m && id !in WrittenSceneIds(job, i + 1, k) ==> id in r && r[id] == m[id]
    requires forall j :: i + 1 <= j <= k && j < job.SceneCount() && AssetsOk(job.oracle, j) ==>
               job.SceneId(j) in r && r[job.SceneId(j)] == SceneAfterRun(job, j)
    ensures forall j :: i <= j <= k && j < job.SceneCount() && AssetsOk(job.oracle, j) ==>
              job.SceneId(j) in r && r[job.SceneId(j)] == SceneAfterRun(job, j)
  {
  }

  lemma CompletedIterationScenesWritten(job: Job, i: nat, t: Trace)
    requires DistinctIds(job.ids)
    requires i < job.SceneCount() && SceneOk(job.oracle, i)
    requires LoopScenesWritten(job, i + 1, SceneStep(job, i, t))
    ensures LoopScenesWritten(job, i, t)
  {
    var n := job.SceneCount();
    var k := FirstFailure(job.oracle, i, n);
    var t' := SceneStep(job, i, t);
    ProcessScenesKept(job, i + 1, t');
    CompletedIteration(job, i, t);
    IterationWrites(job, i, t.store);
    var base := 1 + |job.analysis.characters|;
    IdsFromMember(job.ids, base + i + 1, k - (i + 1), base + i);
    ScenesWrittenStep(job, i, k, t'.store.scenes, ProcessScenes(job, i + 1, t').0.store.scenes);
  }

  lemma StoppingIterationScenesWritten(job: Job, i: nat, t: Trace)
    requires i < job.SceneCount() && !SceneOk(job.oracle, i)
    ensures LoopScenesWritten(job, i, t)
  {
    IterationWrites(job, i, t.store);
  }

  lemma {:induction false} ProcessScenesWritten(job: Job, i: nat, t: Trace)
    requires DistinctIds(job.ids)
    requires i <= job.SceneCount()
    ensures LoopScenesWritten(job, i, t)
    decreases job.SceneCount() - i
  {
    if i == job.SceneCount() {
    } else if SceneOk(job.oracle, i) {
      ProcessScenesWritten(job, i + 1, SceneStep(job, i, t));
      CompletedIterationScenesWritten(job, i, t);
    } else {
      StoppingIterationScenesWritten(job, i, t);
    }
  }

  lemma {:induction false} ProcessScenesProjects(job: Job, i: nat, t: Trace)
    requires i <= job.SceneCount()
    ensures LoopProjects(job, i, t)
    decreases job.SceneCount() - i
  {
    if i == job.SceneCount() {
    } else if SceneOk(job.oracle, i) {
      ProcessScenesProjects(job, i + 1, SceneStep(job, i, t));
      CompletedIteration(job, i, t);
      IterationWrites(job, i, t.store);
    } else {
      IterationWrites(job, i, t.store);
    }
  }

  // ---------------------------------------------------------------------------
  // The whole run
  // ---------------------------------------------------------------------------

  /** The store of a run whose analysis succeeded: the loop's store, with the project completed if no scene failed. */
  lemma RunStore(request: Request, o: Oracle, ids: nat -> Id, s0: Store)
    requires o.analysis.Some?
    ensures var job := Job(request, o, ids, o.analysis.value);
            var n := job.SceneCount();
            var store := ProcessScenes(job, 0, Prepared(job, s0)).0.store;
            var r := Run(request, o, ids, s0);
            && r.store.characters == store.characters
            && r.store.scenes == store.scenes
            && r.store.projects
               == (if FirstFailure(o, 0, n) == n then CompleteProject(store.projects, ids(0)) else store.projects)
  {
  }

  /**
   * Whether or not a scene fails, the run stores one record per analysed
   * character under the ids drawn after the project's, copying name and
   * description and pointing at the project, and keeps every other record.
   */
  lemma RunCharacters(request: Request, o: Oracle, ids: nat -> Id, s0: Store)
    requires o.analysis.Some?
    requires DistinctIds(ids) && FreshIds(ids, s0)
    ensures var a := o.analysis.value;
            var r := Run(request, o, ids, s0).store.characters;
            && r.Keys == s0.characters.Keys + IdsFrom(ids, 1, |a.characters|)
            && |r.Keys - s0.characters.Keys| == |a.characters|
            && (forall j :: 0 <= j < |a.characters| ==>
                  r[ids(1 + j)] == CharacterRecord(ids(1 + j), ids(0), a.characters[j].name, a.characters[j].description))
            && (forall id :: id in s0.characters ==> r[id] == s0.characters[id])
  {
    var a := o.analysis.value;
    var job := Job(request, o, ids, a);
    RunStore(request, o, ids, s0);
    var m := s0.characters;
    CreateCharactersContent(m, ids(0), a.characters, ids, 1);
    CreateCharactersKeeps(m, ids(0), a.characters, ids, 1);
    IdsFromCount(ids, 1, |a.characters|);
    assert IdsFrom(ids, 1, |a.characters|) !! m.Keys;
    assert s0.characters.Keys + IdsFrom(ids, 1, |a.characters|) - s0.characters.Keys == IdsFrom(ids, 1, |a.characters|);
  }

  /**
   * The project record of a run whose analysis succeeded: the request's
   * user, story and style and the analysis title; `completed` exactly when
   * every scene succeeded; a thumbnail, the first scene's image, exactly
   * when the first scene was animated. Other projects are kept.
   */
  lemma RunProject(request: Request, o: Oracle, ids: nat -> Id, s0: Store)
    requires o.analysis.Some?
    ensures var a := o.analysis.value;
            var n := |a.scenes|;
            var k := FirstFailure(o, 0, n);
            var r := Run(request, o, ids, s0).store.projects;
            r == s0.projects[ids(0) := ProjectRecord(ids(0), request.userId, a.title, request.story, request.style,
                                                     if k == n then Completed else Processing,
                                                     if k > 0 then Some(o.image(0).url) else None)]
  {
    var job := Job(request, o, ids, o.analysis.value);
    var n := job.SceneCount();
    var k := FirstFailure(o, 0, n);
    var t := Prepared(job, s0);
    RunStore(request, o, ids, s0);
    ProcessScenesProjects(job, 0, t);
    ProjectWrites(s0.projects, NewProject(job), k > 0, o.image(0), k == n);
  }

  /** The project writes of a run, on the map the project was inserted into. */
  lemma ProjectWrites(m: map<Id, ProjectRecord>, p: ProjectRecord, animated: bool, first: Answer, complete: bool)
    requires animated ==> first.Ok?
    ensures var m1 := m[p.id := p];
            var m2 := if animated then SetThumbnail(m1, p.id, first.url) else m1;
            var m3 := if complete then CompleteProject(m2, p.id) else m2;
            m3 == m[p.id := p.(status := if complete then Completed else p.status,
                               thumbnailUrl := if animated then Some(first.url) else p.thumbnailUrl)]
  {
  }

  /** The scene facts of the whole loop, over a store that holds none of the supply's ids as scene keys. */
  lemma WholeLoopScenes(job: Job, t: Trace)
    requires DistinctIds(job.ids)
    requires forall x: nat :: job.ids(x) !in t.store.scenes
    ensures var n := job.SceneCount();
            var k := FirstFailure(job.oracle, 0, n);
            var r := ProcessScenes(job, 0, t).0.store.scenes;
            && r.Keys == t.store.scenes.Keys + WrittenSceneIds(job, 0, k)
            && (forall j :: 0 <= j < k ==> job.SceneId(j) in r && r[job.SceneId(j)] == FinishedScene(job, j))
            && (k < n && AssetsOk(job.oracle, k) ==> job.SceneId(k) in r && r[job.SceneId(k)] == PendingScene(job, k))
            && (k < n && !AssetsOk(job.oracle, k) ==> job.SceneId(k) !in r)
            && (forall id :: id in t.store.scenes ==> r[id] == t.store.scenes[id])
  {
    var n := job.SceneCount();
    var k := FirstFailure(job.oracle, 0, n);
    ProcessScenesKeys(job, 0, t);
    ProcessScenesKept(job, 0, t);
    ProcessScenesWritten(job, 0, t);
    var r := ProcessScenes(job, 0, t).0.store.scenes;
    var base := 1 + |job.analysis.characters|;
    forall id | id in t.store.scenes ensures id !in WrittenSceneIds(job, 0, k) {
    }
    forall j | 0 <= j < k ensures job.SceneId(j) in r && r[job.SceneId(j)] == FinishedScene(job, j) {
      assert SceneOk(job.oracle, j);
    }
    if k < n && !AssetsOk(job.oracle, k) {
      IdsFromMember(job.ids, base, k, base + k);
    }
  }

  /**
   * The scene records of a run whose analysis succeeded and that stopped at
   * k: a completed record for every scene before k; for scene k, when it
   * exists, a processing record without video if only the video call failed
   * and no record if the image or voiceover call failed; old records kept.
   */
  lemma RunScenes(request: Request, o: Oracle, ids: nat -> Id, s0: Store)
    requires o.analysis.Some?
    requires DistinctIds(ids) && FreshIds(ids, s0)
    ensures var job := Job(request, o, ids, o.analysis.value);
            var n := job.SceneCount();
            var k := FirstFailure(o, 0, n);
            var r := Run(request, o, ids, s0).store.scenes;
            && r.Keys == s0.scenes.Keys + WrittenSceneIds(job, 0, k)
            && (forall j :: 0 <= j < k ==> job.SceneId(j) in r && r[job.SceneId(j)] == FinishedScene(job, j))
            && (k < n && AssetsOk(o, k) ==> job.SceneId(k) in r && r[job.SceneId(k)] == PendingScene(job, k))
            && (k < n && !AssetsOk(o, k) ==> job.SceneId(k) !in r)
            && (forall id :: id in s0.scenes ==> r[id] == s0.scenes[id])
  {
    var job := Job(request, o, ids, o.analysis.value);
    RunStore(request, o, ids, s0);
    assert Prepared(job, s0).store.scenes == s0.scenes;
    WholeLoopScenes(job, Prepared(job, s0));
  }

  /** When no scene failed, the loop adds exactly N scene ids to those already stored. */
  lemma AllSceneIdsAdded(job: Job, old_ids: set<Id>, keys: set<Id>)
    requires DistinctIds(job.ids)
    requires FirstFailure(job.oracle, 0, job.SceneCount()) == job.SceneCount()
    requires keys == old_ids + WrittenSceneIds(job, 0, job.SceneCount())
    requires forall x: nat :: job.ids(x) !in old_ids
    ensures |keys - old_ids| == job.SceneCount()
  {
    var n := job.SceneCount();
    var drawn := IdsFrom(job.ids, 1 + |job.analysis.characters|, n);
    IdsFromCount(job.ids, 1 + |job.analysis.characters|, n);
    assert WrittenSceneIds(job, 0, n) == drawn;
    assert keys - old_ids == drawn;
  }

  /** When no scene failed, every scene's record is completed with its video and its scene's text. */
  lemma AllScenesFinished(job: Job, r: map<Id, SceneRecord>)
    requires FirstFailure(job.oracle, 0, job.SceneCount()) == job.SceneCount()
    requires forall j :: 0 <= j < job.SceneCount() ==> job.SceneId(j) in r && r[job.SceneId(j)] == FinishedScene(job, j)
    ensures forall j :: 0 <= j < job.SceneCount() ==>
              job.SceneId(j) in r &&
              var scene := r[job.SceneId(j)];
              && SceneOk(job.oracle, j)
              && scene.sceneNumber == j + 1
              && scene.status == Completed
              && scene.videoUrl == Some(job.oracle.video(j).url)
              && scene.projectId == job.ProjectId()
              && scene.content == job.analysis.scenes[j].content
              && scene.visualPrompt == job.analysis.scenes[j].visualPrompt
  {
  }

  /**
   * After a successful run over N scenes the store holds exactly N new scene
   * records, numbered 1..N in the order of the analysis, each completed with
   * its video and carrying its scene's narration and visual prompt and the
   * project id the run returns.
   */
  lemma SucceededRunScenes(request: Request, o: Oracle, ids: nat -> Id, s0: Store)
    requires o.analysis.Some?
    requires Run(request, o, ids, s0).outcome.Succeeded?
    requires DistinctIds(ids) && FreshIds(ids, s0)
    ensures var job := Job(request, o, ids, o.analysis.value);
            var r := Run(request, o, ids, s0);
            && |r.store.scenes.Keys - s0.scenes.Keys| == job.SceneCount()
            && forall j :: 0 <= j < job.SceneCount() ==>
                 job.SceneId(j) in r.store.scenes &&
                 var scene := r.store.scenes[job.SceneId(j)];
                 && SceneOk(job.oracle, j)
                 && scene.sceneNumber == j + 1
                 && scene.status == Completed
                 && scene.videoUrl == Some(job.oracle.video(j).url)
                 && scene.projectId == r.outcome.projectId
                 && scene.content == job.analysis.scenes[j].content
                 && scene.visualPrompt == job.analysis.scenes[j].visualPrompt
  {
    var job := Job(request, o, ids, o.analysis.value);
    RunScenes(request, o, ids, s0);
    var r := Run(request, o, ids, s0);
    forall x: nat ensures ids(x) !in s0.scenes.Keys {
      assert ids(x) !in s0.scenes;
    }
    AllSceneIdsAdded(job, s0.scenes.Keys, r.store.scenes.Keys);
    AllScenesFinished(job, r.store.scenes);
  }
}
