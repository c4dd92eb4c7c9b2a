/**
 * A worked run: an analysis with three scenes and two characters, and
 * services that answer every call.
 */
module Scenario {
  import opened Options
  import opened StoryTypes
  import opened Orchestrator
  import opened OrchestratorEvents
  import opened OrchestratorStore

  /** The services of the worked run: three scenes, two characters, every call answered. */
  predicate AllAnswered(o: Oracle) {
    && o.analysis.Some? && |o.analysis.value.scenes| == 3 && |o.analysis.value.characters| == 2
    && SceneOk(o, 0) && SceneOk(o, 1) && SceneOk(o, 2)
  }

  /** Such a run returns the project id it drew first and emits 1 + 3 * 2 + 1 = 8 events. */
  lemma ThreeScenesEvents(request: Request, o: Oracle, ids: nat -> Id, s0: Store)
    requires AllAnswered(o)
    ensures var r := Run(request, o, ids, s0);
            && r.outcome == Succeeded(ids(0))
            && |r.events| == 8
            && r.events[7] == ReadyEvent(3)
  {
    assert FirstFailure(o, 2, 3) == 3;
    assert FirstFailure(o, 0, 3) == 3;
    RunEventsArePrefix(request, o, ids, s0);
    FullEventsShape(3);
  }

  /** Such a run adds one project, which ends completed with the first scene's image as its thumbnail. */
  lemma ThreeScenesProject(request: Request, o: Oracle, ids: nat -> Id, s0: Store)
    requires AllAnswered(o)
    ensures var r := Run(request, o, ids, s0).store;
            && r.projects.Keys == s0.projects.Keys + {ids(0)}
            && r.projects[ids(0)].status == Completed
            && r.projects[ids(0)].thumbnailUrl == Some(o.image(0).url)
  {
    assert FirstFailure(o, 2, 3) == 3;
    assert FirstFailure(o, 0, 3) == 3;
    RunProject(request, o, ids, s0);
  }

  /** Such a run adds two character records and three scene records. */
  lemma ThreeScenesRecords(request: Request, o: Oracle, ids: nat -> Id, s0: Store)
    requires AllAnswered(o)
    requires DistinctIds(ids) && FreshIds(ids, s0)
    ensures var r := Run(request, o, ids, s0).store;
            && |r.characters.Keys - s0.characters.Keys| == 2
            && |r.scenes.Keys - s0.scenes.Keys| == 3
  {
    ThreeScenesEvents(request, o, ids, s0);
    RunCharacters(request, o, ids, s0);
    SucceededRunScenes(request, o, ids, s0);
  }
}
