/**
 * The shapes the story analyser returns: one analysis per run, holding the
 * ordered scenes and the characters of the story. The analyser itself is an
 * external structured-generation call and is represented in the
 * orchestrator only by its answer.
 */
module StoryTypes {

  /** One narrative beat. `sceneNumber` is whatever the service returned; the orchestrator numbers scenes itself. */
  datatype SceneDefinition = SceneDefinition(
    sceneNumber: int,
    content: string,
    visualPrompt: string,
    emotion: string,
    lighting: string,
    cameraAngle: string)

  datatype CharacterDefinition = CharacterDefinition(
    name: string,
    description: string,
    physicalTraits: string)

  datatype StoryAnalysis = StoryAnalysis(
    title: string,
    scenes: seq<SceneDefinition>,
    characters: seq<CharacterDefinition>,
    overallMood: string,
    backgroundMusicStyle: string)

}
