/**
 * The three asset generators of asset-generator.ts, reduced to the requests
 * they send. Each generator is a single call to the hosted AI service; what
 * the service answers is the orchestrator's oracle, so only request
 * construction (prompt text, fixed parameters) is modelled here.
 */
module Assets {
  import opened Options
  import opened Text
  import opened StoryTypes

  type Url = string

  // ---------------------------------------------------------------------------
  // Scene image
  // ---------------------------------------------------------------------------

  /** Requested image size, roughly 16:9. */
  const ImageSize: string := "1536x1024"

  const QualitySuffix: string := ". High quality, 4k, masterpiece."

  datatype ImageRequest = ImageRequest(prompt: string, size: string)

  /** `${c.name}: ${c.physicalTraits}` */
  function CharacterClause(c: CharacterDefinition): string {
    c.name + ": " + c.physicalTraits
  }

  function CharacterClauses(characters: seq<CharacterDefinition>): (r: seq<string>)
    ensures |r| == |characters|
    ensures forall j :: 0 <= j < |r| ==> r[j] == CharacterClause(characters[j])
  {
    seq(|characters|, j requires 0 <= j < |characters| => CharacterClause(characters[j]))
  }

  /**
   * The cross-scene consistency clause: every character's name and physical
   * traits, in input order, joined by ". ". Descriptions are not used.
   */
  function CharacterContext(characters: seq<CharacterDefinition>): (r: string)
    ensures r == "" <==> |characters| == 0
    ensures forall j :: 0 <= j < |characters| ==> Occurs(CharacterClause(characters[j]), r)
    ensures |characters| > 0 ==> CharacterClause(characters[0]) <= r
  {
    var clauses := CharacterClauses(characters);
    assert forall j :: 0 <= j < |characters| ==> Occurs(CharacterClause(characters[j]), Join(clauses, ". ")) by {
      forall j | 0 <= j < |characters|
        ensures Occurs(CharacterClause(characters[j]), Join(clauses, ". "))
      {
        JoinContainsPart(clauses, ". ", j);
      }
    }
    assert |characters| > 0 ==> |CharacterClause(characters[0])| >= 2;
    Join(clauses, ". ")
  }

  /**
   * The context read clause by clause: one character gives its clause, and
   * each further character appends ". " and its clause. With `""` for no
   * characters this determines the context completely.
   */
  lemma CharacterContextSnoc(characters: seq<CharacterDefinition>, c: CharacterDefinition)
    ensures |characters| == 0 ==> CharacterContext(characters + [c]) == CharacterClause(c)
    ensures |characters| > 0 ==>
              CharacterContext(characters + [c]) == CharacterContext(characters) + ". " + CharacterClause(c)
  {
    assert CharacterClauses(characters + [c]) == CharacterClauses(characters) + [CharacterClause(c)];
    if |characters| > 0 {
      JoinSnoc(CharacterClauses(characters), CharacterClause(c), ". ");
    }
  }

  /** The pieces of the image prompt template, in order. */
  function ImagePromptPieces(scene: SceneDefinition, characters: seq<CharacterDefinition>, style: string): seq<string> {
    [ "Cinematic ", style, " style. ", scene.visualPrompt,
      ". Characters involved: ", CharacterContext(characters),
      ". Lighting: ", scene.lighting,
      ". Camera: ", scene.cameraAngle,
      QualitySuffix ]
  }

  /**
   * The full image prompt: the template filled in with the style, the
   * scene's visual prompt, the character context, the lighting and the
   * camera angle. Each appears verbatim, between fixed connective text.
   */
  function ImagePrompt(scene: SceneDefinition, characters: seq<CharacterDefinition>, style: string): (r: string)
    ensures "Cinematic " <= r
    ensures IsSuffix(QualitySuffix, r)
    ensures Occurs(style, r)
    ensures Occurs(scene.visualPrompt, r)
    ensures Occurs(CharacterContext(characters), r)
    ensures Occurs(scene.lighting, r)
    ensures Occurs(scene.cameraAngle, r)
  {
    var pieces := ImagePromptPieces(scene, characters, style);
    ConcatContainsPiece(pieces, 1);
    ConcatContainsPiece(pieces, 3);
    ConcatContainsPiece(pieces, 5);
    ConcatContainsPiece(pieces, 7);
    ConcatContainsPiece(pieces, 9);
    Concat(pieces)
  }

  /** The prompt is exactly the template's text: its pieces one after the other, with nothing added. */
  lemma ImagePromptIsTemplate(scene: SceneDefinition, characters: seq<CharacterDefinition>, style: string)
    ensures ImagePrompt(scene, characters, style)
         == "Cinematic " + (style + (" style. " + (scene.visualPrompt + (". Characters involved: "
            + (CharacterContext(characters) + (". Lighting: " + (scene.lighting + (". Camera: "
            + (scene.cameraAngle + QualitySuffix)))))))))
  {
    var p := ImagePromptPieces(scene, characters, style);
    ConcatUnfold(p, 0);
    ConcatUnfold(p, 1);
    ConcatUnfold(p, 2);
    ConcatUnfold(p, 3);
    ConcatUnfold(p, 4);
    ConcatUnfold(p, 5);
    ConcatUnfold(p, 6);
    ConcatUnfold(p, 7);
    ConcatUnfold(p, 8);
    ConcatUnfold(p, 9);
    ConcatUnfold(p, 10);
  }

  /**
   * The image prompt reads only the visual prompt, lighting and camera angle
   * of its scene: scenes that agree on those give the same prompt, whatever
   * their number, narrative content or emotion.
   */
  lemma ImagePromptIgnoresNarrative(s1: SceneDefinition, s2: SceneDefinition,
                                    characters: seq<CharacterDefinition>, style: string)
    requires s1.visualPrompt == s2.visualPrompt
    requires s1.lighting == s2.lighting
    requires s1.cameraAngle == s2.cameraAngle
    ensures ImagePrompt(s1, characters, style) == ImagePrompt(s2, characters, style)
  {
  }

  /** The image request: the fixed size and the full image prompt, which carries the scene's visual prompt and the style. */
  function ImageRequestFor(scene: SceneDefinition, characters: seq<CharacterDefinition>, style: string): (r: ImageRequest)
    ensures r.size == ImageSize
    ensures r.prompt == ImagePrompt(scene, characters, style)
    ensures Occurs(scene.visualPrompt, r.prompt) && Occurs(style, r.prompt)
  {
    ImageRequest(ImagePrompt(scene, characters, style), ImageSize)
  }

  /**
   * `images[0]` of the service's answer. Indexing an empty array in
   * JavaScript yields `undefined` rather than an error.
   */
  function FirstImage(images: seq<Url>): (r: Option<Url>)
    ensures r.Some? <==> |images| > 0
    ensures r.Some? ==> r.value == images[0]
  {
    if |images| == 0 then None else Some(images[0])
  }

  // ---------------------------------------------------------------------------
  // Scene voiceover
  // ---------------------------------------------------------------------------

  const Voice: string := "nova"

  /** The fixed speaking rate 0.9, kept exactly as a percentage. */
  const SpeechSpeedPercent: nat := 90

  datatype SpeechRequest = SpeechRequest(text: string, voice: string, speedPercent: nat)

  /** The speech request for a scene's narration. The `language` argument is accepted and unused. */
  function SpeechRequestFor(text: string, language: string): (r: SpeechRequest)
    ensures r.text == text
    ensures r.voice == Voice && r.speedPercent == SpeechSpeedPercent
  {
    SpeechRequest(text, Voice, SpeechSpeedPercent)
  }

  /** Every requested language gives the same request. */
  lemma SpeechRequestIgnoresLanguage(text: string, language1: string, language2: string)
    ensures SpeechRequestFor(text, language1) == SpeechRequestFor(text, language2)
  {
  }

  // ---------------------------------------------------------------------------
  // Scene video (image to video)
  // ---------------------------------------------------------------------------

  const VideoModel: string := "fal-ai/veo3.1/image-to-video"
  const VideoDuration: string := "5s"
  const MotionPrefix: string := "Cinematic motion, "
  const MotionSuffix: string := ". Smooth camera movement."

  datatype VideoRequest = VideoRequest(model: string, imageUrl: Url, prompt: string, duration: string)

  /** `Cinematic motion, ${prompt}. Smooth camera movement.` */
  function VideoPrompt(prompt: string): (r: string)
    ensures MotionPrefix <= r
    ensures IsSuffix(MotionSuffix, r)
    ensures |r| == |MotionPrefix| + |prompt| + |MotionSuffix|
    ensures r[|MotionPrefix|..|r| - |MotionSuffix|] == prompt
  {
    MotionPrefix + prompt + MotionSuffix
  }

  /** Recovers the motion description from a wrapped video prompt, if `s` has that shape. */
  function UnwrapVideoPrompt(s: string): Option<string> {
    if |s| >= |MotionPrefix| + |MotionSuffix|
       && s[..|MotionPrefix|] == MotionPrefix
       && s[|s| - |MotionSuffix|..] == MotionSuffix
    then Some(s[|MotionPrefix|..|s| - |MotionSuffix|])
    else None
  }

  /** Wrapping then unwrapping gives back the motion description. */
  lemma VideoPromptRoundTrip(prompt: string)
    ensures UnwrapVideoPrompt(VideoPrompt(prompt)) == Some(prompt)
  {
    var s := VideoPrompt(prompt);
    assert s[..|MotionPrefix|] == MotionPrefix;
    assert s[|s| - |MotionSuffix|..] == MotionSuffix;
    assert s[|MotionPrefix|..|s| - |MotionSuffix|] == prompt;
  }

  /** Whatever unwraps was produced by wrapping, so wrapping is a bijection onto its image. */
  lemma UnwrapVideoPromptSound(s: string, prompt: string)
    requires UnwrapVideoPrompt(s) == Some(prompt)
    ensures VideoPrompt(prompt) == s
  {
    assert s == s[..|MotionPrefix|] + s[|MotionPrefix|..|s| - |MotionSuffix|] + s[|s| - |MotionSuffix|..];
  }

  /** The image-to-video request: fixed model and duration, the image URL unchanged, the prompt wrapped. */
  function VideoRequestFor(imageUrl: Url, prompt: string): (r: VideoRequest)
    ensures r.model == VideoModel && r.duration == VideoDuration
    ensures r.imageUrl == imageUrl
    ensures UnwrapVideoPrompt(r.prompt) == Some(prompt)
  {
    VideoPromptRoundTrip(prompt);
    VideoRequest(VideoModel, imageUrl, VideoPrompt(prompt), VideoDuration)
  }
}
