/**
 * The editor page's two pieces of logic: the guard in front of generation,
 * and the preview cursor, the index of the scene shown in the player.
 *
 * The cursor is a plain integer. The scene list is the project's scene
 * records in scene order; only whether a record carries a video URL matters
 * here. The cursor starts at 0 and moves by four controls: the previous and
 * next buttons, the end of the playing video, and a click on a sidebar entry.
 */
module Editor {
  import opened Options
  import opened Text
  import opened Orchestrator

  // ---------------------------------------------------------------------------
  // Starting a generation
  // ---------------------------------------------------------------------------

  /** The signed-in user, as far as generation needs it. */
  datatype User = User(id: Id)

  /** What pressing "Generate" does: refuse an empty story, do nothing without a user, or start a run. */
  datatype GenerateDecision = RejectEmptyStory | NoUser | Start(request: Request)

  /**
   * `handleGenerate`: a story that trims to the empty string is refused
   * with a message, a missing user silently stops, and otherwise the run
   * starts with the user's id, the story as typed (untrimmed) and the style.
   * The selected voiceover language is accepted and not passed on.
   */
  function HandleGenerate(story: string, user: Option<User>, style: string, language: string): (d: GenerateDecision)
    ensures d.RejectEmptyStory? <==> Blank(story)
    ensures d.NoUser? <==> !Blank(story) && user.None?
    ensures d.Start? <==> !Blank(story) && user.Some?
    ensures d.Start? ==> d.request == Request(user.value.id, story, style)
  {
    TrimEmptyIffBlank(story);
    if Trim(story) == "" then RejectEmptyStory
    else if user.None? then NoUser
    else Start(Request(user.value.id, story, style))
  }

  /** Whatever language is selected, pressing "Generate" does the same. */
  lemma GenerateIgnoresLanguage(story: string, user: Option<User>, style: string, language1: string, language2: string)
    ensures HandleGenerate(story, user, style, language1) == HandleGenerate(story, user, style, language2)
  {
  }

  /**
   * Hence the run a started generation performs, and the voiceover
   * requests in it, are the same for every selected language.
   */
  lemma GeneratedRunIgnoresLanguage(story: string, user: Option<User>, style: string, language1: string, language2: string,
                                    o: Oracle, ids: nat -> Id, s0: Store)
    requires HandleGenerate(story, user, style, language1).Start?
    ensures HandleGenerate(story, user, style, language2).Start?
    ensures var r1 := Run(HandleGenerate(story, user, style, language1).request, o, ids, s0);
            var r2 := Run(HandleGenerate(story, user, style, language2).request, o, ids, s0);
            r1 == r2
  {
  }

  // ---------------------------------------------------------------------------
  // The preview cursor
  // ---------------------------------------------------------------------------

  /** The cursor when the page opens. */
  const InitialCursor: int := 0

  /** The player shows a video for the cursor's scene: a record exists there with a non-empty video URL. */
  predicate ShowsVideo(scenes: seq<SceneRecord>, i: int) {
    0 <= i < |scenes| && scenes[i].videoUrl.Some? && scenes[i].videoUrl.value != ""
  }

  /** "Previous": disabled on the first scene, otherwise one back, never below 0. */
  function PreviousScene(i: int): (r: int)
    ensures r >= 0
    ensures i > 0 ==> r == i - 1
    ensures i <= 0 ==> r == 0
  {
    if i == 0 then i else if i - 1 < 0 then 0 else i - 1
  }

  /**
   * "Next": disabled on the last scene, otherwise one on, never past the
   * last scene. With no scenes the last index is -1, so a click from 0
   * moves to -1.
   */
  function NextScene(i: int, count: nat): (r: int)
    ensures 0 <= i < count ==> 0 <= r < count
    ensures 0 <= i < count - 1 ==> r == i + 1
    ensures i == count - 1 ==> r == i
    ensures r <= i + 1
    ensures i != count - 1 ==> r == (if i + 1 < count - 1 then i + 1 else count - 1)
  {
    if i == count - 1 then i else if count - 1 < i + 1 then count - 1 else i + 1
  }

  /**
   * The end of the playing video moves to the next scene unless this is the
   * last one. The player, and so this handler, exists only while a video is
   * shown.
   */
  function VideoEnded(i: int, scenes: seq<SceneRecord>): (r: int)
    ensures r == i + 1 <==> ShowsVideo(scenes, i) && i < |scenes| - 1
    ensures r == i || r == i + 1
  {
    if ShowsVideo(scenes, i) && i < |scenes| - 1 then i + 1 else i
  }

  /** A sidebar click selects the scene at that position; there is one entry per scene. */
  function SelectScene(i: int, index: int, count: nat): (r: int)
    ensures 0 <= index < count ==> r == index
    ensures !(0 <= index < count) ==> r == i
  {
    if 0 <= index < count then index else i
  }

  datatype Control = Previous | Next | Ended | Pick(index: int)

  function Step(i: int, c: Control, scenes: seq<SceneRecord>): int {
    match c
    case Previous => PreviousScene(i)
    case Next => NextScene(i, |scenes|)
    case Ended => VideoEnded(i, scenes)
    case Pick(index) => SelectScene(i, index, |scenes|)
  }

  function Steps(i: int, cs: seq<Control>, scenes: seq<SceneRecord>): int
    decreases |cs|
  {
    if |cs| == 0 then i else Steps(Step(i, cs[0], scenes), cs[1..], scenes)
  }

  /** Where the cursor can be: on a scene when there are scenes, at 0 or -1 when there are none. */
  predicate CursorValid(i: int, count: nat) {
    if count > 0 then 0 <= i < count else -1 <= i <= 0
  }

  /** Every control keeps the cursor valid. */
  lemma StepKeepsCursorValid(i: int, c: Control, scenes: seq<SceneRecord>)
    requires CursorValid(i, |scenes|)
    ensures CursorValid(Step(i, c, scenes), |scenes|)
  {
  }

  /**
   * From the opening cursor, whatever controls are used, the cursor stays on
   * an existing scene when there is one, and within -1..0 when there is none.
   */
  lemma {:induction false} CursorStaysValid(i: int, cs: seq<Control>, scenes: seq<SceneRecord>)
    requires CursorValid(i, |scenes|)
    ensures CursorValid(Steps(i, cs, scenes), |scenes|)
    decreases |cs|
  {
    if |cs| > 0 {
      StepKeepsCursorValid(i, cs[0], scenes);
      CursorStaysValid(Step(i, cs[0], scenes), cs[1..], scenes);
    }
  }

  lemma InitialCursorValid(count: nat)
    ensures CursorValid(InitialCursor, count)
  {
  }

  /** With no scenes, "Next" is enabled at 0 and moves the cursor to -1. */
  lemma EmptyListNextReachesMinusOne()
    ensures Steps(InitialCursor, [Next], []) == -1
  {
  }

  /**
   * The controls act on one scene list. When the list is replaced under the
   * cursor, as when scenes load after "next" was pressed on an empty list,
   * the cursor -1 survives and is no longer valid for the loaded list.
   */
  lemma CursorInvalidAfterLoad(count: nat)
    requires count > 0
    ensures var i := Steps(InitialCursor, [Next], []);
            i == -1 && !CursorValid(i, count)
  {
  }

  /**
   * Once scenes are there, a -1 cursor is left by the first "previous",
   * "next" or sidebar click: the first two move it to scene 0, a click to
   * the entry clicked. The end of a video cannot move it, as no video is
   * shown at -1.
   */
  lemma LoadedCursorRecovers(scenes: seq<SceneRecord>, index: int)
    requires |scenes| > 0
    ensures Step(-1, Previous, scenes) == 0
    ensures Step(-1, Next, scenes) == 0
    ensures 0 <= index < |scenes| ==> Step(-1, Pick(index), scenes) == index
    ensures Step(-1, Ended, scenes) == -1
  {
  }

  function Repeat(c: Control, k: nat): (r: seq<Control>)
    ensures |r| == k
    ensures forall p :: 0 <= p < k ==> r[p] == c
  {
    seq(k, _ => c)
  }

  /**
   * Autoplay: while every scene from the cursor on has a video, k video ends
   * advance the cursor k scenes, stopping at the last scene.
   */
  lemma {:induction false} AutoplayAdvances(i: int, k: nat, scenes: seq<SceneRecord>)
    requires 0 <= i < |scenes|
    requires forall j :: i <= j < |scenes| ==> ShowsVideo(scenes, j)
    ensures Steps(i, Repeat(Ended, k), scenes) == if i + k < |scenes| - 1 then i + k else |scenes| - 1
    decreases k
  {
    if k > 0 {
      var cs := Repeat(Ended, k);
      assert cs[1..] == Repeat(Ended, k - 1);
      assert ShowsVideo(scenes, i);
      AutoplayAdvances(Step(i, Ended, scenes), k - 1, scenes);
    }
  }
}
