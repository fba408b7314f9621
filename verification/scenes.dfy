/** The scene sequencer: which of the five full-screen scenes is showing,
    and the URL fragment that mirrors it. Every change of scene goes
    through `GoTo`, which clamps the request and rewrites the fragment. */
module Scenes {
  import opened Base

  /** Landing, Letter, Question, Memory, Celebration. */
  const LandingScene := 0
  const LetterScene := 1
  const QuestionScene := 2
  const MemoryScene := 3
  const CelebrationScene := 4

  /** The range `goTo` clamps into, and the scene of the first render. */
  const FirstScene := LandingScene
  const LastScene := CelebrationScene
  const InitialScene := LandingScene

  /** The fragment prefix written before the scene digit. */
  const HashPrefix := "#scene-"

  /** `scene` is the React state; `hash` is `window.location.hash`,
      including its leading `#`. */
  datatype Sequencer = Sequencer(scene: int, hash: string)

  predicate InRange(i: int) {
    FirstScene <= i <= LastScene
  }

  /** State right after the first render: scene 0, and whatever fragment
      the page was opened with. */
  function Initial(locationHash: string): Sequencer {
    Sequencer(InitialScene, locationHash)
  }

  function DigitChar(d: int): char
    requires 0 <= d <= 9
  {
    ('0' as int + d) as char
  }

  /** The fragment `#scene-<i>` that `goTo` writes for scene `i`. */
  function HashOf(i: int): (h: string)
    requires 0 <= i <= 9
    ensures |h| == |HashPrefix| + 1 && h[..|HashPrefix|] == HashPrefix
    ensures h[|HashPrefix|] as int - '0' as int == i
  {
    HashPrefix + [DigitChar(i)]
  }

  /** The scene and the fragment agree, as they do after any `goTo`. */
  predicate Synced(s: Sequencer) {
    InRange(s.scene) && s.hash == HashOf(s.scene)
  }

  /** `Math.max(0, Math.min(4, index))`. */
  function Clamp(index: int): (i: int)
    ensures InRange(i)
    ensures InRange(index) ==> i == index
    ensures index < FirstScene ==> i == FirstScene
    ensures index > LastScene ==> i == LastScene
  {
    Max(FirstScene, Min(LastScene, index))
  }

  /** `goTo(index)`: clamp, set the scene, replace the fragment. The
      scroll into view is a rendering side effect and is not modelled. */
  function GoTo(s: Sequencer, index: int): (r: Sequencer)
    ensures InRange(index) ==> r.scene == index
    ensures index < FirstScene ==> r.scene == FirstScene
    ensures index > LastScene ==> r.scene == LastScene
    ensures Synced(r)
  {
    var i := Clamp(index);
    Sequencer(i, HashOf(i))
  }

  /** The outcome of `goTo` does not depend on where the sequencer was,
      and repeating the same request changes nothing. */
  lemma GoToIdempotent(s: Sequencer, t: Sequencer, index: int)
    ensures GoTo(s, index) == GoTo(t, index)
    ensures GoTo(GoTo(s, index), index) == GoTo(s, index)
  {
  }

  /** A synced sequencer is a fixed point of a `goTo` to its own scene. */
  lemma GoToCurrentIsNoOp(s: Sequencer)
    requires Synced(s)
    ensures GoTo(s, s.scene) == s
  {
  }

  /** "Open it" button on the landing scene. */
  function OpenLetter(s: Sequencer): (r: Sequencer)
    ensures r.scene == LetterScene && Synced(r)
  {
    GoTo(s, 1)
  }

  /** "Continue" button on the letter card. */
  function ContinueToQuestion(s: Sequencer): (r: Sequencer)
    ensures r.scene == QuestionScene && Synced(r)
  {
    GoTo(s, 2)
  }

  /** `onYes`: whatever the current scene, go to the memory scene. The
      flower burst is a visual side effect and is not modelled. */
  function OnYes(s: Sequencer): (r: Sequencer)
    ensures r.scene == MemoryScene && Synced(r)
  {
    GoTo(s, 3)
  }

  /** `revealCard`: go to the celebration scene at once. */
  function RevealCard(s: Sequencer): (r: Sequencer)
    ensures r.scene == CelebrationScene && Synced(r)
  {
    GoTo(s, 4)
  }

  /** `celebrate`, run 500 ms after `revealCard`, starts with another
      `goTo(4)`. That second navigation is invisible: the page rests at the
      celebration scene with fragment `#scene-4`. */
  lemma RevealThenCelebrate(s: Sequencer)
    ensures GoTo(RevealCard(s), CelebrationScene) == RevealCard(s)
    ensures RevealCard(s) == Sequencer(CelebrationScene, "#scene-4")
  {
  }
}
