/** Keyboard navigation: four independent key tests, each issuing a
    `goTo` computed from the scene value the listener reads.

    The listener is registered by an effect that runs once on mount, so
    it reads the scene of the first render (0) for the whole lifetime of
    the page. `OnKeyAsWritten` models that; `OnKey` is the evidently
    intended handler that reads the current scene, and is the one the
    composed application uses. */
module Keyboard {
  import opened Base
  import opened Scenes

  const NextKeys := ["ArrowDown", "PageDown"]
  const PrevKeys := ["ArrowUp", "PageUp"]
  const HomeKey := "Home"
  const EndKey := "End"

  predicate IsNavigationKey(key: string) {
    key in NextKeys || key in PrevKeys || key == HomeKey || key == EndKey
  }

  /** The four `if`s in order; `seen` is the scene value in the closure. */
  function HandleKey(s: Sequencer, key: string, seen: int): (r: Sequencer)
    ensures key in NextKeys ==> r == GoTo(s, Min(LastScene, seen + 1))
    ensures key in PrevKeys ==> r == GoTo(s, Max(FirstScene, seen - 1))
    ensures key == HomeKey ==> r == GoTo(s, FirstScene)
    ensures key == EndKey ==> r == GoTo(s, LastScene)
    ensures !IsNavigationKey(key) ==> r == s
  {
    var s1 := if key in NextKeys then GoTo(s, Min(LastScene, seen + 1)) else s;
    var s2 := if key in PrevKeys then GoTo(s1, Max(FirstScene, seen - 1)) else s1;
    var s3 := if key == HomeKey then GoTo(s2, FirstScene) else s2;
    if key == EndKey then GoTo(s3, LastScene) else s3
  }

  /** The handler as registered: its closure holds the initial scene. */
  function OnKeyAsWritten(s: Sequencer, key: string): (r: Sequencer)
    ensures key in NextKeys ==> r.scene == LetterScene
    ensures key in PrevKeys ==> r.scene == LandingScene
    ensures key == HomeKey ==> r.scene == FirstScene
    ensures key == EndKey ==> r.scene == LastScene
    ensures !IsNavigationKey(key) ==> r == s
  {
    HandleKey(s, key, InitialScene)
  }

  /** From the memory scene, "next" as written moves back to the letter
      scene, two scenes backwards. */
  lemma StaleNextKeyMovesBackward()
    ensures var s := GoTo(Initial(""), MemoryScene);
            OnKeyAsWritten(s, "ArrowDown").scene == LetterScene < s.scene
  {
  }

  /** Even as written, key handling never takes the scene outside 0..4. */
  lemma OnKeyAsWrittenKeepsRange(s: Sequencer, key: string)
    requires InRange(s.scene)
    ensures InRange(OnKeyAsWritten(s, key).scene)
  {
  }

  /** The intended handler, reading the current scene. */
  function OnKey(s: Sequencer, key: string): (r: Sequencer)
    ensures key in NextKeys && FirstScene <= s.scene < LastScene ==> r.scene == s.scene + 1
    ensures key in NextKeys && s.scene >= LastScene ==> r.scene == LastScene
    ensures key in PrevKeys && FirstScene < s.scene <= LastScene ==> r.scene == s.scene - 1
    ensures key in PrevKeys && s.scene <= FirstScene ==> r.scene == FirstScene
    ensures key == HomeKey ==> r.scene == FirstScene
    ensures key == EndKey ==> r.scene == LastScene
    ensures IsNavigationKey(key) ==> Synced(r)
    ensures !IsNavigationKey(key) ==> r == s
  {
    HandleKey(s, key, s.scene)
  }

  /** "Next" never moves backwards and moves at most one scene. */
  lemma NextKeyAdvancesOne(s: Sequencer, key: string)
    requires InRange(s.scene) && key in NextKeys
    ensures s.scene <= OnKey(s, key).scene <= s.scene + 1
    ensures OnKey(s, key).scene == s.scene <==> s.scene == LastScene
  {
  }

  /** "Next" then "previous" returns to the starting scene, except from the
      last scene, where "next" has nowhere to go. */
  lemma NextThenPrevious(s: Sequencer, next: string, prev: string)
    requires InRange(s.scene) && next in NextKeys && prev in PrevKeys
    ensures OnKey(OnKey(s, next), prev).scene ==
              if s.scene < LastScene then s.scene else LastScene - 1
  {
  }

  /** Once the scene is in range, the intended handler keeps it there. */
  lemma OnKeyKeepsRange(s: Sequencer, key: string)
    requires InRange(s.scene)
    ensures InRange(OnKey(s, key).scene)
  {
  }
}
