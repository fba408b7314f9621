/** The root component: the scene sequencer and the "No" button side by
    side, and every user action wired to one of them. "Yes" and the "No"
    control stop their events. The clicks of the other buttons reach the
    container, which ignores a `button` target (`Click.ClickOnButtonIgnored`).
    So each action still touches exactly one part of the state. */
module App {
  import opened Base
  import opened Scenes
  import HashRoute
  import Keyboard
  import Click
  import Dodge

  datatype AppState = AppState(nav: Sequencer, no: Dodge.NoButton)

  datatype Action =
    | OpenIt
    | ContinueReading
    | Yes
    | Reveal
    | KeyDown(key: string)
    | ContainerClick(target: Click.ClickTarget)
    | NoActivated(activation: Dodge.Activation)

  /** Actions whose random draws cover what `dodgeNo` may ask for. */
  predicate Wellformed(a: Action) {
    a.NoActivated? ==> Dodge.Supplied(a.activation.draws)
  }

  /** The page after mounting at fragment `hash`. */
  function Start(hash: string): (r: AppState)
    ensures r.no == Dodge.Initial
    ensures HashRoute.ParseSceneHash(hash).None? ==> r.nav.scene == InitialScene
  {
    AppState(HashRoute.Mount(hash), Dodge.Initial)
  }

  /** One user action. A key press goes to the corrected handler
      `Keyboard.OnKey`; the registered one reads a stale scene. */
  function Step(st: AppState, a: Action): (r: AppState)
    requires Wellformed(a)
    ensures !a.NoActivated? ==> r.no == st.no
    ensures a.NoActivated? ==> r.nav == st.nav
    ensures a.Yes? ==> r.nav.scene == MemoryScene
    ensures a.Reveal? ==> r.nav.scene == CelebrationScene
  {
    match a
    case OpenIt => st.(nav := OpenLetter(st.nav))
    case ContinueReading => st.(nav := ContinueToQuestion(st.nav))
    case Yes => st.(nav := OnYes(st.nav))
    case Reveal => st.(nav := GoTo(RevealCard(st.nav), CelebrationScene))
    case KeyDown(k) => st.(nav := Keyboard.OnKey(st.nav, k))
    case ContainerClick(t) => st.(nav := Click.HandleContainerClick(st.nav, t))
    case NoActivated(act) => st.(no := Dodge.Activate(st.no, act.parent, act.draws))
  }

  /** Everything the page keeps true: the scene is one of the five, and
      the button's state is one `dodgeNo` can produce. */
  predicate Invariant(st: AppState) {
    InRange(st.nav.scene) && Dodge.Valid(st.no)
  }

  lemma StartInvariant(hash: string)
    ensures Invariant(Start(hash))
  {
  }

  lemma StepInvariant(st: AppState, a: Action)
    requires Invariant(st) && Wellformed(a)
    ensures Invariant(Step(st, a))
  {
    if a.NoActivated? {
      Dodge.DodgePreservesValid(st.no, a.activation.parent, a.activation.draws);
    } else if a.KeyDown? {
      Keyboard.OnKeyKeepsRange(st.nav, a.key);
    }
  }

  /** A session of actions, oldest first. */
  function Run(st: AppState, acts: seq<Action>): (r: AppState)
    requires forall i :: 0 <= i < |acts| ==> Wellformed(acts[i])
    decreases |acts|
    ensures r.no.attempts >= st.no.attempts
  {
    if |acts| == 0 then st else Run(Step(st, acts[0]), acts[1..])
  }

  /** Whatever the user does, the scene never leaves 0..4 and the "No"
      button's count never goes down. */
  lemma {:induction false} RunInvariant(st: AppState, acts: seq<Action>)
    requires Invariant(st)
    requires forall i :: 0 <= i < |acts| ==> Wellformed(acts[i])
    ensures Invariant(Run(st, acts))
    decreases |acts|
  {
    if |acts| > 0 {
      StepInvariant(st, acts[0]);
      RunInvariant(Step(st, acts[0]), acts[1..]);
    }
  }

  /** Once any navigation has happened the fragment names the scene, and
      every later action keeps it so. */
  lemma StepKeepsSynced(st: AppState, a: Action)
    requires Synced(st.nav) && Wellformed(a)
    ensures Synced(Step(st, a).nav)
  {
  }

  /** "Open it" bubbles to the container after its own `goTo(1)`; the
      container sees a `BUTTON` target and leaves the state alone. */
  lemma OpenItClickBubblesHarmlessly(s: Sequencer)
    ensures var t := Click.ClickTarget(Click.Element(Some("BUTTON"), {"open-btn"}), []);
            Click.HandleContainerClick(OpenLetter(s), t) == OpenLetter(s)
  {
    Click.UpperCaseButtonIsButton();
  }

  /** The narrative path: open the letter, continue, say yes, open the
      card, visiting scenes 1, 2, 3, 4 in order from any starting point. */
  lemma NarrativePath(hash: string)
    ensures var s0 := Start(hash);
            var s1 := Step(s0, OpenIt);
            var s2 := Step(s1, ContinueReading);
            var s3 := Step(s2, Yes);
            var s4 := Step(s3, Reveal);
            && s1.nav.scene == LetterScene && s2.nav.scene == QuestionScene
            && s3.nav.scene == MemoryScene && s4.nav.scene == CelebrationScene
            && s4.nav.hash == "#scene-4"
  {
  }
}
