# Valentine scenes: a Dafny model of the interactive core

The page is a five-scene animated greeting: Landing, Letter, Question, Memory, Celebration. This project models the two small state machines inside its one React component, `src/App.js`:

- **The scene sequencer.** This covers `goTo`, the URL fragment `#scene-<i>` it writes, and every input that drives it:
  - the "Open it" and "Continue" buttons;
  - "Yes" (`onYes`), and "Open the card" (`revealCard`, then the `goTo(4)` that the delayed `celebrate` starts with);
  - the arrow, page, Home and End keys (`onKey`);
  - a click on the scenes container (`handleContainerClick`);
  - the fragment read on mount (`/scene-(\d)/`).
- **The evasive "No" button (`dodgeNo`).** This covers:
  - the attempt counter and the escalating hint;
  - the bounded retry search for a spot at least 60 px from the last one;
  - the final "tucked" position from the third attempt on.

Each piece of state is an immutable datatype (`Scenes.Sequencer`, `Dodge.NoButton`, `App.AppState`), and each handler is a pure function of it. `Math.random()` is an oracle: every activation of the "No" button receives the sequence of (left, top) draws it may consume. The `do … while` retry loop is a method (`Dodge.RetrySearch`). Its postcondition states that the index it settles on equals the recursive reference definition `Dodge.Chosen`.

Modules: `Base` (Option, min/max), `Scenes`, `HashRoute`, `Keyboard`, `Click`, `Dodge` and `App` (the composition: `Step` and `Run` over user actions).

Four behaviours of the code are easy to misread:

- A fragment digit from 5 to 9 goes through `goTo` and is clamped to scene 4. It is not reset to scene 0 (`HashRoute.MountBeyondLastScene`).
- A wrapper with no room does not skip the move. The usable width and height are floored at 20 px. The only early return is a missing parent element (`Dodge.UsableWidth`, `Dodge.Activate`).
- A click on the memory photo bursts hearts and also reaches the container, which advances to the celebration scene without the card shower (`Click.PhotoClickAdvancesFromMemory`).
- The keyboard handler reads a stale scene value. See Findings. The composition `App.Step` uses the corrected handler `Keyboard.OnKey`.

## Model

| member | source | states |
|---|---|---|
| Scenes.HashOf | src/App.js:23 | the fragment is `#scene-` followed by one character whose digit value is the scene |
| Scenes.Clamp | src/App.js:16 | the clamped index is always one of the five scenes; it equals the request when that is in range, and is 0 below and 4 above |
| Scenes.GoTo | src/App.js:15-25 | any integer request lands on scene 0 below range, 4 above range, the request itself inside it, and the fragment written is `#scene-<that scene>` |
| Scenes.GoToIdempotent | src/App.js:15-25 | the outcome of `goTo` does not depend on the previous scene, and repeating a request changes nothing |
| Scenes.GoToCurrentIsNoOp | src/App.js:15-25 | a `goTo` to the scene already showing, with the fragment already in sync, leaves the state unchanged |
| Scenes.OpenLetter | src/App.js:210 | "Open it" always shows the letter scene (1), fragment in sync |
| Scenes.ContinueToQuestion | src/App.js:232 | "Continue" always shows the question scene (2), fragment in sync |
| Scenes.OnYes | src/App.js:195-200 | "Yes" always shows the memory scene (3), whatever the current scene |
| Scenes.RevealCard | src/App.js:90-93 | "Open the card" always shows the celebration scene (4), whatever the current scene |
| Scenes.RevealThenCelebrate | src/App.js:90-97 | the delayed second navigation of `celebrate` changes nothing: the page rests at scene 4 with fragment `#scene-4` |
| HashRoute.FindMatch | src/App.js:48 | returns the leftmost position where `scene-` is followed by a digit, and none exactly when no position matches |
| HashRoute.ParseSceneHash | src/App.js:48-50 | no result exactly when the fragment has no `scene-<digit>`; otherwise the value (0 to 9) of the digit at the leftmost match |
| HashRoute.Mount | src/App.js:47-52 | without a match the page stays at scene 0 with the fragment untouched; with digit d it shows min(d, 4) and rewrites the fragment |
| HashRoute.HashOfRoundTrip | src/App.js:48-50 | parsing the fragment `#scene-<i>` yields i, for every digit i |
| HashRoute.ReloadRestoresScene | src/App.js:47-52 | mounting at the fragment the sequencer wrote reproduces the same scene and fragment |
| HashRoute.MountAtSceneTwo | src/App.js:48-51 | opening the page at `#scene-2` shows scene 2 |
| HashRoute.MountBeyondLastScene | src/App.js:48-51 | `#scene-7` shows scene 4 with fragment `#scene-4` |
| HashRoute.MountReadsOneDigit | src/App.js:48 | only the first digit after `scene-` is read: `#scene-12` shows scene 1 |
| HashRoute.MountWithoutMatch | src/App.js:48-49 | a fragment containing no digit leaves the page at scene 0 with the fragment unchanged |
| Keyboard.HandleKey | src/App.js:54-59 | ArrowDown/PageDown request min(4, seen+1), ArrowUp/PageUp request max(0, seen-1), Home requests 0, End requests 4, and any other key changes nothing |
| Keyboard.OnKeyAsWritten | src/App.js:53-63 | as registered, next keys always land on scene 1 and previous keys always on scene 0, whatever scene is showing |
| Keyboard.StaleNextKeyMovesBackward | src/App.js:55 | from scene 3, ArrowDown as written shows scene 1 |
| Keyboard.OnKeyAsWrittenKeepsRange | src/App.js:54-59 | the handler as written also never takes the scene outside 0..4 |
| Keyboard.OnKey | src/App.js:54-59 | reading the current scene: next keys advance one scene (staying at 4), previous keys go back one (staying at 0), Home gives 0, End gives 4, other keys change nothing |
| Keyboard.NextKeyAdvancesOne | src/App.js:55 | a next key moves forward by at most one scene, and stays put exactly on the last scene |
| Keyboard.NextThenPrevious | src/App.js:55-56 | a next key followed by a previous key returns to the starting scene, except from scene 4, which ends at 3 |
| Keyboard.OnKeyKeepsRange | src/App.js:54-59 | key handling never takes the scene outside 0..4 |
| Click.ToLower | src/App.js:67 | lower-casing keeps the length and lowers each ASCII capital letter, leaving other characters alone |
| Click.ToLowerIdempotent | src/App.js:67 | lower-casing twice is lower-casing once |
| Click.HandleContainerClick | src/App.js:66-70 | a click on a button, a link, or inside `.card` or `.no-btn` changes nothing; any other click advances one scene, and scene 4 stays at 4 |
| Click.ClickOnButtonIgnored | src/App.js:67-68 | a target whose tag name lowers to `button` never navigates |
| Click.UpperCaseButtonIsButton | src/App.js:67 | the DOM's upper-case `BUTTON` lowers to `button` |
| Click.ClickInsideCardIgnored | src/App.js:68 | a target with any ancestor of class `card` never navigates |
| Click.PhotoClickAdvancesFromMemory | src/App.js:260 | a click on the memory photo also reaches the container and moves from scene 3 to scene 4, skipping "Open the card" |
| Click.ClickOnBackgroundAdvances | src/App.js:66-70 | a click on a paragraph with no `card` or `no-btn` element on its path advances to min(4, scene+1) |
| Dodge.UsableWidth | src/App.js:165 | the horizontal range is the wrapper width minus the button width minus 20 when that exceeds 20 px, and exactly 20 px otherwise |
| Dodge.UsableHeight | src/App.js:166 | the vertical range is the wrapper height minus the button height minus 20 when that exceeds 20 px, and exactly 20 px otherwise |
| Dodge.Tuck | src/App.js:158-159 | the final spot is 8 px from the top; its left is 28 px plus the button width from the right edge when that leaves at least 8 px, and exactly 8 px otherwise |
| Dodge.Candidate | src/App.js:172-173 | a candidate made from two draws in [0, 1) lies inside the usable range, and draws of 0 give the top-left corner |
| Dodge.FarMeaning | src/App.js:176 | a spot is never far from itself, a 60 px gap along one axis is always far, and gaps under 42 px along both axes are always near |
| Dodge.HintFor | src/App.js:187-188 | the hint is "No 😢" before any attempt, "Are you sure?" after one, "Think again" after two, and the final hint from three on |
| Dodge.CandidateInBounds | src/App.js:172-173 | a candidate made from draws in [0, 1) lies in [0, pw) x [0, ph) |
| Dodge.Chosen | src/App.js:170-176 | the search settles on the first candidate at least 60 px from the last position, or on the 31st candidate when none of the first 30 is |
| Dodge.RetrySearch | src/App.js:167-178 | the loop draws between 1 and 31 candidates; every rejected candidate is nearer than 60 px; the result is in bounds; it is at least 60 px away unless all 31 draws were used; it agrees with `Chosen` |
| Dodge.Activate | src/App.js:144-191 | with no parent nothing changes; otherwise the count rises by exactly 1; from 3 on the hint is final, the spot is the tuck and the last position is kept; below 3 the button lands on the candidate `Chosen` picks (in bounds, far from the last spot or the 31st draw), with hint "Are you sure?" then "Think again" |
| Dodge.DodgeNo | src/App.js:144-191 | the handler with its loop has the same outcome as `Activate`, draws from the oracle only when it moves the button, and lands on the last candidate it drew |
| Dodge.InitialValid | src/App.js:7-8 | the button starts with count 0, hint "No 😢", not moved, not final |
| Dodge.DodgePreservesValid | src/App.js:150-191 | each activation keeps "final exactly from the third attempt, moved exactly once activated, hint matching the count" |
| Dodge.FinalIsStable | src/App.js:153-161 | once tucked, further activations in the same layout only raise the count |
| Dodge.FirstMoveTakesFirstDraw | src/App.js:168-176 | the first move always accepts its first candidate, since the default last position (-9999, -9999) is far from every spot |
| Dodge.SmallAreaIsNear | src/App.js:165-176 | two spots of a 20 x 20 px range are never 60 px apart |
| Dodge.SmallAreaExhaustsSearch | src/App.js:170-176 | in a 20 x 20 px range, once the button is inside it, every search uses all 31 draws, so the retry bound is what ends the loop |
| Dodge.DodgeAll | src/App.js:150-151 | after a run of activations the count has risen by exactly the number that had a parent, so it never decreases |
| Dodge.DodgeAllPreservesValid | src/App.js:150-191 | a run of activations keeps the button state valid |
| Dodge.RunReachesFinal | src/App.js:153-154 | after three counted activations the button is final with the final hint |
| Dodge.ThreeActivations | src/App.js:150-191 | three activations show "Are you sure?", "Think again", then the final hint at the tucked spot |
| App.Start | src/App.js:6-9 | the page starts with a fresh "No" button, and at scene 0 when the fragment has no match |
| App.Step | src/App.js:202-285 | a "No" activation never changes the scene, any other action never changes the "No" button, "Yes" shows scene 3 and revealing shows scene 4 |
| App.StartInvariant | src/App.js:6-9 | the starting state has its scene in 0..4 and a valid "No" button |
| App.StepInvariant | src/App.js:202-285 | every action keeps the scene in 0..4 and the "No" button valid |
| App.Run | src/App.js:150-151 | the "No" attempt count never decreases over a session |
| App.RunInvariant | src/App.js:202-285 | the invariant holds after any session of actions |
| App.StepKeepsSynced | src/App.js:21-23 | once the fragment names the scene, every action keeps it so |
| App.OpenItClickBubblesHarmlessly | src/App.js:210 | the "Open it" click that reaches the container after `goTo(1)` leaves the letter scene unchanged |
| App.NarrativePath | src/App.js:210-267 | Open it, Continue, Yes, Open the card show scenes 1, 2, 3, 4 in order, ending at fragment `#scene-4` |

## Left out

- Particle effects (`burstHearts`, `burstFlowers`, `celebrate`'s petal and heart shower): DOM node creation, random float styling and timed removal, with no state the model keeps.
- Scroll synchronisation (`round(scrollTop / innerHeight)` debounced with `requestAnimationFrame`): event-loop timing and floating-point division. In the code this path is also not clamped. The model's scene therefore changes only through `goTo`.
- The transition speed `max(0.04, 0.6 * 0.7^(n-1))`: floating point only, and it does not feed back into any state.
- `scrollIntoView`, the `replaceState` try/catch, inline style and CSS class assignment (other than the `final` flag), JSX rendering, and the `Scene` and `Background` components: browser APIs and presentation.
- Timers: the 60 ms delay before the mount `goTo` and the 500 ms delay before `celebrate` are collapsed. User actions arriving within those delays are not interleaved.
- Floating point: positions, draws and the distance test are exact reals. Rounding of `Math.random() * pw` up to `pw`, and the string round trip of `data-last-x`, are not modelled.
- React's double invocation of state updaters in development mode is not modelled. Each activation runs its updater once.
- `Click.ToLower` lowers only ASCII capitals. Tag names are ASCII.
- App.Step: a key press uses the corrected handler `Keyboard.OnKey`, not the handler the page registers (`Keyboard.OnKeyAsWritten`, see Findings). So `Step`, `StepInvariant`, `Run` and `RunInvariant` describe the page with that one defect repaired. `Keyboard.OnKeyAsWrittenKeepsRange` shows the range invariant holds for the handler as written too.
- Dodge.Activate: requires an oracle of at least 31 draws in [0, 1). This stands for the unbounded `Math.random()` stream, even on the branches that draw nothing.

## Findings

| source | as written | input that shows it | evidently intended | confidence | as-written member | corrected member |
|---|---|---|---|---|---|---|
| src/App.js:53-63 | The key listener is registered by an effect with an empty dependency list. It keeps the scene value of the first render (0) forever, so ArrowDown/PageDown always request scene 1 and ArrowUp/PageUp always request scene 0. | Scene 3 showing, press ArrowDown: the page goes back to scene 1. | Next and previous move one scene from the scene showing: ArrowDown at scene 3 shows scene 4. | high (not executed) | Keyboard.OnKeyAsWritten, Keyboard.StaleNextKeyMovesBackward | Keyboard.OnKey, Keyboard.NextKeyAdvancesOne |
