/** "Click anywhere to go on": a click on the scenes container advances one
    scene unless it landed on a button, a link, or inside the letter card
    or the evasive "No" control. */
module Click {
  import opened Base
  import opened Scenes

  /** A DOM element as far as the handler looks at it. `tagName` is absent
      for targets without one; HTML reports it in upper case. */
  datatype Element = Element(tagName: Option<string>, classes: set<string>)

  /** The event target and its ancestors, nearest first. */
  datatype ClickTarget = ClickTarget(target: Element, ancestors: seq<Element>)

  function LowerChar(c: char): (l: char)
    ensures 'A' <= c <= 'Z' ==> 'a' <= l <= 'z' && l as int - c as int == 32
    ensures !('A' <= c <= 'Z') ==> l == c
  {
    if 'A' <= c <= 'Z' then (c as int + 32) as char else c
  }

  /** `toLowerCase` on the ASCII letters a tag name is made of. */
  function ToLower(s: string): (r: string)
    ensures |r| == |s|
    ensures forall i :: 0 <= i < |s| ==> r[i] == LowerChar(s[i])
  {
    if |s| == 0 then [] else [LowerChar(s[0])] + ToLower(s[1..])
  }

  lemma {:induction false} ToLowerIdempotent(s: string)
    ensures ToLower(ToLower(s)) == ToLower(s)
  {
    var t := ToLower(s);
    assert forall i :: 0 <= i < |t| ==> ToLower(t)[i] == t[i];
  }

  function Tag(e: Element): Option<string> {
    match e.tagName
    case None => None
    case Some(n) => Some(ToLower(n))
  }

  function Path(t: ClickTarget): seq<Element> {
    [t.target] + t.ancestors
  }

  /** `Element.closest('.<cls>')`: the target or one of its ancestors
      carries the class. */
  predicate Closest(t: ClickTarget, cls: string) {
    exists i :: 0 <= i < |Path(t)| && cls in Path(t)[i].classes
  }

  predicate Ignored(t: ClickTarget) {
    || Tag(t.target) == Some("button")
    || Tag(t.target) == Some("a")
    || Closest(t, "card")
    || Closest(t, "no-btn")
  }

  /** `handleContainerClick`. */
  function HandleContainerClick(s: Sequencer, t: ClickTarget): (r: Sequencer)
    ensures Ignored(t) ==> r == s
    ensures !Ignored(t) && FirstScene <= s.scene < LastScene ==> r.scene == s.scene + 1
    ensures !Ignored(t) && s.scene >= LastScene ==> r.scene == LastScene
    ensures !Ignored(t) ==> Synced(r)
  {
    if Ignored(t) then s else GoTo(s, Min(LastScene, s.scene + 1))
  }

  /** A click on a `<BUTTON>` target never navigates, whatever case the
      tag name is reported in. */
  lemma ClickOnButtonIgnored(s: Sequencer, t: ClickTarget)
    requires t.target.tagName.Some? && ToLower(t.target.tagName.value) == "button"
    ensures HandleContainerClick(s, t) == s
  {
  }

  lemma UpperCaseButtonIsButton()
    ensures ToLower("BUTTON") == "button"
  {
    var u := "BUTTON";
    assert ToLower(u)[0] == 'b' && ToLower(u)[1] == 'u' && ToLower(u)[2] == 't';
    assert ToLower(u)[3] == 't' && ToLower(u)[4] == 'o' && ToLower(u)[5] == 'n';
  }

  /** A click anywhere inside the letter card never navigates. */
  lemma ClickInsideCardIgnored(s: Sequencer, t: ClickTarget, k: int)
    requires 0 <= k < |t.ancestors| && "card" in t.ancestors[k].classes
    ensures HandleContainerClick(s, t) == s
  {
    assert Path(t)[k + 1] == t.ancestors[k];
  }

  /** A click on the memory photo (an `IMG` inside `.photo-polaroid`, with
      no `card` around it) bursts hearts and also bubbles to the container,
      so from the memory scene it shows the celebration scene without the
      card being opened. */
  lemma PhotoClickAdvancesFromMemory(s: Sequencer, t: ClickTarget)
    requires s.scene == MemoryScene
    requires t.target == Element(Some("IMG"), {})
    requires |t.ancestors| > 0 && t.ancestors[0] == Element(Some("DIV"), {"photo-polaroid"})
    requires forall i :: 0 <= i < |t.ancestors| ==>
               "card" !in t.ancestors[i].classes && "no-btn" !in t.ancestors[i].classes
    ensures HandleContainerClick(s, t).scene == CelebrationScene
  {
    var n := ToLower("IMG");
    assert n[0] == 'i';
    forall i | 0 <= i < |Path(t)|
      ensures "card" !in Path(t)[i].classes && "no-btn" !in Path(t)[i].classes
    {
      if i > 0 {
        assert Path(t)[i] == t.ancestors[i - 1];
      }
    }
  }

  /** A click on a paragraph with no card or "No" control around it
      advances one scene; on the last scene it stays put. */
  lemma ClickOnBackgroundAdvances(s: Sequencer, t: ClickTarget)
    requires InRange(s.scene)
    requires t.target.tagName == Some("P")
    requires forall i :: 0 <= i < |Path(t)| ==>
               "card" !in Path(t)[i].classes && "no-btn" !in Path(t)[i].classes
    ensures HandleContainerClick(s, t).scene == Min(LastScene, s.scene + 1)
  {
    var n := ToLower("P");
    assert n[0] == 'p';
  }
}
