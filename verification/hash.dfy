/** Reading the starting scene from the URL fragment on mount: the first
    occurrence of `scene-` followed by one ASCII digit (the regular
    expression /scene-(\d)/, unanchored), sent through `goTo`. */
module HashRoute {
  import opened Base
  import opened Scenes

  const Pattern := "scene-"

  predicate IsDigit(c: char) {
    '0' <= c <= '9'
  }

  function DigitValue(c: char): (d: int)
    requires IsDigit(c)
    ensures 0 <= d <= 9
  {
    c as int - '0' as int
  }

  /** The pattern matches starting at position `p` of `h`. */
  predicate MatchesAt(h: string, p: int) {
    && 0 <= p
    && p + |Pattern| < |h|
    && h[p..p + |Pattern|] == Pattern
    && IsDigit(h[p + |Pattern|])
  }

  /** The leftmost match at or after `from`, as a regular-expression
      search tries successive start positions. */
  function FindMatch(h: string, from: nat): (r: Option<nat>)
    decreases |h| - from
    ensures r.Some? ==> from <= r.value && MatchesAt(h, r.value)
    ensures r.Some? ==> forall q :: from <= q < r.value ==> !MatchesAt(h, q)
    ensures r.None? ==> forall q :: from <= q ==> !MatchesAt(h, q)
  {
    if from + |Pattern| >= |h| then None
    else if MatchesAt(h, from) then Some(from)
    else FindMatch(h, from + 1)
  }

  /** `Number(h[1])` of the leftmost match, or no match at all. */
  function ParseSceneHash(h: string): (r: Option<int>)
    ensures r.None? <==> forall p :: !MatchesAt(h, p)
    ensures r.Some? ==> 0 <= r.value <= 9
    ensures r.Some? ==> exists p :: && MatchesAt(h, p)
                                    && (forall q :: 0 <= q < p ==> !MatchesAt(h, q))
                                    && r.value == DigitValue(h[p + |Pattern|])
  {
    match FindMatch(h, 0)
    case None => None
    case Some(p) => Some(DigitValue(h[p + |Pattern|]))
  }

  /** The mount effect: start at scene 0; when the fragment names a digit,
      (after a short delay that is not modelled) `goTo` that digit. A digit
      5 to 9 is clamped to the last scene; without a match nothing changes,
      not even the fragment. */
  function Mount(h: string): (r: Sequencer)
    ensures ParseSceneHash(h).None? ==> r == Initial(h)
    ensures ParseSceneHash(h).Some? ==>
              r.scene == Min(ParseSceneHash(h).value, LastScene) && Synced(r)
  {
    match ParseSceneHash(h)
    case None => Initial(h)
    case Some(d) => GoTo(Initial(h), d)
  }

  /** The fragment `goTo` writes is read back as the same scene. */
  lemma {:induction false} HashOfRoundTrip(i: int)
    requires 0 <= i <= 9
    ensures ParseSceneHash(HashOf(i)) == Some(i)
  {
    var h := HashOf(i);
    assert h[0] == '#';
    assert !MatchesAt(h, 0) by {
      assert h[0..|Pattern|][0] == '#';
    }
    assert h[1..1 + |Pattern|] == Pattern;
    assert MatchesAt(h, 1);
    assert FindMatch(h, 0) == FindMatch(h, 1);
  }

  /** Reloading the page at the fragment the sequencer wrote reopens the
      same scene with the same fragment. */
  lemma ReloadRestoresScene(s: Sequencer)
    requires Synced(s)
    ensures Mount(s.hash) == s
  {
    HashOfRoundTrip(s.scene);
  }

  /** The end-to-end case of opening the page at `#scene-2`. */
  lemma MountAtSceneTwo()
    ensures Mount("#scene-2").scene == 2
  {
    HashOfRoundTrip(2);
  }

  /** A digit beyond the last scene lands on the last scene, not on 0. */
  lemma MountBeyondLastScene()
    ensures Mount("#scene-7") == Sequencer(LastScene, "#scene-4")
  {
    HashOfRoundTrip(7);
  }

  /** Only the first digit after `scene-` is read. */
  lemma {:induction false} MountReadsOneDigit()
    ensures Mount("#scene-12").scene == 1
  {
    var h := "#scene-12";
    assert !MatchesAt(h, 0) by { assert h[0..|Pattern|][0] == '#'; }
    assert h[1..1 + |Pattern|] == Pattern;
    assert MatchesAt(h, 1);
    assert FindMatch(h, 0) == FindMatch(h, 1);
  }

  /** A fragment without the pattern leaves the sequencer at scene 0. */
  lemma {:induction false} MountWithoutMatch(h: string)
    requires forall i :: 0 <= i < |h| ==> !IsDigit(h[i])
    ensures Mount(h) == Initial(h)
  {
    forall p | true
      ensures !MatchesAt(h, p)
    {
      if 0 <= p && p + |Pattern| < |h| {
        assert !IsDigit(h[p + |Pattern|]);
      }
    }
  }
}
