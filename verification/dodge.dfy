/** The evasive "No" button (`dodgeNo`). Each activation with a parent
    element counts one attempt. From the third attempt on, the button is
    tucked at a fixed spot with the final hint. Before that it jumps to a
    random spot of its wrapper at least 60 px from where it last landed,
    drawing at most 31 candidates, and shows an escalating hint.

    `Math.random()` is an oracle: each activation receives the sequence
    of (left, top) draws it may consume, each in [0, 1). Coordinates are
    exact reals. */
module Dodge {
  import opened Base

  datatype Pos = Pos(x: real, y: real)

  /** `clientWidth` / `clientHeight` of the wrapper and of the button. */
  datatype Layout = Layout(parentWidth: nat, parentHeight: nat, buttonWidth: nat, buttonHeight: nat)

  /** One pair of `Math.random()` results: left, then top. */
  datatype Draw = Draw(u: real, v: real)

  /** `attempts` is `noAttempts`, `hint` is `noHint`, `last` is the
      `data-last-x` / `data-last-y` pair, `placed` the inline `left`/`top`
      (none until the first move), `final` the `final` CSS class. */
  datatype NoButton = NoButton(attempts: nat, hint: string, last: Pos, placed: Option<Pos>, final: bool)

  const FinalAfter := 3
  const MaxTries := 30
  const MinDistance := 60.0
  const EdgeInset := 20
  const MinUsable := 20
  const TuckInset := 28
  const TuckMinLeft := 8
  const TuckTop := 8

  const InitialHint := "No \U{1F622}"
  const FinalHint := "Please click on yes \U{2764}\U{FE0F}"
  const Hints := ["Are you sure?", "Think again"]

  /** The default of the `lastX` / `lastY` data attributes. */
  const NeverPlaced := Pos(-9999.0, -9999.0)

  const Initial := NoButton(0, InitialHint, NeverPlaced, None, false)

  /** `pw` and `ph`: free room inside the wrapper, never below 20 px, so a
      wrapper that is not laid out yet still yields a valid range. */
  function UsableWidth(l: Layout): (w: int)
    ensures w >= MinUsable
    ensures l.parentWidth - l.buttonWidth - EdgeInset > MinUsable ==>
              w == l.parentWidth - l.buttonWidth - EdgeInset
    ensures l.parentWidth - l.buttonWidth - EdgeInset <= MinUsable ==> w == MinUsable
  {
    Max(MinUsable, l.parentWidth - l.buttonWidth - EdgeInset)
  }

  function UsableHeight(l: Layout): (h: int)
    ensures h >= MinUsable
    ensures l.parentHeight - l.buttonHeight - EdgeInset > MinUsable ==>
              h == l.parentHeight - l.buttonHeight - EdgeInset
    ensures l.parentHeight - l.buttonHeight - EdgeInset <= MinUsable ==> h == MinUsable
  {
    Max(MinUsable, l.parentHeight - l.buttonHeight - EdgeInset)
  }

  predicate InBounds(p: Pos, l: Layout) {
    && 0.0 <= p.x < UsableWidth(l) as real
    && 0.0 <= p.y < UsableHeight(l) as real
  }

  /** `left = Math.random() * pw; top = Math.random() * ph`: draws in
      [0, 1) give a spot inside the usable range. */
  function Candidate(d: Draw, l: Layout): (p: Pos)
    ensures 0.0 <= d.u < 1.0 && 0.0 <= d.v < 1.0 ==> InBounds(p, l)
    ensures d.u == 0.0 && d.v == 0.0 ==> p == Pos(0.0, 0.0)
  {
    var w, h := UsableWidth(l), UsableHeight(l);
    ScaledBelow(d.u, w);
    ScaledBelow(d.v, h);
    Pos(d.u * w as real, d.v * h as real)
  }

  function Gap(a: real, b: real): (g: real)
    ensures g >= 0.0 && (g == a - b || g == b - a)
  {
    if a >= b then a - b else b - a
  }

  /** `Math.hypot(left - lastX, top - lastY) >= 60`, compared squared. */
  predicate Far(p: Pos, q: Pos) {
    (p.x - q.x) * (p.x - q.x) + (p.y - q.y) * (p.y - q.y) >= MinDistance * MinDistance
  }

  /** What the distance test means: a spot is never far from itself, a
      60 px gap along one axis is always far, and gaps under 42 px along
      both axes are always near. */
  lemma FarMeaning(p: Pos, q: Pos)
    ensures p == q ==> !Far(p, q)
    ensures Gap(p.x, q.x) >= MinDistance || Gap(p.y, q.y) >= MinDistance ==> Far(p, q)
    ensures Gap(p.x, q.x) < 42.0 && Gap(p.y, q.y) < 42.0 ==> !Far(p, q)
  {
    SquareFacts(p.x, q.x);
    SquareFacts(p.y, q.y);
  }

  /** Squares of differences, for the distance test. */
  lemma SquareFacts(x: real, y: real)
    ensures (x - y) * (x - y) >= 0.0
    ensures Gap(x, y) >= 60.0 ==> (x - y) * (x - y) >= 3600.0
    ensures Gap(x, y) < 42.0 ==> (x - y) * (x - y) < 1764.0
  {
    var d := x - y;
    var a := Gap(x, y);
    assert d * d == a * a;
    if a >= 60.0 {
      calc {
        a * a;
      >=
        60.0 * a;
      >=
        60.0 * 60.0;
      }
    }
    if a < 42.0 {
      calc {
        a * a;
      <=
        42.0 * a;
      <
        42.0 * 42.0;
      }
    }
  }

  predicate ValidDraws(ds: seq<Draw>) {
    forall i :: 0 <= i < |ds| ==> 0.0 <= ds[i].u < 1.0 && 0.0 <= ds[i].v < 1.0
  }

  /** The oracle supplies every draw the search may ask for. */
  predicate Supplied(ds: seq<Draw>) {
    MaxTries < |ds| && ValidDraws(ds)
  }

  /** The final spot: near the top right of the wrapper, `left` never
      below 8 px. */
  function Tuck(l: Layout): (p: Pos)
    ensures p.y == TuckTop as real
    ensures p.x >= TuckMinLeft as real
    ensures l.parentWidth - l.buttonWidth - TuckInset >= TuckMinLeft ==>
              p.x + (l.buttonWidth + TuckInset) as real == l.parentWidth as real
    ensures l.parentWidth - l.buttonWidth - TuckInset < TuckMinLeft ==> p.x == TuckMinLeft as real
  {
    Pos(Max(TuckMinLeft, l.parentWidth - l.buttonWidth - TuckInset) as real, TuckTop as real)
  }

  lemma ScaledBelow(u: real, w: int)
    ensures 0.0 <= u < 1.0 && w > 0 ==> 0.0 <= u * w as real < w as real
  {
  }

  lemma CandidateInBounds(d: Draw, l: Layout)
    requires 0.0 <= d.u < 1.0 && 0.0 <= d.v < 1.0
    ensures InBounds(Candidate(d, l), l)
  {
  }

  /** Index of the candidate the retry search settles on, searching from
      `i`: the first one far enough from `last`, or the 31st (index 30),
      which is taken without looking at its distance. */
  function Chosen(ds: seq<Draw>, l: Layout, last: Pos, i: nat): (k: nat)
    requires i <= MaxTries < |ds|
    decreases MaxTries - i
    ensures i <= k <= MaxTries
    ensures forall j :: i <= j < k ==> !Far(Candidate(ds[j], l), last)
    ensures k < MaxTries ==> Far(Candidate(ds[k], l), last)
  {
    if i == MaxTries || Far(Candidate(ds[i], l), last) then i
    else Chosen(ds, l, last, i + 1)
  }

  /** The `do … while` retry loop, step by step. `used` is how many
      candidates it drew. */
  method RetrySearch(ds: seq<Draw>, l: Layout, last: Pos) returns (chosen: Pos, used: nat)
    requires Supplied(ds)
    ensures 1 <= used <= MaxTries + 1
    ensures chosen == Candidate(ds[used - 1], l)
    ensures InBounds(chosen, l)
    ensures forall j :: 0 <= j < used - 1 ==> !Far(Candidate(ds[j], l), last)
    ensures used <= MaxTries ==> Far(chosen, last)
    ensures used - 1 == Chosen(ds, l, last, 0)
  {
    chosen := Candidate(ds[0], l);
    var tries := 1;
    while tries <= MaxTries && !Far(chosen, last)
      invariant 1 <= tries <= MaxTries + 1
      invariant chosen == Candidate(ds[tries - 1], l)
      invariant forall j :: 0 <= j < tries - 1 ==> !Far(Candidate(ds[j], l), last)
      decreases MaxTries + 1 - tries
    {
      chosen := Candidate(ds[tries], l);
      tries := tries + 1;
    }
    used := tries;
    CandidateInBounds(ds[used - 1], l);
  }

  /** The hint shown after `n` counted attempts. */
  function HintFor(n: nat): (h: string)
    ensures n == 0 ==> h == "No \U{1F622}"
    ensures n == 1 ==> h == "Are you sure?"
    ensures n == 2 ==> h == "Think again"
    ensures n >= FinalAfter ==> h == "Please click on yes \U{2764}\U{FE0F}"
  {
    if n == 0 then InitialHint
    else if n >= FinalAfter then FinalHint
    else Hints[Min(n - 1, |Hints| - 1)]
  }

  /** One activation (`mouseenter` or `click`). Without a parent element
      nothing happens, not even the count. */
  function Activate(b: NoButton, parent: Option<Layout>, ds: seq<Draw>): (r: NoButton)
    requires Supplied(ds)
    ensures parent.None? ==> r == b
    ensures parent.Some? ==> r.attempts == b.attempts + 1
    ensures parent.Some? && r.attempts >= FinalAfter ==>
              && r.final && r.hint == FinalHint
              && r.placed == Some(Tuck(parent.value)) && r.last == b.last
    ensures parent.Some? && r.attempts < FinalAfter ==>
              && r.final == b.final
              && r.placed == Some(r.last)
              && InBounds(r.last, parent.value)
              && (Far(r.last, b.last) || r.last == Candidate(ds[MaxTries], parent.value))
    ensures parent.Some? && r.attempts < FinalAfter ==>
              r.last == Candidate(ds[Chosen(ds, parent.value, b.last, 0)], parent.value)
    ensures parent.Some? && r.attempts == 1 ==> r.hint == "Are you sure?"
    ensures parent.Some? && r.attempts == 2 ==> r.hint == "Think again"
  {
    match parent
    case None => b
    case Some(l) =>
      var n := b.attempts + 1;
      if n >= FinalAfter then
        b.(attempts := n, hint := FinalHint, placed := Some(Tuck(l)), final := true)
      else
        var k := Chosen(ds, l, b.last, 0);
        CandidateInBounds(ds[k], l);
        var p := Candidate(ds[k], l);
        b.(attempts := n, hint := Hints[Min(n - 1, |Hints| - 1)], last := p, placed := Some(p))
  }

  /** `dodgeNo` with its loop: the same outcome as `Activate`, and how many
      candidate pairs it drew from the oracle. */
  method DodgeNo(b: NoButton, parent: Option<Layout>, ds: seq<Draw>) returns (r: NoButton, used: nat)
    requires Supplied(ds)
    ensures r == Activate(b, parent, ds)
    ensures used <= MaxTries + 1
    ensures used == 0 <==> parent.None? || b.attempts + 1 >= FinalAfter
    ensures used >= 1 ==> parent.Some? && r.last == Candidate(ds[used - 1], parent.value)
  {
    if parent.None? {
      return b, 0;
    }
    var l := parent.value;
    var n := b.attempts + 1;
    if n >= FinalAfter {
      r := b.(attempts := n, hint := FinalHint, placed := Some(Tuck(l)), final := true);
      used := 0;
      return;
    }
    var p;
    p, used := RetrySearch(ds, l, b.last);
    r := b.(attempts := n, hint := Hints[Min(n - 1, |Hints| - 1)], last := p, placed := Some(p));
  }

  /** The state a button can be in: final exactly from the third attempt,
      moved exactly once it has been activated, hint matching the count. */
  predicate Valid(b: NoButton) {
    && (b.final <==> b.attempts >= FinalAfter)
    && (b.placed.None? <==> b.attempts == 0)
    && b.hint == HintFor(b.attempts)
  }

  lemma InitialValid()
    ensures Valid(Initial)
  {
  }

  lemma DodgePreservesValid(b: NoButton, parent: Option<Layout>, ds: seq<Draw>)
    requires Valid(b) && Supplied(ds)
    ensures Valid(Activate(b, parent, ds))
  {
  }

  /** Once tucked, further activations in the same layout only count: the
      hint, the spot and the recorded last position stay. */
  lemma FinalIsStable(b: NoButton, l: Layout, ds: seq<Draw>)
    requires Valid(b) && b.final && b.placed == Some(Tuck(l)) && Supplied(ds)
    ensures Activate(b, Some(l), ds) == b.(attempts := b.attempts + 1)
  {
  }

  /** The very first move takes the first draw: nothing in the wrapper is
      within 60 px of the default (-9999, -9999). */
  lemma FirstMoveTakesFirstDraw(l: Layout, ds: seq<Draw>)
    requires Supplied(ds)
    ensures Activate(Initial, Some(l), ds).last == Candidate(ds[0], l)
  {
    var c := Candidate(ds[0], l);
    CandidateInBounds(ds[0], l);
    var dx := c.x - NeverPlaced.x;
    assert dx >= 9999.0;
    assert dx * dx >= 9999.0 * dx >= 9999.0 * 9999.0;
    assert (c.y - NeverPlaced.y) * (c.y - NeverPlaced.y) >= 0.0;
    assert Far(c, NeverPlaced);
  }

  lemma SquareBelow(d: real, w: real)
    requires w > 0.0 && -w < d < w
    ensures d * d < w * w
  {
    var a := if d >= 0.0 then d else -d;
    calc {
      d * d;
    ==
      a * a;
    <=
      a * w;
    <
      w * w;
    }
  }

  /** Two spots of the smallest usable area (20 x 20) are never 60 px
      apart. */
  lemma SmallAreaIsNear(p: Pos, q: Pos, l: Layout)
    requires UsableWidth(l) == MinUsable && UsableHeight(l) == MinUsable
    requires InBounds(p, l) && InBounds(q, l)
    ensures !Far(p, q)
  {
    SquareBelow(p.x - q.x, 20.0);
    SquareBelow(p.y - q.y, 20.0);
  }

  /** In a wrapper with no room beyond the 20 px floor, once the button has
      landed inside it every later search exhausts all 31 draws and keeps
      the last one: the retry bound is what ends the loop. */
  lemma SmallAreaExhaustsSearch(ds: seq<Draw>, l: Layout, last: Pos)
    requires Supplied(ds)
    requires UsableWidth(l) == MinUsable && UsableHeight(l) == MinUsable
    requires InBounds(last, l)
    ensures Chosen(ds, l, last, 0) == MaxTries
  {
    var k := Chosen(ds, l, last, 0);
    if k < MaxTries {
      CandidateInBounds(ds[k], l);
      SmallAreaIsNear(Candidate(ds[k], l), last, l);
      assert false;
    }
  }

  /** One pointer event reaching the button: its parent (if any) and the
      random draws available to it. */
  datatype Activation = Activation(parent: Option<Layout>, draws: seq<Draw>)

  predicate AllSupplied(acts: seq<Activation>) {
    forall i :: 0 <= i < |acts| ==> Supplied(acts[i].draws)
  }

  /** How many of the activations had a parent element. */
  function Counted(acts: seq<Activation>): (n: nat)
    ensures n <= |acts|
  {
    if |acts| == 0 then 0
    else (if acts[0].parent.Some? then 1 else 0) + Counted(acts[1..])
  }

  /** A run of activations, oldest first. */
  function DodgeAll(b: NoButton, acts: seq<Activation>): (r: NoButton)
    requires AllSupplied(acts)
    decreases |acts|
    ensures r.attempts == b.attempts + Counted(acts)
    ensures r.attempts >= b.attempts
  {
    if |acts| == 0 then b
    else DodgeAll(Activate(b, acts[0].parent, acts[0].draws), acts[1..])
  }

  lemma {:induction false} DodgeAllPreservesValid(b: NoButton, acts: seq<Activation>)
    requires Valid(b) && AllSupplied(acts)
    ensures Valid(DodgeAll(b, acts))
    decreases |acts|
  {
    if |acts| > 0 {
      DodgePreservesValid(b, acts[0].parent, acts[0].draws);
      DodgeAllPreservesValid(Activate(b, acts[0].parent, acts[0].draws), acts[1..]);
    }
  }

  /** After a run that counted at least three attempts, the button is
      final and shows the final hint. */
  lemma RunReachesFinal(acts: seq<Activation>)
    requires AllSupplied(acts) && Counted(acts) >= FinalAfter
    ensures DodgeAll(Initial, acts).final
    ensures DodgeAll(Initial, acts).hint == FinalHint
  {
    DodgeAllPreservesValid(Initial, acts);
  }

  /** Three activations in one layout: hints "Are you sure?", "Think
      again", then the final hint at the tucked spot. */
  lemma ThreeActivations(l: Layout, d1: seq<Draw>, d2: seq<Draw>, d3: seq<Draw>)
    requires Supplied(d1) && Supplied(d2) && Supplied(d3)
    ensures var b1 := Activate(Initial, Some(l), d1);
            var b2 := Activate(b1, Some(l), d2);
            var b3 := Activate(b2, Some(l), d3);
            && b1.hint == "Are you sure?" && b2.hint == "Think again"
            && b3.hint == FinalHint && b3.final && b3.placed == Some(Tuck(l))
  {
  }
}
