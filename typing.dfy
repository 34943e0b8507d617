/**
  The hero banner's typewriter: it types the current title one character per tick, pauses,
  deletes it one character per tick, pauses again and moves on to the next title, cyclically.
  Each tick returns the delay before the next one.
 */
module Typing {
  /** The titles the banner cycles through. */
  const HeroTexts: seq<string> := ["Full Stack Developer", "MERN Stack Developer"]

  const TypeDelay: nat := 100
  const DeleteDelay: nat := 50
  const HoldDelay: nat := 2000
  const NextTextDelay: nat := 500

  /** A list the typewriter can cycle through: at least one title, none empty. */
  predicate WellFormed(texts: seq<string>) {
    |texts| > 0 && forall i :: 0 <= i < |texts| ==> |texts[i]| > 0
  }

  datatype TypingState = TypingState(textIndex: nat, charIndex: int, isDeleting: bool, currentText: string)

  /** The state before the first tick. */
  const Start: TypingState := TypingState(0, 0, false, "")

  /** `s.substring(0, k)`: the bound is clamped into `0..|s|`. */
  function Prefix(s: string, k: int): (r: string)
    ensures |r| == if k < 0 then 0 else if k > |s| then |s| else k
    ensures r <= s
  {
    if k <= 0 then [] else if k >= |s| then s else s[..k]
  }

  /** The states a tick can see: the shown text is the first `charIndex` characters of the
      current title; while typing at least one character is still missing, while deleting at
      least one is still shown. */
  ghost predicate Inv(texts: seq<string>, st: TypingState) {
    WellFormed(texts) && st.textIndex < |texts|
    && (if st.isDeleting then 1 <= st.charIndex <= |texts[st.textIndex]|
        else 0 <= st.charIndex < |texts[st.textIndex]|)
    && st.currentText == texts[st.textIndex][..st.charIndex]
  }

  datatype Tick = Tick(state: TypingState, delay: nat)

  /** One call of `type()`: the new state and the delay before the next call. */
  function Next(texts: seq<string>, st: TypingState): (r: Tick)
    requires Inv(texts, st)
    ensures Inv(texts, r.state)
    ensures r.state.charIndex == if st.isDeleting then st.charIndex - 1 else st.charIndex + 1
    ensures r.delay == HoldDelay <==> !st.isDeleting && r.state.isDeleting
    ensures r.delay == NextTextDelay <==> st.isDeleting && !r.state.isDeleting
    ensures r.state.isDeleting == if st.isDeleting then r.state.charIndex > 0 else r.state.charIndex == |texts[st.textIndex]|
    ensures !st.isDeleting && !r.state.isDeleting ==> r.delay == TypeDelay
    ensures st.isDeleting && r.state.isDeleting ==> r.delay == DeleteDelay
    ensures r.delay in {TypeDelay, DeleteDelay, HoldDelay, NextTextDelay}
    ensures r.state.textIndex == if r.delay == NextTextDelay then (st.textIndex + 1) % |texts| else st.textIndex
  {
    var full := texts[st.textIndex];
    var ci := if st.isDeleting then st.charIndex - 1 else st.charIndex + 1;
    var shown := Prefix(full, ci);
    if !st.isDeleting && ci == |full| then
      Tick(TypingState(st.textIndex, ci, true, shown), HoldDelay)
    else if st.isDeleting && ci == 0 then
      Tick(TypingState((st.textIndex + 1) % |texts|, ci, false, shown), NextTextDelay)
    else
      Tick(TypingState(st.textIndex, ci, st.isDeleting, shown), if st.isDeleting then DeleteDelay else TypeDelay)
  }

  /** `n` ticks in a row: the state reached and the total time spent waiting. */
  function Run(texts: seq<string>, st: TypingState, n: nat): (r: Tick)
    requires Inv(texts, st)
    ensures Inv(texts, r.state)
    decreases n
  {
    if n == 0 then Tick(st, 0)
    else
      var first := Next(texts, st);
      var rest := Run(texts, first.state, n - 1);
      Tick(rest.state, first.delay + rest.delay)
  }

  /** The typewriter object: the closure variables of `initTypingEffect` as fields. */
  class Typewriter {
    const texts: seq<string>
    var textIndex: nat
    var charIndex: int
    var isDeleting: bool
    var currentText: string

    function State(): TypingState
      reads this
    {
      TypingState(textIndex, charIndex, isDeleting, currentText)
    }

    ghost predicate Valid()
      reads this
    {
      Inv(texts, State())
    }

    constructor ()
      ensures Valid() && State() == Start && texts == HeroTexts
    {
      texts := HeroTexts;
      textIndex := 0;
      charIndex := 0;
      isDeleting := false;
      currentText := "";
    }

    /** `type()`: advance one character and return the delay it schedules the next call with. */
    method Step() returns (delay: nat)
      requires Valid()
      modifies this
      ensures Valid()
      ensures Tick(State(), delay) == Next(texts, old(State()))
    {
      var fullText := texts[textIndex];
      if isDeleting {
        currentText := Prefix(fullText, charIndex - 1);
        charIndex := charIndex - 1;
      } else {
        currentText := Prefix(fullText, charIndex + 1);
        charIndex := charIndex + 1;
      }
      delay := if isDeleting then DeleteDelay else TypeDelay;
      if !isDeleting && charIndex == |fullText| {
        delay := HoldDelay;
        isDeleting := true;
      } else if isDeleting && charIndex == 0 {
        isDeleting := false;
        textIndex := (textIndex + 1) % |texts|;
        delay := NextTextDelay;
      }
    }
  }
}

module TypingProperties {
  import opened Typing

  /** Running `a` ticks and then `b` more is running `a + b` ticks. */
  lemma {:induction false} RunAppend(texts: seq<string>, st: TypingState, a: nat, b: nat)
    requires Inv(texts, st)
    ensures Run(texts, Run(texts, st, a).state, b).state == Run(texts, st, a + b).state
    ensures Run(texts, st, a).delay + Run(texts, Run(texts, st, a).state, b).delay == Run(texts, st, a + b).delay
    decreases a
  {
    if a > 0 {
      RunAppend(texts, Next(texts, st).state, a - 1, b);
    }
  }

  /** While typing, each tick shows one more character of the title, 100 ms apart. */
  lemma {:induction false} TypingPhase(texts: seq<string>, ti: nat, c: nat, k: nat)
    requires WellFormed(texts) && ti < |texts| && c + k < |texts[ti]|
    ensures Run(texts, TypingState(ti, c, false, texts[ti][..c]), k)
      == Tick(TypingState(ti, c + k, false, texts[ti][..c + k]), TypeDelay * k)
    decreases k
  {
    if k > 0 {
      var st := TypingState(ti, c, false, texts[ti][..c]);
      assert Next(texts, st) == Tick(TypingState(ti, c + 1, false, texts[ti][..c + 1]), TypeDelay);
      TypingPhase(texts, ti, c + 1, k - 1);
    }
  }

  /** While deleting, each tick shows one character less, 50 ms apart. */
  lemma {:induction false} DeletingPhase(texts: seq<string>, ti: nat, c: nat, k: nat)
    requires WellFormed(texts) && ti < |texts| && k < c <= |texts[ti]|
    ensures Run(texts, TypingState(ti, c, true, texts[ti][..c]), k)
      == Tick(TypingState(ti, c - k, true, texts[ti][..c - k]), DeleteDelay * k)
    decreases k
  {
    if k > 0 {
      var st := TypingState(ti, c, true, texts[ti][..c]);
      assert Next(texts, st) == Tick(TypingState(ti, c - 1, true, texts[ti][..c - 1]), DeleteDelay);
      DeletingPhase(texts, ti, c - 1, k - 1);
    }
  }

  /** The state in which title `ti` is about to be typed from scratch. */
  function Fresh(ti: nat): TypingState {
    TypingState(ti, 0, false, "")
  }

  /** One full cycle on a title of length `L`: `L` ticks type it (the last one holds for two
      seconds), `L` ticks delete it (the last one waits half a second), and the next title is
      up, after 150 * (L - 1) + 2500 ms in all. */
  lemma FullCycle(texts: seq<string>, ti: nat)
    requires WellFormed(texts) && ti < |texts|
    ensures Run(texts, Fresh(ti), 2 * |texts[ti]|)
      == Tick(Fresh((ti + 1) % |texts|), 150 * (|texts[ti]| - 1) + HoldDelay + NextTextDelay)
  {
    var full := texts[ti];
    var L := |full|;
    var s0 := Fresh(ti);
    assert s0 == TypingState(ti, 0, false, full[..0]);
    TypingPhase(texts, ti, 0, L - 1);
    var s1 := TypingState(ti, L - 1, false, full[..L - 1]);
    var s2 := TypingState(ti, L, true, full[..L]);
    assert Next(texts, s1) == Tick(s2, HoldDelay);
    assert Run(texts, s1, 1) == Tick(s2, HoldDelay);
    RunAppend(texts, s0, L - 1, 1);
    DeletingPhase(texts, ti, L, L - 1);
    var s3 := TypingState(ti, 1, true, full[..1]);
    assert Next(texts, s3) == Tick(Fresh((ti + 1) % |texts|), NextTextDelay);
    assert Run(texts, s3, 1) == Tick(Fresh((ti + 1) % |texts|), NextTextDelay);
    RunAppend(texts, s2, L - 1, 1);
    RunAppend(texts, s0, L, L);
  }

  /** A typewriter with two titles comes back to its start after typing and deleting both. */
  lemma TwoTitlePeriod(texts: seq<string>)
    requires WellFormed(texts) && |texts| == 2
    ensures Run(texts, Fresh(0), 2 * |texts[0]| + 2 * |texts[1]|)
      == Tick(Fresh(0), 150 * (|texts[0]| - 1) + 150 * (|texts[1]| - 1) + 2 * (HoldDelay + NextTextDelay))
  {
    FullCycle(texts, 0);
    FullCycle(texts, 1);
    RunAppend(texts, Fresh(0), 2 * |texts[0]|, 2 * |texts[1]|);
  }

  /** The banner's two titles, twenty characters each, come back to the start every 80 ticks,
      that is every 10.7 seconds. */
  lemma HeroBannerPeriod()
    ensures Run(HeroTexts, Start, 80) == Tick(Start, 10700)
  {
    assert |HeroTexts[0]| == 20 && |HeroTexts[1]| == 20;
    TwoTitlePeriod(HeroTexts);
  }
}
