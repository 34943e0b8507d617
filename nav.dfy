/**
  The navigation bar's scroll highlight: the section under a fixed line 300 pixels below the top
  of the viewport is the current one, and exactly the links that point at it are marked active.
  Positions are whole pixels relative to the viewport.
 */
module Navigation {
  import opened Wrappers

  /** The distance from the top of the viewport at which a section counts as being read. */
  const ActivationLine: int := 300

  datatype Section = Section(id: string, top: int, height: int)

  /** The section's box spans the activation line: it starts at or above it and ends below it. */
  predicate InView(s: Section) {
    s.top <= ActivationLine && s.top + s.height > ActivationLine
  }

  /** The index of the last section in document order that spans the activation line. */
  function LastInView(sections: seq<Section>): (r: Option<nat>)
    ensures r.Some? ==> r.value < |sections| && InView(sections[r.value])
    ensures r.Some? ==> forall j :: r.value < j < |sections| ==> !InView(sections[j])
    ensures r.None? ==> forall j :: 0 <= j < |sections| ==> !InView(sections[j])
    decreases |sections|
  {
    if sections == [] then None
    else if InView(sections[|sections| - 1]) then Some(|sections| - 1)
    else LastInView(sections[..|sections| - 1])
  }

  /** The id the scroll handler settles on: that of the last section in view, or the empty string. */
  function CurrentId(sections: seq<Section>): string {
    match LastInView(sections)
    case Some(i) => sections[i].id
    case None => ""
  }

  /** The scroll handler's first loop: every section in view overwrites `current`, so the last
      one wins. */
  method ActiveSectionId(sections: seq<Section>) returns (current: string)
    ensures current == CurrentId(sections)
  {
    current := "";
    var k := 0;
    while k < |sections|
      invariant 0 <= k <= |sections|
      invariant current == CurrentId(sections[..k])
    {
      var section := sections[k];
      if section.top <= ActivationLine && section.top + section.height > ActivationLine {
        current := section.id;
      }
      assert sections[..k + 1][..k] == sections[..k];
      k := k + 1;
    }
    assert sections[..k] == sections;
  }

  /** The scroll handler's second loop: each link loses the highlight and regains it exactly when
      its `href` is `#` followed by the current id. */
  method HighlightLinks(hrefs: seq<string>, current: string, active: array<bool>)
    requires active.Length == |hrefs|
    modifies active
    ensures forall i :: 0 <= i < |hrefs| ==> active[i] == (hrefs[i] == "#" + current)
  {
    var i := 0;
    while i < |hrefs|
      invariant 0 <= i <= |hrefs|
      invariant forall j :: 0 <= j < i ==> active[j] == (hrefs[j] == "#" + current)
    {
      active[i] := false;
      if hrefs[i] == "#" + current {
        active[i] := true;
      }
      i := i + 1;
    }
  }
}

module NavigationProperties {
  import opened Wrappers
  import opened Navigation

  /** Sections stacked one after the other, each with a positive height. */
  predicate Stacked(sections: seq<Section>) {
    (forall i :: 0 <= i < |sections| ==> sections[i].height > 0)
    && forall i :: 0 <= i < |sections| - 1 ==> sections[i + 1].top == sections[i].top + sections[i].height
  }

  /** In a stack, every later section starts at or below the end of an earlier one. */
  lemma {:induction false} StackedStartsBelow(sections: seq<Section>, i: nat, j: nat)
    requires Stacked(sections) && i < j < |sections|
    ensures sections[j].top >= sections[i].top + sections[i].height
    decreases j - i
  {
    if j > i + 1 {
      StackedStartsBelow(sections, i, j - 1);
    }
  }

  /** In a stack at most one section spans the activation line, so the highlight names the
      section under the line and the "last one wins" rule never has to choose. */
  lemma StackedHasOneInView(sections: seq<Section>, i: nat, j: nat)
    requires Stacked(sections) && i < |sections| && j < |sections|
    requires InView(sections[i]) && InView(sections[j])
    ensures i == j
  {
    if i < j {
      StackedStartsBelow(sections, i, j);
    } else if j < i {
      StackedStartsBelow(sections, j, i);
    }
  }

  /** The highlight is the id of a section in view, or empty when none is. */
  lemma CurrentIdIsInView(sections: seq<Section>)
    ensures CurrentId(sections) == "" || exists i :: 0 <= i < |sections| && InView(sections[i]) && sections[i].id == CurrentId(sections)
    ensures (forall i :: 0 <= i < |sections| ==> !InView(sections[i])) ==> CurrentId(sections) == ""
  {
  }

  /** With distinct `href`s, at most one link is active. */
  lemma AtMostOneActive(hrefs: seq<string>, current: string, active: seq<bool>, i: nat, j: nat)
    requires |active| == |hrefs| && forall k :: 0 <= k < |hrefs| ==> active[k] == (hrefs[k] == "#" + current)
    requires forall a, b :: 0 <= a < b < |hrefs| ==> hrefs[a] != hrefs[b]
    requires i < |hrefs| && j < |hrefs| && active[i] && active[j]
    ensures i == j
  {
  }
}
