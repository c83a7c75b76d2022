/**
 * The scroll-driven dot navigation of src/components/DotNavigation.tsx:
 * on every scroll event (and once at mount) the active section becomes
 * the last section whose top is at or above the middle of the viewport.
 * Element lookups are given as a map from section id to the element's top
 * edge; an id absent from the map has no element.
 */
module ScrollDotNavigation {
  import opened Wrappers

  /** `sections[0]`, which is `undefined` for an empty list. */
  function First(sections: seq<string>): (r: Option<string>)
    ensures r.Some? <==> |sections| > 0
    ensures r.Some? ==> r.value == sections[0]
  {
    if |sections| == 0 then None else Some(sections[0])
  }

  /** The element of `section` exists and its top is at or above half the
      viewport height (`top <= innerHeight / 2`, stated without division). */
  predicate AtOrAboveMiddle(section: string, tops: map<string, int>, innerHeight: int) {
    section in tops && 2 * tops[section] <= innerHeight
  }

  /** The value of `current` after visiting `visited` in order, starting
      from `start`: each qualifying section overwrites it. */
  function Current(visited: seq<string>, start: Option<string>, tops: map<string, int>, innerHeight: int): Option<string> {
    if visited == [] then start
    else
      var last := visited[|visited| - 1];
      if AtOrAboveMiddle(last, tops, innerHeight) then Some(last)
      else Current(visited[..|visited| - 1], start, tops, innerHeight)
  }

  /** The section `handleScroll` selects. */
  function Selected(sections: seq<string>, tops: map<string, int>, innerHeight: int): Option<string> {
    Current(sections, First(sections), tops, innerHeight)
  }

  /** The loop of `handleScroll`. */
  method SelectSection(sections: seq<string>, tops: map<string, int>, innerHeight: int)
    returns (current: Option<string>)
    ensures current == Selected(sections, tops, innerHeight)
  {
    current := First(sections);
    for i := 0 to |sections|
      invariant current == Current(sections[..i], First(sections), tops, innerHeight)
    {
      assert sections[..i + 1][..i] == sections[..i];
      var section := sections[i];
      if section in tops {
        var top := tops[section];
        if 2 * top <= innerHeight {
          current := Some(section);
        }
      }
    }
    assert sections[..|sections|] == sections;
  }

  /** The selection is the last qualifying section: it qualifies, no later
      section does; when none qualifies it is the first section. */
  lemma {:induction false} CurrentIsLastQualifying(visited: seq<string>, start: Option<string>, tops: map<string, int>, innerHeight: int)
    ensures (forall k | 0 <= k < |visited| :: !AtOrAboveMiddle(visited[k], tops, innerHeight)) ==>
      Current(visited, start, tops, innerHeight) == start
    ensures (exists k | 0 <= k < |visited| :: AtOrAboveMiddle(visited[k], tops, innerHeight)) ==>
      exists k | 0 <= k < |visited| ::
        && AtOrAboveMiddle(visited[k], tops, innerHeight)
        && Current(visited, start, tops, innerHeight) == Some(visited[k])
        && forall l | k < l < |visited| :: !AtOrAboveMiddle(visited[l], tops, innerHeight)
  {
    if visited != [] {
      var n := |visited| - 1;
      var init := visited[..n];
      CurrentIsLastQualifying(init, start, tops, innerHeight);
      forall k | 0 <= k < n ensures init[k] == visited[k] { }
      if !AtOrAboveMiddle(visited[n], tops, innerHeight) {
        if exists k | 0 <= k < |visited| :: AtOrAboveMiddle(visited[k], tops, innerHeight) {
          var k :| 0 <= k < |visited| && AtOrAboveMiddle(visited[k], tops, innerHeight);
          assert AtOrAboveMiddle(init[k], tops, innerHeight);
          var k' :| 0 <= k' < |init| && AtOrAboveMiddle(init[k'], tops, innerHeight)
            && Current(init, start, tops, innerHeight) == Some(init[k'])
            && forall l | k' < l < |init| :: !AtOrAboveMiddle(init[l], tops, innerHeight);
          assert visited[k'] == init[k'];
        }
      }
    }
  }

  /** For a non-empty list the selection is always one of its sections. */
  lemma SelectedIsMember(sections: seq<string>, tops: map<string, int>, innerHeight: int)
    requires |sections| > 0
    ensures Selected(sections, tops, innerHeight).Some?
    ensures Selected(sections, tops, innerHeight).value in sections
  {
    CurrentIsLastQualifying(sections, First(sections), tops, innerHeight);
  }

  /** The `active` state of the component for its `sections` prop. */
  class ScrollDotNavigation {
    const sections: seq<string>
    var active: Option<string>

    /** `useState(sections[0])` */
    constructor (sections: seq<string>)
      ensures this.sections == sections && active == First(sections)
    {
      this.sections := sections;
      active := First(sections);
    }

    /** `handleScroll`: run once at mount and on every scroll event. */
    method HandleScroll(tops: map<string, int>, innerHeight: int)
      modifies this
      ensures active == Selected(sections, tops, innerHeight)
      ensures |sections| > 0 ==> exists k | 0 <= k < |sections| :: IsActive(sections[k])
    {
      active := SelectSection(sections, tops, innerHeight);
      if |sections| > 0 {
        SelectedIsMember(sections, tops, innerHeight);
        var k :| 0 <= k < |sections| && sections[k] == active.value;
        assert IsActive(sections[k]);
      }
    }

    /** The dot of `section` is highlighted. */
    predicate IsActive(section: string)
      reads this
    {
      active == Some(section)
    }
  }
}
