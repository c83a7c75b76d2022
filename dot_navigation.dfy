/**
 * The side dot navigation of components/DotNavigation.tsx: the
 * intersection-observer update rule for the active section, the set of
 * observed sections, the label lookup and the hover state. Observer
 * entries are given as a sequence, element lookups as a set of present ids.
 */
module DotNavigation {
  import opened Wrappers

  /** A configured section: its element id and its translation key. */
  datatype Section = Section(id: string, labelKey: string)

  const Sections: seq<Section> := [
    Section("home", "homeLabel"),
    Section("about", "aboutLabel"),
    Section("skills", "skillsLabel"),
    Section("projects", "projectsLabel"),
    Section("contact", "contactLabel")
  ]

  predicate IsSectionId(id: string) {
    exists k | 0 <= k < |Sections| :: Sections[k].id == id
  }

  /** No two configured sections share an id. */
  lemma SectionIdsDistinct()
    ensures forall k, l | 0 <= k < l < |Sections| :: Sections[k].id != Sections[l].id
  {
  }

  // ---------------------------------------------------------------------
  // The observer callback
  // ---------------------------------------------------------------------

  /** One reported change: the target element's id and whether it now
      intersects the tracking band. */
  datatype Entry = Entry(targetId: string, isIntersecting: bool)

  /** The active id after the `forEach` over `entries`, starting from
      `current`: every intersecting entry overwrites it in turn. */
  function AfterEntries(entries: seq<Entry>, current: string): string {
    if entries == [] then current
    else
      var last := entries[|entries| - 1];
      if last.isIntersecting then last.targetId
      else AfterEntries(entries[..|entries| - 1], current)
  }

  /** Last intersecting entry wins: the result is the id of an intersecting
      entry after which no entry intersects; with no intersecting entry the
      active id is unchanged. */
  lemma {:induction false} AfterEntriesLastWins(entries: seq<Entry>, current: string)
    ensures (forall k | 0 <= k < |entries| :: !entries[k].isIntersecting) ==>
      AfterEntries(entries, current) == current
    ensures (exists k | 0 <= k < |entries| :: entries[k].isIntersecting) ==>
      exists k | 0 <= k < |entries| ::
        && entries[k].isIntersecting
        && AfterEntries(entries, current) == entries[k].targetId
        && forall l | k < l < |entries| :: !entries[l].isIntersecting
  {
    if entries != [] {
      var n := |entries| - 1;
      var init := entries[..n];
      AfterEntriesLastWins(init, current);
      if !entries[n].isIntersecting {
        if exists k | 0 <= k < |entries| :: entries[k].isIntersecting {
          var k :| 0 <= k < |entries| && entries[k].isIntersecting;
          assert init[k] == entries[k];
          var k' :| 0 <= k' < |init| && init[k'].isIntersecting
            && AfterEntries(init, current) == init[k'].targetId
            && forall l | k' < l < |init| :: !init[l].isIntersecting;
          assert forall l | k' < l < |entries| :: !entries[l].isIntersecting by {
            forall l | k' < l < |entries| ensures !entries[l].isIntersecting {
              if l < n { assert init[l] == entries[l]; }
            }
          }
        }
        forall k | 0 <= k < n ensures init[k] == entries[k] { }
      }
    }
  }

  /** When the active id and every entry's target are configured section
      ids, so is the active id afterwards. */
  lemma {:induction false} AfterEntriesStaysInSections(entries: seq<Entry>, current: string)
    requires IsSectionId(current)
    requires forall k | 0 <= k < |entries| :: IsSectionId(entries[k].targetId)
    ensures IsSectionId(AfterEntries(entries, current))
  {
    if entries != [] {
      var n := |entries| - 1;
      assert forall k | 0 <= k < n :: entries[..n][k] == entries[k];
      AfterEntriesStaysInSections(entries[..n], current);
    }
  }

  /** The ids `SECTIONS.forEach` registers with the observer: those whose
      element is present, in configuration order. */
  function ObservedIds(sections: seq<Section>, present: set<string>): (ids: seq<string>)
    ensures forall k | 0 <= k < |ids| :: ids[k] in present
    ensures forall k | 0 <= k < |ids| :: exists j | 0 <= j < |sections| :: sections[j].id == ids[k]
    ensures forall j | 0 <= j < |sections| :: sections[j].id in present ==> sections[j].id in ids
  {
    if sections == [] then []
    else
      var rest := ObservedIds(sections[1..], present);
      if sections[0].id in present then [sections[0].id] + rest else rest
  }

  /** Observing one more section extends the observed ids by its id when
      its element exists. */
  lemma {:induction false} ObservedIdsSnoc(sections: seq<Section>, s: Section, present: set<string>)
    ensures ObservedIds(sections + [s], present)
         == ObservedIds(sections, present) + (if s.id in present then [s.id] else [])
  {
    if sections == [] {
      assert sections + [s] == [s];
      assert [s][1..] == [];
    } else {
      assert (sections + [s])[1..] == sections[1..] + [s];
      ObservedIdsSnoc(sections[1..], s, present);
    }
  }

  /** The `SECTIONS.forEach` loop of the mount effect: each section whose
      element exists is handed to `observer.observe` in turn. */
  method ObserveEach(sections: seq<Section>, present: set<string>) returns (ids: seq<string>)
    ensures ids == ObservedIds(sections, present)
  {
    ids := [];
    for i := 0 to |sections|
      invariant ids == ObservedIds(sections[..i], present)
    {
      assert sections[..i + 1] == sections[..i] + [sections[i]];
      ObservedIdsSnoc(sections[..i], sections[i], present);
      if sections[i].id in present {
        ids := ids + [sections[i].id];
      }
    }
    assert sections[..|sections|] == sections;
  }

  // ---------------------------------------------------------------------
  // Labels
  // ---------------------------------------------------------------------

  /** A value of the translation object: a string, or anything else
      (a nested object, or undefined when the key is missing). */
  datatype Translation = Text(text: string) | NotText

  /** `SECTIONS.find(s => s.id === id)` */
  function Find(sections: seq<Section>, id: string): (r: Option<Section>)
    ensures r.None? <==> forall k | 0 <= k < |sections| :: sections[k].id != id
    ensures r.Some? ==> exists k | 0 <= k < |sections| ::
      sections[k] == r.value && r.value.id == id
      && forall j | 0 <= j < k :: sections[j].id != id
  {
    if sections == [] then None
    else if sections[0].id == id then Some(sections[0])
    else
      var r := Find(sections[1..], id);
      assert forall k | 1 <= k < |sections| :: sections[1..][k - 1] == sections[k];
      r
  }

  /** `getSectionLabel`: the translated label of a known section when the
      translation is a string, the id itself otherwise. */
  function SectionLabel(t: map<string, Translation>, id: string): (shown: string)
    ensures !IsSectionId(id) ==> shown == id
    ensures forall k | 0 <= k < |Sections| && Sections[k].id == id ::
      shown == (var key := Sections[k].labelKey;
                if key in t && t[key].Text? then t[key].text else id)
  {
    SectionIdsDistinct();
    match Find(Sections, id)
    case None => id
    case Some(section) =>
      var key := section.labelKey;
      if key in t && t[key].Text? then t[key].text else id
  }

  // ---------------------------------------------------------------------
  // Component state
  // ---------------------------------------------------------------------

  /** The `activeSection` and `hoveredSection` state of the component and
      the ids its observer watches. */
  class DotNavigation {
    var activeSection: string
    var hoveredSection: Option<string>
    var observed: seq<string>

    ghost predicate Valid()
      reads this
    {
      IsSectionId(activeSection)
      && forall k | 0 <= k < |observed| :: IsSectionId(observed[k])
    }

    constructor ()
      ensures Valid()
      ensures activeSection == "home" && hoveredSection == None && observed == []
    {
      activeSection := "home";
      hoveredSection := None;
      observed := [];
      assert Sections[0].id == "home";
    }

    /** The mount effect: observe every configured section whose element exists. */
    method Observe(present: set<string>)
      requires Valid()
      modifies this
      ensures Valid()
      ensures observed == ObservedIds(Sections, present)
      ensures activeSection == old(activeSection) && hoveredSection == old(hoveredSection)
    {
      observed := ObserveEach(Sections, present);
    }

    /** The effect's cleanup: `observer.disconnect()`. */
    method Disconnect()
      requires Valid()
      modifies this
      ensures Valid() && observed == []
      ensures activeSection == old(activeSection) && hoveredSection == old(hoveredSection)
    {
      observed := [];
    }

    /** `observerCallback`: the observer reports only watched elements; each
        intersecting entry in turn becomes the active section. */
    method ObserverCallback(entries: seq<Entry>)
      requires Valid()
      requires forall k | 0 <= k < |entries| :: entries[k].targetId in observed
      modifies this
      ensures Valid()
      ensures activeSection == AfterEntries(entries, old(activeSection))
      ensures hoveredSection == old(hoveredSection) && observed == old(observed)
    {
      for i := 0 to |entries|
        invariant Valid()
        invariant activeSection == AfterEntries(entries[..i], old(activeSection))
        invariant hoveredSection == old(hoveredSection) && observed == old(observed)
      {
        assert entries[..i + 1][..i] == entries[..i];
        if entries[i].isIntersecting {
          activeSection := entries[i].targetId;
        }
      }
      assert entries[..|entries|] == entries;
    }

    /** Mouse enter on a dot's row. */
    method MouseEnter(id: string)
      modifies this
      ensures hoveredSection == Some(id)
      ensures activeSection == old(activeSection) && observed == old(observed)
    {
      hoveredSection := Some(id);
    }

    /** Mouse leave from a dot's row. */
    method MouseLeave()
      modifies this
      ensures hoveredSection == None
      ensures activeSection == old(activeSection) && observed == old(observed)
    {
      hoveredSection := None;
    }

    predicate IsActive(id: string)
      reads this
    {
      activeSection == id
    }

    /** The tooltip shows for the hovered row only. */
    predicate ShowsTooltip(id: string)
      reads this
    {
      hoveredSection == Some(id)
    }

    /** Because the ids are distinct, exactly one dot is active, and at most
        one tooltip shows. */
    lemma OneActiveDot()
      requires Valid()
      ensures exists k | 0 <= k < |Sections| :: IsActive(Sections[k].id)
      ensures forall k, l | 0 <= k < |Sections| && 0 <= l < |Sections|
        && IsActive(Sections[k].id) && IsActive(Sections[l].id) :: k == l
      ensures forall k, l | 0 <= k < |Sections| && 0 <= l < |Sections|
        && ShowsTooltip(Sections[k].id) && ShowsTooltip(Sections[l].id) :: k == l
    {
    }
  }
}
