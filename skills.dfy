/**
 * The skills section of components/Skills.tsx: the viewport classifier
 * behind `handleResize`, the choice of layout, the grouping of the skill
 * list by category and the ring radii of the desktop layout.
 */
module Skills {

  // ---------------------------------------------------------------------
  // Viewport classification
  // ---------------------------------------------------------------------

  datatype Viewport = Mobile | Tablet | Desktop

  const TabletBreakpoint := 768
  const DesktopBreakpoint := 1280

  /** The order mobile < tablet < desktop. */
  function Rank(v: Viewport): nat {
    match v
    case Mobile => 0
    case Tablet => 1
    case Desktop => 2
  }

  /** The mode `handleResize` picks for a window width. */
  function Classify(width: int): Viewport {
    if width < TabletBreakpoint then Mobile
    else if width < DesktopBreakpoint then Tablet
    else Desktop
  }

  /** Each width gets exactly the mode of the band it lies in. */
  lemma ClassifyBands(width: int)
    ensures Classify(width) == Mobile <==> width < 768
    ensures Classify(width) == Tablet <==> 768 <= width < 1280
    ensures Classify(width) == Desktop <==> 1280 <= width
  {
  }

  /** A wider window never gets a smaller mode. */
  lemma ClassifyMonotone(w1: int, w2: int)
    requires w1 <= w2
    ensures Rank(Classify(w1)) <= Rank(Classify(w2))
  {
  }

  /** The layouts the section can render. */
  datatype Layout = DesktopLayout | TabletLayout | MobileLayout

  /** The three conditional renders, in page order: one per viewport test. */
  function RenderedLayouts(v: Viewport): (r: seq<Layout>)
    ensures |r| == 1
    ensures r[0] == DesktopLayout <==> v == Desktop
    ensures r[0] == TabletLayout <==> v == Tablet
    ensures r[0] == MobileLayout <==> v == Mobile
  {
    (if v == Desktop then [DesktopLayout] else [])
    + (if v == Tablet then [TabletLayout] else [])
    + (if v == Mobile then [MobileLayout] else [])
  }

  /** The `viewport` state of the `Skills` component. */
  class SkillsSection {
    var viewport: Viewport

    /** The state starts as desktop before the mount effect runs. */
    constructor ()
      ensures viewport == Desktop
    {
      viewport := Desktop;
    }

    /** `handleResize`: run once at mount and on every resize event. */
    method HandleResize(width: int)
      modifies this
      ensures viewport == Classify(width)
    {
      if width < TabletBreakpoint {
        viewport := Mobile;
      } else if width < DesktopBreakpoint {
        viewport := Tablet;
      } else {
        viewport := Desktop;
      }
    }
  }

  // ---------------------------------------------------------------------
  // Skills and their grouping
  // ---------------------------------------------------------------------

  datatype Category = Frontend | Backend | DevOps | Tools | AI

  /** The key order of the category configuration object. */
  const Categories: seq<Category> := [Frontend, Backend, DevOps, Tools, AI]

  datatype Skill = Skill(name: string, category: Category)

  /** The skill list of the section, in its source order. */
  const AllSkills: seq<Skill> := [
    Skill("React.js", Frontend),
    Skill("React Native", Frontend),
    Skill("Angular", Frontend),
    Skill("TypeScript", Frontend),
    Skill("JavaScript", Frontend),
    Skill("HTML", Frontend),
    Skill("CSS", Frontend),
    Skill("Tailwind CSS", Frontend),
    Skill("Styled Components", Frontend),
    Skill("ASP.NET Core", Backend),
    Skill("RESTful APIs", Backend),
    Skill("PostgreSQL", Backend),
    Skill("Microservices", Backend),
    Skill("Git", DevOps),
    Skill("GitHub", DevOps),
    Skill("Docker", DevOps),
    Skill("Azure", DevOps),
    Skill("Agile/Scrum", DevOps),
    Skill("Responsive Design", Tools),
    Skill("Clean Code", Tools),
    Skill("Performance", Tools),
    Skill("Cursor", AI),
    Skill("GitHub Copilot", AI)
  ]

  /** `skills.filter(s => s.category === c)` */
  function OfCategory(skills: seq<Skill>, c: Category): (r: seq<Skill>)
    ensures |r| <= |skills|
    ensures forall k | 0 <= k < |r| :: r[k].category == c
  {
    if skills == [] then []
    else (if skills[0].category == c then [skills[0]] else []) + OfCategory(skills[1..], c)
  }

  /** Filtering distributes over concatenation, so every group keeps the
      relative order the skills have in the list. */
  lemma {:induction false} OfCategoryAppend(a: seq<Skill>, b: seq<Skill>, c: Category)
    ensures OfCategory(a + b, c) == OfCategory(a, c) + OfCategory(b, c)
  {
    if a == [] {
      assert a + b == b;
    } else {
      assert (a + b)[0] == a[0];
      assert (a + b)[1..] == a[1..] + b;
      OfCategoryAppend(a[1..], b, c);
    }
  }

  /** One group of the layouts: a category and its skills. */
  datatype CategoryGroup = CategoryGroup(category: Category, skills: seq<Skill>)

  /** The `categories` memo shared by the three layouts. */
  function Grouped(skills: seq<Skill>): (groups: seq<CategoryGroup>)
    ensures |groups| == |Categories|
    ensures forall i | 0 <= i < |groups| :: groups[i].category == Categories[i]
    ensures forall i | 0 <= i < |groups| ::
              forall k | 0 <= k < |groups[i].skills| :: groups[i].skills[k].category == Categories[i]
  {
    seq(|Categories|, i requires 0 <= i < |Categories| =>
      CategoryGroup(Categories[i], OfCategory(skills, Categories[i])))
  }

  /** The skills of the groups, one group after another. */
  function Flatten(groups: seq<CategoryGroup>): seq<Skill> {
    if groups == [] then [] else groups[0].skills + Flatten(groups[1..])
  }

  /** The skills of a list, taken category by category in the fixed order. */
  function ByCategory(skills: seq<Skill>): seq<Skill> {
    OfCategory(skills, Frontend) + OfCategory(skills, Backend) + OfCategory(skills, DevOps)
      + OfCategory(skills, Tools) + OfCategory(skills, AI)
  }

  lemma FlattenGrouped(skills: seq<Skill>)
    ensures Flatten(Grouped(skills)) == ByCategory(skills)
  {
    var g := Grouped(skills);
    assert g[4..][1..] == [];
    assert Flatten(g[4..]) == g[4].skills;
    assert Flatten(g[3..]) == g[3].skills + Flatten(g[4..]) by { assert g[3..][1..] == g[4..]; }
    assert Flatten(g[2..]) == g[2].skills + Flatten(g[3..]) by { assert g[2..][1..] == g[3..]; }
    assert Flatten(g[1..]) == g[1].skills + Flatten(g[2..]) by { assert g[1..][1..] == g[2..]; }
  }

  /** The filter of a list headed by `x`: `x` when it is of the category,
      then the filter of the rest. */
  lemma OfCategoryCons(x: Skill, rest: seq<Skill>, c: Category)
    ensures OfCategory([x] + rest, c) == (if x.category == c then [x] else []) + OfCategory(rest, c)
  {
    assert ([x] + rest)[1..] == rest;
  }

  lemma {:induction false} ByCategoryPermutes(skills: seq<Skill>)
    ensures multiset(ByCategory(skills)) == multiset(skills)
  {
    if skills != [] {
      var x, rest := skills[0], skills[1..];
      assert skills == [x] + rest;
      ByCategoryPermutes(rest);
      OfCategoryCons(x, rest, Frontend);
      OfCategoryCons(x, rest, Backend);
      OfCategoryCons(x, rest, DevOps);
      OfCategoryCons(x, rest, Tools);
      OfCategoryCons(x, rest, AI);
      var f, b, d, t, a := OfCategory(rest, Frontend), OfCategory(rest, Backend),
        OfCategory(rest, DevOps), OfCategory(rest, Tools), OfCategory(rest, AI);
      assert multiset(ByCategory(rest)) == multiset(f) + multiset(b) + multiset(d) + multiset(t) + multiset(a);
      assert multiset(ByCategory(skills)) == multiset(OfCategory(skills, Frontend))
        + multiset(OfCategory(skills, Backend)) + multiset(OfCategory(skills, DevOps))
        + multiset(OfCategory(skills, Tools)) + multiset(OfCategory(skills, AI));
    }
  }

  /** Every skill lies in exactly one of the five categories, so the groups
      together hold the skill list rearranged: the same skills, each as
      often as in the list, and so as many as `skills.length`. */
  lemma GroupsPermuteSkills(skills: seq<Skill>)
    ensures multiset(Flatten(Grouped(skills))) == multiset(skills)
    ensures |Flatten(Grouped(skills))| == |skills|
  {
    FlattenGrouped(skills);
    ByCategoryPermutes(skills);
    assert |multiset(Flatten(Grouped(skills)))| == |multiset(skills)|;
  }

  /** The section's own list: its five groups hold its 23 skills, each once. */
  lemma AllSkillsGrouped()
    ensures multiset(Flatten(Grouped(AllSkills))) == multiset(AllSkills)
    ensures |Flatten(Grouped(AllSkills))| == 23
  {
    GroupsPermuteSkills(AllSkills);
  }

  // ---------------------------------------------------------------------
  // Ring radii of the desktop layout
  // ---------------------------------------------------------------------

  const BaseRadius := 160
  const RingSpacing := 55

  /** `baseRadius + catIndex * 55` */
  function RingRadius(catIndex: nat): int {
    BaseRadius + catIndex * RingSpacing
  }

  /** The rings are concentric and strictly nested, 55 pixels apart, the
      innermost at 160. */
  lemma RingsNest(i: nat, j: nat)
    requires i < j
    ensures RingRadius(0) == 160
    ensures RingRadius(i) < RingRadius(j)
    ensures RingRadius(j) - RingRadius(i) == 55 * (j - i)
  {
  }
}
