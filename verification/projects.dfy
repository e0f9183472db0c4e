/** The projects section: the static project catalog, the category filter of the
    grid, the "featured" strip, and the truncation rules of a grid card (at most
    three tag badges plus an overflow badge, a description cut at 100
    characters). */
module Projects {
  import opened Wrappers

  datatype Project = Project(
    id: nat,
    title: string,
    category: string,
    description: string,
    tags: seq<string>,
    featured: bool)

  /** The filter entry that selects every project. */
  const AllCategory: string := "Tous"

  /** The filter buttons, in display order. */
  const ProjectCategories: seq<string> := [
    "Tous", "Green IT", "Intelligence Artificielle", "Enterprise Software", "Management Tools", "Data Science"
  ]

  const AllProjects: seq<Project> := [
    Project(1, "Carbon Footprint Calculator - Amadeus", "Green IT",
      "Service de calcul d'empreinte carbone pour ressources cloud développé chez Amadeus. Pipeline de données Azure analysant l'impact environnemental des infrastructures IT.",
      ["Python", "Azure Cloud Services", "Carbon Analytics", "API REST", "Data Pipeline"], true),
    Project(2, "Green IT Monitoring Dashboard", "Sustainability",
      "Dashboard temps réel pour le monitoring de l'impact environnemental des infrastructures IT. Visualisation des métriques de durabilité et recommandations d'optimisation.",
      ["React", "TypeScript", "D3.js", "Azure", "Carbon Data"], true),
    Project(3, "Détection d'Anomalies IoT", "Data Science",
      "Système de monitoring industriel utilisant machine learning pour la détection précoce d'anomalies et maintenance prédictive.",
      ["Python", "Scikit-learn", "InfluxDB", "Grafana", "Docker"], false),
    Project(4, "Scrum AI Assistant - Amadeus", "Management Tools",
      "Assistant IA pour équipes agiles développé pour optimiser les processus Scrum. Analyse des métriques d'équipe et recommandations intelligentes en environnement SAFe.",
      ["Python", "OpenAI", "Scrum Metrics", "FastAPI", "Team Analytics"], false),
    Project(5, "Vision par Ordinateur", "Intelligence Artificielle",
      "Application de reconnaissance d'objets en temps réel pour la logistique avec tracking et comptage automatique.",
      ["PyTorch", "OpenCV", "Flask", "WebRTC", "AWS"], false),
    Project(6, "Enterprise Java Platform - NETISYS", "Enterprise Software",
      "Plateforme Java enterprise développée chez NETISYS avec Google Web Toolkit. Application métier robuste avec intégration PostgreSQL et architecture orientée objet.",
      ["Java", "Google Web Toolkit", "PostgreSQL", "Enterprise Architecture", "OOP"], false)
  ]

  /** `ps.filter(p => p.category === category)`: the projects of that category, in list order. */
  function InCategory(ps: seq<Project>, category: string): (r: seq<Project>)
    ensures |r| <= |ps|
    ensures forall k :: 0 <= k < |r| ==> r[k].category == category
  {
    if ps == [] then []
    else if ps[0].category == category then [ps[0]] + InCategory(ps[1..], category)
    else InCategory(ps[1..], category)
  }

  /** `ps.filter(p => p.featured)`: the featured projects, in list order. */
  function FeaturedIn(ps: seq<Project>): (r: seq<Project>)
    ensures |r| <= |ps|
    ensures forall k :: 0 <= k < |r| ==> r[k].featured
  {
    if ps == [] then []
    else if ps[0].featured then [ps[0]] + FeaturedIn(ps[1..])
    else FeaturedIn(ps[1..])
  }

  /** A project is kept exactly when it is in the list and has the category. */
  lemma {:induction false} InCategoryMembers(ps: seq<Project>, category: string, p: Project)
    ensures p in InCategory(ps, category) <==> p in ps && p.category == category
  {
    if ps != [] {
      InCategoryMembers(ps[1..], category, p);
      assert p in ps <==> p == ps[0] || p in ps[1..];
    }
  }

  /** A project is kept exactly when it is in the list and is featured. */
  lemma {:induction false} FeaturedInMembers(ps: seq<Project>, p: Project)
    ensures p in FeaturedIn(ps) <==> p in ps && p.featured
  {
    if ps != [] {
      FeaturedInMembers(ps[1..], p);
      assert p in ps <==> p == ps[0] || p in ps[1..];
    }
  }

  /** Filtering distributes over concatenation, so it keeps the catalog order. */
  lemma {:induction false} InCategoryAppend(a: seq<Project>, b: seq<Project>, category: string)
    ensures InCategory(a + b, category) == InCategory(a, category) + InCategory(b, category)
  {
    if a == [] {
      assert a + b == b;
    } else {
      var ab := a + b;
      assert ab[0] == a[0];
      assert ab[1..] == a[1..] + b;
      InCategoryAppend(a[1..], b, category);
      var rest, tail := InCategory(a[1..], category), InCategory(b, category);
      if a[0].category == category {
        assert InCategory(ab, category) == [a[0]] + (rest + tail);
        assert InCategory(a, category) == [a[0]] + rest;
        assert [a[0]] + (rest + tail) == ([a[0]] + rest) + tail;
      } else {
        assert InCategory(ab, category) == InCategory(a[1..] + b, category);
      }
    }
  }

  /** The featured filter distributes over concatenation. */
  lemma {:induction false} FeaturedInAppend(a: seq<Project>, b: seq<Project>)
    ensures FeaturedIn(a + b) == FeaturedIn(a) + FeaturedIn(b)
  {
    if a == [] {
      assert a + b == b;
    } else {
      var ab := a + b;
      assert ab[0] == a[0];
      assert ab[1..] == a[1..] + b;
      FeaturedInAppend(a[1..], b);
      var rest, tail := FeaturedIn(a[1..]), FeaturedIn(b);
      if a[0].featured {
        assert FeaturedIn(ab) == [a[0]] + (rest + tail);
        assert FeaturedIn(a) == [a[0]] + rest;
        assert [a[0]] + (rest + tail) == ([a[0]] + rest) + tail;
      } else {
        assert FeaturedIn(ab) == FeaturedIn(a[1..] + b);
      }
    }
  }

  /** Filtering twice by the same category changes nothing the second time. */
  lemma {:induction false} InCategoryIdempotent(ps: seq<Project>, category: string)
    ensures InCategory(InCategory(ps, category), category) == InCategory(ps, category)
  {
    if ps != [] {
      InCategoryIdempotent(ps[1..], category);
      if ps[0].category == category {
        assert ([ps[0]] + InCategory(ps[1..], category))[1..] == InCategory(ps[1..], category);
      }
    }
  }

  /** `filteredProjects`: every project, in catalog order, under "Tous"; otherwise
      exactly the projects whose category is the selected one. */
  function Filtered(selected: string): (r: seq<Project>)
    ensures selected == AllCategory ==> r == AllProjects
    ensures selected != AllCategory ==> forall p :: p in r <==> p in AllProjects && p.category == selected
    ensures selected != AllCategory ==> r == InCategory(AllProjects, selected)
  {
    if selected == AllCategory then AllProjects
    else
      forall p | true
        ensures p in InCategory(AllProjects, selected) <==> p in AllProjects && p.category == selected
      {
        InCategoryMembers(AllProjects, selected, p);
      }
      InCategory(AllProjects, selected)
  }

  /** How many featured projects the strip shows. */
  const FeaturedSlots: nat := 2

  /** `featuredProjects.slice(0, 2)` over a catalog: its first two featured
      projects, or all of them when there are fewer. */
  function ShownFeatured(ps: seq<Project>): (r: seq<Project>)
    ensures |r| <= FeaturedSlots
    ensures forall k :: 0 <= k < |r| ==> r[k].featured && r[k] in ps
    ensures |r| == FeaturedSlots || r == FeaturedIn(ps)
    ensures |r| <= |FeaturedIn(ps)| && r == FeaturedIn(ps)[..|r|]
  {
    var featured := FeaturedIn(ps);
    forall k | 0 <= k < |featured| ensures featured[k] in ps {
      FeaturedInMembers(ps, featured[k]);
    }
    if |featured| <= FeaturedSlots then featured else featured[..FeaturedSlots]
  }

  /** The tag badges of a grid card: the first tags shown, and the count on the
      `+n` badge when some are hidden. */
  datatype TagRow = TagRow(shown: seq<string>, hidden: Option<nat>)

  /** At most three tags, then a `+(n - 3)` badge exactly when there are more than three. */
  function TagBadges(tags: seq<string>): (r: TagRow)
    ensures |r.shown| <= 3 && |r.shown| <= |tags| && r.shown == tags[..|r.shown|]
    ensures r.hidden.Some? <==> |tags| > 3
    ensures r.hidden.Some? ==> |r.shown| + r.hidden.value == |tags|
    ensures r.hidden.None? ==> r.shown == tags
    ensures |tags| > 3 ==> |r.shown| == 3
  {
    if |tags| > 3 then TagRow(tags[..3], Some(|tags| - 3)) else TagRow(tags, None)
  }

  /** Every tag is either shown or counted on the overflow badge, never both. */
  lemma TagBadgesAccountForEveryTag(tags: seq<string>)
    ensures var r := TagBadges(tags);
      r.shown + tags[|r.shown|..] == tags && |tags[|r.shown|..]| == r.hidden.GetOr(0)
  {
  }

  /** The length of the description kept on a grid card. */
  const PreviewLength: nat := 100

  /** `description.slice(0, 100) + "..."`: the first 100 characters and an
      ellipsis, which is appended even to a shorter description. */
  function DescriptionPreview(description: string): (r: string)
    ensures |r| == (if |description| < PreviewLength then |description| else PreviewLength) + 3
    ensures r[..|r| - 3] == description[..|r| - 3]
    ensures r[|r| - 3..] == "..."
  {
    var kept := if |description| < PreviewLength then description else description[..PreviewLength];
    kept + "..."
  }

  /** A description of at most 100 characters is shown whole, ellipsis added. */
  lemma ShortDescriptionShownWhole(description: string)
    requires |description| <= PreviewLength
    ensures DescriptionPreview(description) == description + "..."
  {
    var r := DescriptionPreview(description);
    assert r[..|r| - 3] == description;
  }

  /** When the first two projects of a list are featured, the strip shows
      exactly those two, in order, whatever follows. */
  lemma FirstTwoFeaturedShown(ps: seq<Project>)
    requires |ps| >= 2 && ps[0].featured && ps[1].featured
    ensures ShownFeatured(ps) == [ps[0], ps[1]]
  {
    var tail := FeaturedIn(ps[2..]);
    assert ps[1..][1..] == ps[2..];
    assert FeaturedIn(ps[1..]) == [ps[1]] + tail;
    assert FeaturedIn(ps) == [ps[0], ps[1]] + tail;
  }

  /** Projects 1 and 2 are featured and listed first, so the strip shows exactly
      those, in order. */
  lemma ShownFeaturedIsFirstTwo()
    ensures ShownFeatured(AllProjects) == [AllProjects[0], AllProjects[1]]
  {
    assert AllProjects[0].featured && AllProjects[1].featured;
    FirstTwoFeaturedShown(AllProjects);
  }

  /** The second project's category is not among the filter buttons, so of all
      the buttons only "Tous" shows it. */
  lemma SecondProjectOnlyUnderAll(c: string)
    requires c in ProjectCategories
    ensures AllProjects[1] in Filtered(c) <==> c == AllCategory
  {
    assert AllProjects[1].category !in ProjectCategories;
  }

  /** Every other project's category has its own button, so it appears under it. */
  lemma OtherProjectsHaveAButton(i: nat)
    requires i < |AllProjects| && i != 1
    ensures AllProjects[i].category in ProjectCategories
    ensures AllProjects[i] in Filtered(AllProjects[i].category)
  {
    var p := AllProjects[i];
    assert p in AllProjects && p.category != AllCategory;
  }

  /** A category held by exactly one project filters down to that project. */
  lemma {:induction false} InCategorySingle(ps: seq<Project>, i: nat, c: string)
    requires i < |ps| && ps[i].category == c
    requires forall k :: 0 <= k < |ps| && k != i ==> ps[k].category != c
    ensures InCategory(ps, c) == [ps[i]]
  {
    if i == 0 {
      NoneInCategory(ps[1..], c);
    } else {
      InCategorySingle(ps[1..], i - 1, c);
    }
  }

  /** No project of the category: the filter is empty. */
  lemma {:induction false} NoneInCategory(ps: seq<Project>, c: string)
    requires forall k :: 0 <= k < |ps| ==> ps[k].category != c
    ensures InCategory(ps, c) == []
  {
    if ps != [] {
      NoneInCategory(ps[1..], c);
    }
  }

  /** Under each button other than "Tous", exactly one project of the catalog is listed. */
  lemma EachCategoryListsOne(c: string)
    requires c in ProjectCategories && c != AllCategory
    ensures |Filtered(c)| == 1
  {
    var i: nat :| 1 <= i < |ProjectCategories| && ProjectCategories[i] == c;
    var owner: nat := [0, 0, 4, 5, 3, 2][i];
    assert AllProjects[owner].category == c;
    InCategorySingle(AllProjects, owner, c);
  }
}
