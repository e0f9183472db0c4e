/** The quote wizard's static catalogs and its working state.

    Catalog prices are whole euros. The urgency multipliers are the exact
    rationals the source writes as decimal literals (0.9, 1.0, 1.3). */
module QuoteData {
  import opened Wrappers

  /** A non-negative rational `num / den`. */
  datatype Ratio = Ratio(num: nat, den: nat) {
    predicate Valid() { den > 0 }
  }

  datatype ProjectType = ProjectType(id: string, name: string, description: string, basePrice: nat)

  datatype Feature = Feature(id: string, name: string, description: string, price: nat, category: string)

  datatype UrgencyTier = UrgencyTier(key: string, name: string, multiplier: Ratio)

  const ProjectTypes: seq<ProjectType> := [
    ProjectType("vitrine", "Site vitrine", "Site web élégant pour présenter votre entreprise", 1200),
    ProjectType("webapp", "Application web", "Application web interactive avec fonctionnalités avancées", 4500),
    ProjectType("mobile", "Application mobile", "App mobile native ou hybride iOS/Android", 7500),
    ProjectType("ai", "Projet IA", "Solution d'intelligence artificielle personnalisée", 8000),
    ProjectType("dashboard", "Dashboard", "Tableau de bord analytique et reporting", 5000)
  ]

  const Features: seq<Feature> := [
    Feature("auth", "Authentification", "Système de connexion utilisateur sécurisé", 800, "Sécurité"),
    Feature("payment", "Paiement en ligne", "Intégration Stripe/PayPal pour e-commerce", 1200, "Commerce"),
    Feature("ai-api", "API IA", "Intégration OpenAI, chatbots, ou ML personnalisé", 2000, "Intelligence Artificielle"),
    Feature("analytics", "Analytics", "Suivi utilisateurs, métriques et reporting", 600, "Analyse"),
    Feature("multilang", "Multilingue", "Support de plusieurs langues", 900, "Internationalisation"),
    Feature("automation", "Automatisation", "Scripts et workflows automatisés", 1500, "Productivité"),
    Feature("cms", "CMS Admin", "Interface d'administration pour gérer le contenu", 1000, "Gestion"),
    Feature("api", "API REST", "API backend avec documentation complète", 1300, "Backend")
  ]

  /** The urgency table, keyed by tag, in declaration order. */
  const UrgencyTiers: seq<UrgencyTier> := [
    UrgencyTier("flexible", "Flexible (2-3 mois)", Ratio(9, 10)),
    UrgencyTier("standard", "Standard (4-6 semaines)", Ratio(1, 1)),
    UrgencyTier("urgent", "Urgent (2-3 semaines)", Ratio(13, 10))
  ]

  /** `find` over a list, matching an entry whose key equals `k`: the first such
      entry, or nothing when the list has none. The project types and features
      are keyed by `id`, the urgency table by its tag. */
  function FindBy<T>(xs: seq<T>, key: T -> string, k: string): (r: Option<T>)
    ensures r.Some? ==> r.value in xs && key(r.value) == k
    ensures r.None? <==> forall i :: 0 <= i < |xs| ==> key(xs[i]) != k
  {
    if xs == [] then None
    else if key(xs[0]) == k then Some(xs[0])
    else FindBy(xs[1..], key, k)
  }

  function ProjectId(p: ProjectType): string { p.id }

  function FeatureId(f: Feature): string { f.id }

  function TierKey(t: UrgencyTier): string { t.key }

  /** `projectTypes.find(p => p.id === id)`. */
  function FindProject(id: string): Option<ProjectType> { FindBy(ProjectTypes, ProjectId, id) }

  /** `features.find(f => f.id === id)`. */
  function FindFeature(id: string): Option<Feature> { FindBy(Features, FeatureId, id) }

  /** `urgencyMultipliers[key]`: the entry of the urgency table under `key`. */
  function FindUrgency(key: string): Option<UrgencyTier> { FindBy(UrgencyTiers, TierKey, key) }

  predicate IsFeatureId(id: string) {
    exists i :: 0 <= i < |Features| && Features[i].id == id
  }

  predicate IsProjectTypeId(id: string) {
    exists i :: 0 <= i < |ProjectTypes| && ProjectTypes[i].id == id
  }

  /** The contact block of the quote form. */
  datatype Contact = Contact(name: string, email: string, company: string, message: string)

  /** The quote form's `formData`. `features` is the list of toggled feature ids,
      in the order they were added. */
  datatype FormData = FormData(
    projectType: string,
    features: seq<string>,
    budget: string,
    timeline: string,
    urgency: string,
    contact: Contact)

  /** The state `useState` starts the form in. */
  const InitialForm: FormData := FormData("", [], "", "", "standard", Contact("", "", "", ""))

  /** No id is declared twice in a catalog, so `find` never has to choose. */
  lemma CatalogIdsUnique()
    ensures forall i, j :: 0 <= i < j < |ProjectTypes| ==> ProjectTypes[i].id != ProjectTypes[j].id
    ensures forall i, j :: 0 <= i < j < |Features| ==> Features[i].id != Features[j].id
    ensures forall i, j :: 0 <= i < j < |UrgencyTiers| ==> UrgencyTiers[i].key != UrgencyTiers[j].key
  {
  }

  /** `find` returns the first entry carrying the key: an entry preceded by no
      other with that key is the one found. */
  lemma {:induction false} FindByFirst<T>(xs: seq<T>, key: T -> string, i: nat)
    requires i < |xs|
    requires forall j :: 0 <= j < i ==> key(xs[j]) != key(xs[i])
    ensures FindBy(xs, key, key(xs[i])) == Some(xs[i])
  {
    if i > 0 {
      assert key(xs[0]) != key(xs[i]);
      assert forall j :: 0 <= j < i - 1 ==> xs[1..][j] == xs[j + 1];
      FindByFirst(xs[1..], key, i - 1);
    }
  }

  /** In a list without repeated keys, `find` returns the one entry with that key. */
  lemma {:induction false} FindByUnique<T>(xs: seq<T>, key: T -> string, i: nat)
    requires i < |xs|
    requires forall j, k :: 0 <= j < k < |xs| ==> key(xs[j]) != key(xs[k])
    ensures FindBy(xs, key, key(xs[i])) == Some(xs[i])
  {
    if i > 0 {
      assert key(xs[0]) != key(xs[i]);
      FindByUnique(xs[1..], key, i - 1);
    }
  }

  /** Every catalog multiplier is a proper, non-zero rational. */
  lemma UrgencyMultipliersValid()
    ensures forall i :: 0 <= i < |UrgencyTiers| ==>
      UrgencyTiers[i].multiplier.Valid() && UrgencyTiers[i].multiplier.num > 0
  {
  }

  /** The empty project type of a fresh form names no catalog entry. */
  lemma EmptyIdIsNoProject()
    ensures FindProject("").None?
    ensures !IsProjectTypeId("")
  {
  }
}
