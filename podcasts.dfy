/**
 * The podcast catalogue page: a constant list of six podcasts, filtered by a
 * case-insensitive search in the title or the description and by a category
 * ("Tous" for all), then ordered; the per-category counts of the overview
 * and the results label. Only the "episodes" ordering is modelled.
 */
module Podcasts {
  import opened Text
  import opened Lists

  datatype LatestEpisode = LatestEpisode(id: string, title: string, duration: string, date: string)

  /** One catalogue entry; the cover image is presentation only. */
  datatype Podcast = Podcast(
    id: string, title: string, description: string, category: string,
    episodeCount: nat, latestEpisode: LatestEpisode)

  /** `allPodcasts`. */
  const AllPodcasts: seq<Podcast> := [
    Podcast("1", "Voix de la Diaspora",
      "Un podcast explorant les histoires personnelles et les expériences des communautés de la diaspora africaine à travers le monde.",
      "Culture", 12, LatestEpisode("1", "Entre deux mondes : grandir multiculturel", "45:30", "15 Nov 2024")),
    Podcast("2", "Rythmes Métissés",
      "Découvrez comment la musique crée des ponts entre les cultures et unit les communautés de la diaspora mondiale.",
      "Musique", 8, LatestEpisode("2", "L'Afrobeat moderne : fusion des générations", "38:15", "12 Nov 2024")),
    Podcast("3", "Histoires Créoles",
      "Plongez dans les récits authentiques des communautés créoles et découvrez leur riche patrimoine culturel.",
      "Histoire", 15, LatestEpisode("3", "Les traditions culinaires créoles", "52:22", "10 Nov 2024")),
    Podcast("4", "Migrations Contemporaines",
      "Explorez les défis et opportunités des nouvelles générations d'immigrants et leur impact sur les sociétés d'accueil.",
      "Société", 6, LatestEpisode("4", "Intégration professionnelle : parcours de réussite", "42:18", "8 Nov 2024")),
    Podcast("5", "Langues Maternelles",
      "Comment les langues d'origine se transmettent-elles et évoluent-elles au sein des communautés diasporiques ?",
      "Linguistique", 10, LatestEpisode("5", "Le multilinguisme comme atout", "37:45", "5 Nov 2024")),
    Podcast("6", "Cuisines du Monde",
      "Un voyage gustatif à travers les traditions culinaires préservées et réinventées par les communautés diasporiques.",
      "Gastronomie", 9, LatestEpisode("6", "Fusion culinaire : tradition et innovation", "40:12", "3 Nov 2024"))
  ]

  /** The category that selects every podcast. */
  const AllCategories: string := "Tous"

  /** `categories`: "Tous" first, then one per podcast category. */
  const Categories: seq<string> := [AllCategories, "Culture", "Musique", "Histoire", "Société", "Linguistique", "Gastronomie"]

  // ---- the filter ----

  /** The search term, lower-cased, occurs in the lower-cased title or description. */
  predicate MatchesSearch(p: Podcast, term: string) {
    Contains(Lower(p.title), Lower(term)) || Contains(Lower(p.description), Lower(term))
  }

  predicate MatchesCategory(p: Podcast, category: string) {
    category == AllCategories || p.category == category
  }

  predicate Matches(p: Podcast, term: string, category: string) {
    MatchesSearch(p, term) && MatchesCategory(p, category)
  }

  /** `allPodcasts.filter(...)`: a podcast is kept exactly when it matches both criteria. */
  function Filter(ps: seq<Podcast>, term: string, category: string): (r: seq<Podcast>)
    ensures |r| <= |ps|
    ensures forall p :: p in r <==> p in ps && Matches(p, term, category)
    ensures forall p :: multiset(r)[p] == if Matches(p, term, category) then multiset(ps)[p] else 0
  {
    if ps == [] then []
    else
      assert ps == [ps[0]] + ps[1..];
      (if Matches(ps[0], term, category) then [ps[0]] else []) + Filter(ps[1..], term, category)
  }

  /** The filter keeps the catalogue's order. */
  lemma {:induction false} FilterKeepsOrder(ps: seq<Podcast>, term: string, category: string)
    ensures IsSubsequence(Filter(ps, term, category), ps)
  {
    if ps != [] {
      FilterKeepsOrder(ps[1..], term, category);
      var rest := Filter(ps[1..], term, category);
      var r := Filter(ps, term, category);
      if Matches(ps[0], term, category) {
        assert r == [ps[0]] + rest;
        assert r[0] == ps[0] && r[1..] == rest;
      } else {
        assert r == rest;
      }
    }
  }

  /** An empty search matches every podcast. */
  lemma EmptySearchMatches(p: Podcast)
    ensures MatchesSearch(p, "")
  {
    ContainsEmpty(Lower(p.title));
  }

  /** An empty search in "Tous" keeps the whole list. */
  lemma {:induction false} EmptySearchKeepsAll(ps: seq<Podcast>)
    ensures Filter(ps, "", AllCategories) == ps
  {
    if ps != [] {
      EmptySearchMatches(ps[0]);
      EmptySearchKeepsAll(ps[1..]);
    }
  }

  // ---- the "episodes" ordering ----

  /** Each entry has at least as many episodes as the next one. */
  predicate StepsDown(s: seq<Podcast>) {
    forall i :: 0 < i < |s| ==> s[i - 1].episodeCount >= s[i].episodeCount
  }

  /** Non-increasing in the usual sense: every earlier entry has at least as many episodes as every later one. */
  predicate NonIncreasing(s: seq<Podcast>) {
    forall i, j :: 0 <= i < j < |s| ==> s[i].episodeCount >= s[j].episodeCount
  }

  lemma {:induction false} StepsDownIsNonIncreasing(s: seq<Podcast>)
    requires StepsDown(s)
    ensures NonIncreasing(s)
  {
    if s != [] {
      assert StepsDown(s[1..]) by {
        forall i | 0 < i < |s[1..]|
          ensures s[1..][i - 1].episodeCount >= s[1..][i].episodeCount
        {
          assert s[1..][i - 1] == s[i] && s[1..][i] == s[i + 1];
        }
      }
      StepsDownIsNonIncreasing(s[1..]);
      forall i, j | 0 <= i < j < |s|
        ensures s[i].episodeCount >= s[j].episodeCount
      {
        if i > 0 {
          assert s[i] == s[1..][i - 1] && s[j] == s[1..][j - 1];
        } else if j > 1 {
          assert s[1] == s[1..][0] && s[j] == s[1..][j - 1];
        }
      }
    }
  }

  /** Insert `p` before the first entry with fewer episodes than it. */
  function Insert(p: Podcast, s: seq<Podcast>): (r: seq<Podcast>)
    ensures multiset(r) == multiset(s) + multiset{p}
    ensures |r| == |s| + 1 && (r[0] == p || (s != [] && r[0] == s[0]))
  {
    if s == [] || p.episodeCount >= s[0].episodeCount then [p] + s
    else
      assert s == [s[0]] + s[1..];
      [s[0]] + Insert(p, s[1..])
  }

  /** Inserting into a list that steps down gives a list that steps down. */
  lemma {:induction false} InsertStepsDown(p: Podcast, s: seq<Podcast>)
    requires StepsDown(s)
    ensures StepsDown(Insert(p, s))
  {
    if s != [] && p.episodeCount < s[0].episodeCount {
      var rest := Insert(p, s[1..]);
      assert StepsDown(s[1..]) by {
        forall i | 0 < i < |s[1..]|
          ensures s[1..][i - 1].episodeCount >= s[1..][i].episodeCount
        {
          assert s[1..][i - 1] == s[i] && s[1..][i] == s[i + 1];
        }
      }
      InsertStepsDown(p, s[1..]);
      var r := Insert(p, s);
      assert r == [s[0]] + rest;
      forall i | 0 < i < |r|
        ensures r[i - 1].episodeCount >= r[i].episodeCount
      {
        if i == 1 {
          assert r[1] == rest[0];
        } else {
          assert r[i - 1] == rest[i - 2] && r[i] == rest[i - 1];
        }
      }
    }
  }

  /**
   * `sort((a, b) => b.episodeCount - a.episodeCount)`: the same podcasts,
   * most episodes first. Each entry goes before the ones with as many
   * episodes that came after it, as a stable sort does.
   */
  function SortByEpisodes(s: seq<Podcast>): (r: seq<Podcast>)
    ensures multiset(r) == multiset(s)
    ensures StepsDown(r)
  {
    if s == [] then []
    else
      assert s == [s[0]] + s[1..];
      InsertStepsDown(s[0], SortByEpisodes(s[1..]));
      Insert(s[0], SortByEpisodes(s[1..]))
  }

  /** The podcasts of the list (the page passes `allPodcasts`) shown with the "episodes" ordering. */
  function ShownByEpisodes(ps: seq<Podcast>, term: string, category: string): (r: seq<Podcast>)
    ensures NonIncreasing(r)
    ensures multiset(r) == multiset(Filter(ps, term, category))
    ensures forall p :: p in r <==> p in ps && Matches(p, term, category)
  {
    var filtered := Filter(ps, term, category);
    var r := SortByEpisodes(filtered);
    StepsDownIsNonIncreasing(r);
    assert forall p :: p in r <==> p in multiset(filtered);
    r
  }

  // ---- counts and labels ----

  /** `allPodcasts.filter(p => p.category === category).length`. */
  function CategoryCount(ps: seq<Podcast>, category: string): (n: nat)
    ensures n <= |ps|
  {
    if ps == [] then 0 else (if ps[0].category == category then 1 else 0) + CategoryCount(ps[1..], category)
  }

  /** The overview's count is how many podcasts the list would show with that category and no search. */
  lemma {:induction false} CategoryCountIsFilterLength(ps: seq<Podcast>, category: string)
    requires category != AllCategories
    ensures CategoryCount(ps, category) == |Filter(ps, "", category)|
  {
    if ps != [] {
      EmptySearchMatches(ps[0]);
      CategoryCountIsFilterLength(ps[1..], category);
    }
  }

  /** In the shipped catalogue every category of the overview holds exactly one podcast. */
  lemma OnePodcastPerCategory()
    ensures forall k :: 1 <= k < |Categories| ==> CategoryCount(AllPodcasts, Categories[k]) == 1
  {
    forall k | 1 <= k < |Categories|
      ensures CategoryCount(AllPodcasts, Categories[k]) == 1
    {
      var c := Categories[k];
      var ps := AllPodcasts;
      assert c == ps[k - 1].category;
      assert forall i :: 0 <= i < |ps| && i != k - 1 ==> ps[i].category != c;
      CountOfSingle(ps, c, k - 1);
    }
  }

  /** A category that exactly one entry carries is counted once. */
  lemma {:induction false} CountOfSingle(ps: seq<Podcast>, category: string, j: nat)
    requires j < |ps| && ps[j].category == category
    requires forall i :: 0 <= i < |ps| && i != j ==> ps[i].category != category
    ensures CategoryCount(ps, category) == 1
  {
    if j == 0 {
      CountOfNone(ps[1..], category);
    } else {
      CountOfSingle(ps[1..], category, j - 1);
    }
  }

  lemma {:induction false} CountOfNone(ps: seq<Podcast>, category: string)
    requires forall i :: 0 <= i < |ps| ==> ps[i].category != category
    ensures CategoryCount(ps, category) == 0
  {
    if ps != [] {
      CountOfNone(ps[1..], category);
    }
  }

  /** `count > 1 ? 's' : ''`. */
  function Plural(n: nat): (r: string)
    ensures r == "s" <==> n > 1
    ensures r == "" <==> n <= 1
  {
    if n > 1 then "s" else ""
  }

  /** "N podcast(s) trouvé(s)", both words agreeing with N. */
  function ResultsLabel(n: nat): (r: string)
    ensures |r| > |NatToString(n)| && r[..|NatToString(n)|] == NatToString(n)
    ensures r[|r| - 1] == 's' <==> n > 1
  {
    NatToString(n) + " podcast" + Plural(n) + " trouvé" + Plural(n)
  }

  /** The count written at the head of the label reads back as the count. */
  lemma ResultsLabelCount(n: nat)
    ensures ParseNat(ResultsLabel(n)[..|NatToString(n)|]) == n
  {
    ParseNatToString(n);
  }

  // ---- the page's inputs ----

  /** The three inputs of the list: search text, category and ordering. */
  datatype Filters = Filters(searchTerm: string, category: string, sortBy: string)

  /** The initial `useState` values. */
  const Initial: Filters := Filters("", AllCategories, "recent")

  /** "Réinitialiser les filtres": back to no search and "Tous"; the ordering is kept. */
  function Reset(f: Filters): (r: Filters)
    ensures r.searchTerm == "" && r.category == AllCategories && r.sortBy == f.sortBy
  {
    f.(searchTerm := "", category := AllCategories)
  }

  /** The page opens on every podcast, and a reset does not change the opening filters. */
  lemma InitialShowsAll()
    ensures Filter(AllPodcasts, Initial.searchTerm, Initial.category) == AllPodcasts
    ensures Reset(Initial) == Initial
  {
    EmptySearchKeepsAll(AllPodcasts);
  }

  /** After a reset every podcast is shown again. */
  lemma ResetShowsAll(f: Filters)
    ensures Filter(AllPodcasts, Reset(f).searchTerm, Reset(f).category) == AllPodcasts
  {
    EmptySearchKeepsAll(AllPodcasts);
  }
}
