/** The portfolio grid: the constant project list, the category filter buttons,
    the filtered list shown for the selected category, and each card's tag row
    (the first four tags and a "+k more" badge). */
module Portfolio {
  import opened Js

  /** A project card; the description, thumbnail and links are presentation only. */
  datatype Project = Project(id: nat, title: string, category: string, tags: seq<string>)

  const AllCategories := "All"

  /** The filter buttons, in display order. */
  const Categories := [AllCategories, "AI/ML", "Full Stack", "Data Science"]

  const Projects := [
    Project(1, "Insurance Document NLP API", "AI/ML",
            ["Python", "FastAPI", "Tesseract OCR", "spaCy", "NLTK", "PostgreSQL"]),
    Project(2, "RAG Financial Chatbot", "AI/ML",
            ["LangChain", "GPT-2", "OCR", "Pinecone", "FastAPI", "PyTorch"]),
    Project(3, "Apple Stock LSTM Forecasting", "AI/ML",
            ["TensorFlow", "Pandas", "Matplotlib", "NumPy", "LSTM"]),
    Project(4, "Kijiji House Clustering", "Data Science",
            ["Spark", "K-Means", "DBSCAN", "Power BI", "Big Data"]),
    Project(5, "AI Energy Automation System", "Full Stack",
            ["FastAPI", "React", "AWS", "Zoho API", "PostgreSQL", "AI"]),
    Project(6, "Mental Health AI Chatbot", "AI/ML",
            ["NLP", "Sentiment Analysis", "ANN", "Python", "Published Research"])
  ]

  /** `ps.filter(p => p.category === category)`. */
  function Filter(ps: seq<Project>, category: string): (r: seq<Project>)
    ensures |r| <= |ps|
    ensures forall p :: p in r ==> p in ps && p.category == category
  {
    if ps == [] then []
    else if ps[0].category == category then [ps[0]] + Filter(ps[1..], category)
    else Filter(ps[1..], category)
  }

  /** `filteredProjects` for the selected category. */
  function FilteredProjects(activeCategory: string): (r: seq<Project>)
    ensures activeCategory == AllCategories ==> r == Projects
    ensures forall p :: p in r ==> p in Projects
    ensures activeCategory != AllCategories ==> forall p :: p in r ==> p.category == activeCategory
  {
    if activeCategory == AllCategories then Projects else Filter(Projects, activeCategory)
  }

  /** How many of `ps` belong to `category`. */
  function CountIn(ps: seq<Project>, category: string): nat {
    if ps == [] then 0
    else (if ps[0].category == category then 1 else 0) + CountIn(ps[1..], category)
  }

  /** `a` is `b` with some elements dropped and the rest kept in order. */
  predicate IsSubsequence<T(==)>(a: seq<T>, b: seq<T>) {
    if a == [] then true
    else if b == [] then false
    else (a[0] == b[0] && IsSubsequence(a[1..], b[1..])) || IsSubsequence(a, b[1..])
  }

  /** The filter keeps exactly the projects of the category. */
  lemma {:induction false} FilterMembers(ps: seq<Project>, category: string, p: Project)
    ensures p in Filter(ps, category) <==> p in ps && p.category == category
  {
    if ps != [] {
      FilterMembers(ps[1..], category, p);
      assert ps == [ps[0]] + ps[1..];
    }
  }

  /** The filtered list keeps the order of the project list. */
  lemma {:induction false} FilterIsSubsequence(ps: seq<Project>, category: string)
    ensures IsSubsequence(Filter(ps, category), ps)
  {
    if ps != [] {
      FilterIsSubsequence(ps[1..], category);
      var r := Filter(ps[1..], category);
      if ps[0].category == category {
        assert ([ps[0]] + r)[1..] == r;
      } else if r != [] {
        assert IsSubsequence(r, ps[1..]);
      }
    }
  }

  /** A subsequence is never longer than the sequence it is taken from. */
  lemma {:induction false} SubsequenceNotLonger<T>(a: seq<T>, b: seq<T>)
    requires IsSubsequence(a, b)
    ensures |a| <= |b|
  {
    if a != [] {
      if a[0] == b[0] && IsSubsequence(a[1..], b[1..]) {
        SubsequenceNotLonger(a[1..], b[1..]);
      } else {
        SubsequenceNotLonger(a, b[1..]);
      }
    }
  }

  /** The filtered list holds one entry per project of the category. */
  lemma {:induction false} FilterLength(ps: seq<Project>, category: string)
    ensures |Filter(ps, category)| == CountIn(ps, category) <= |ps|
  {
    if ps != [] {
      FilterLength(ps[1..], category);
    }
  }

  /** Filtering an already filtered list by the same category changes nothing. */
  lemma {:induction false} FilterIdempotent(ps: seq<Project>, category: string)
    ensures Filter(Filter(ps, category), category) == Filter(ps, category)
  {
    if ps != [] {
      FilterIdempotent(ps[1..], category);
      if ps[0].category == category {
        assert ([ps[0]] + Filter(ps[1..], category))[1..] == Filter(ps[1..], category);
      }
    }
  }

  /** 'All' shows the whole list in its order; any other category shows exactly
      its projects, in their order. */
  lemma FilteredProjectsSpec(activeCategory: string)
    ensures activeCategory == AllCategories ==> FilteredProjects(activeCategory) == Projects
    ensures activeCategory != AllCategories ==>
      IsSubsequence(FilteredProjects(activeCategory), Projects) &&
      |FilteredProjects(activeCategory)| == CountIn(Projects, activeCategory) &&
      forall p :: p in FilteredProjects(activeCategory) <==> p in Projects && p.category == activeCategory
  {
    if activeCategory != AllCategories {
      FilterIsSubsequence(Projects, activeCategory);
      FilterLength(Projects, activeCategory);
      forall p
        ensures p in FilteredProjects(activeCategory) <==> p in Projects && p.category == activeCategory
      {
        FilterMembers(Projects, activeCategory, p);
      }
    }
  }

  /** The total of `CountIn` over a list of categories. */
  function SumCounts(ps: seq<Project>, categories: seq<string>): nat {
    if categories == [] then 0 else CountIn(ps, categories[0]) + SumCounts(ps, categories[1..])
  }

  lemma {:induction false} SumCountsCons(p: Project, rest: seq<Project>, categories: seq<string>)
    requires Distinct(categories)
    ensures SumCounts([p] + rest, categories) == SumCounts(rest, categories) + if p.category in categories then 1 else 0
  {
    if categories != [] {
      assert ([p] + rest)[1..] == rest;
      SumCountsCons(p, rest, categories[1..]);
      if p.category == categories[0] {
        assert p.category !in categories[1..] by {
          forall k | 0 <= k < |categories[1..]|
            ensures categories[1..][k] != p.category
          {
            assert categories[1..][k] == categories[k + 1];
          }
        }
      }
    }
  }

  /** When every project's category is one of a list of distinct categories, the
      per-category filters together hold each project exactly once. */
  lemma {:induction false} FiltersPartition(ps: seq<Project>, categories: seq<string>)
    requires Distinct(categories)
    requires forall p :: p in ps ==> p.category in categories
    ensures SumCounts(ps, categories) == |ps|
  {
    if ps == [] {
      SumCountsEmpty(categories);
    } else {
      assert ps == [ps[0]] + ps[1..];
      FiltersPartition(ps[1..], categories);
      SumCountsCons(ps[0], ps[1..], categories);
    }
  }

  lemma {:induction false} SumCountsEmpty(categories: seq<string>)
    ensures SumCounts([], categories) == 0
  {
    if categories != [] {
      SumCountsEmpty(categories[1..]);
    }
  }

  /** Every project has a filter button, so the buttons other than 'All' together
      show each project exactly once. */
  lemma FilterButtonsCoverProjects()
    ensures forall p :: p in Projects ==> p.category in Categories[1..]
    ensures SumCounts(Projects, Categories[1..]) == |Projects|
  {
    FiltersPartition(Projects, Categories[1..]);
  }

  const MaxShownTags := 4

  /** `project.tags.slice(0, 4)`. */
  function ShownTags(tags: seq<string>): (shown: seq<string>)
    ensures |shown| == if |tags| < MaxShownTags then |tags| else MaxShownTags
    ensures shown <= tags
  {
    if |tags| < MaxShownTags then tags else tags[..MaxShownTags]
  }

  /** The "+k more" badge: present only when there are more than four tags. */
  function MoreCount(tags: seq<string>): (k: nat)
    ensures k > 0 <==> |tags| > MaxShownTags
  {
    if |tags| > MaxShownTags then |tags| - MaxShownTags else 0
  }

  /** The shown tags and the badge account for every tag exactly once. */
  lemma TagsAccounted(tags: seq<string>)
    ensures |ShownTags(tags)| + MoreCount(tags) == |tags|
    ensures ShownTags(tags) + tags[|ShownTags(tags)|..] == tags
    ensures MoreCount(tags) == |tags[|ShownTags(tags)|..]|
  {
  }

  /** The cards as listed: four tags each; projects 1, 2 and 5 carry "+2 more",
      the others "+1 more". */
  lemma ProjectBadges()
    ensures forall p :: p in Projects ==> |ShownTags(p.tags)| == MaxShownTags
    ensures forall i :: 0 <= i < |Projects| ==>
      MoreCount(Projects[i].tags) == if Projects[i].id in {1, 2, 5} then 2 else 1
  {
  }
}
