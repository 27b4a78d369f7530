/**
 * The learning path: three fixed reading orders keyed by category, the
 * current article's position in its order, the up to three articles after
 * it and the up to three before it, and whether the component renders.
 */
module LearningPath {
  import opened Wrappers
  import opened Seqs
  import opened Articles

  datatype Path = Path(name: string, description: string, order: seq<string>)

  const ReactOrder: seq<string> := [
    "react-components", "react-props", "react-state", "react-hooks", "useEffect-deep-dive",
    "usecontext-patterns", "usememo-usecallback", "react-fiber", "reconciliation-algorithm",
    "suspense", "react-server-components"]

  const JavaScriptOrder: seq<string> := [
    "javascript-basics", "variables-scope", "closures", "prototypes", "this-keyword",
    "async-javascript", "promises", "async-await", "event-loop", "es6-features", "es2020-features"]

  const PerformanceOrder: seq<string> := [
    "performance-basics", "lazy-loading", "code-splitting", "tree-shaking", "memoization",
    "virtual-scrolling", "web-vitals", "performance-monitoring"]

  /** `learningPaths[category]`. */
  function PathFor(category: string): (p: Option<Path>)
    ensures p.Some? <==> category in {"react-internals", "javascript-core", "performance"}
  {
    if category == "react-internals" then
      Some(Path("React Mastery Path", "From basic React to advanced internals", ReactOrder))
    else if category == "javascript-core" then
      Some(Path("JavaScript Fundamentals", "Master core JavaScript concepts", JavaScriptOrder))
    else if category == "performance" then
      Some(Path("Performance Optimization", "Make your web apps blazing fast", PerformanceOrder))
    else None
  }

  lemma ReactOrderNoDup()
    ensures NoDup(ReactOrder)
  {
  }

  lemma JavaScriptOrderNoDup()
    ensures NoDup(JavaScriptOrder)
  {
  }

  lemma PerformanceOrderNoDup()
    ensures NoDup(PerformanceOrder)
  {
  }

  /** No path lists a slug twice. */
  lemma PathsHaveNoDuplicates(category: string)
    requires PathFor(category).Some?
    ensures NoDup(PathFor(category).value.order)
  {
    ReactOrderNoDup();
    JavaScriptOrderNoDup();
    PerformanceOrderNoDup();
  }

  /** `findIndex(slug => slug === x)`: the first position of `x`, or -1. */
  function IndexOf(s: seq<string>, x: string): (r: int)
    ensures -1 <= r < |s|
    ensures r == -1 <==> x !in s
    ensures r >= 0 ==> s[r] == x && forall j :: 0 <= j < r ==> s[j] != x
  {
    if s == [] then -1
    else if s[0] == x then 0
    else
      var r := IndexOf(s[1..], x);
      assert forall j :: 0 <= j < |s[1..]| ==> s[1..][j] == s[j + 1];
      if r == -1 then -1 else r + 1
  }

  /** The path of the current article, if there is an article and its category has one. */
  function PathInfo(current: Option<Article>): Option<Path> {
    if current.Some? then PathFor(current.value.category) else None
  }

  /** `currentIndex`: the article's first position in its path, or -1. */
  function CurrentIndex(current: Option<Article>): (i: int)
    ensures i == -1 <==> PathInfo(current).None? || current.value.slug !in PathInfo(current).value.order
    ensures i >= 0 ==> i < |PathInfo(current).value.order| && PathInfo(current).value.order[i] == current.value.slug
    ensures i >= 0 ==> forall j :: 0 <= j < i ==> PathInfo(current).value.order[j] != current.value.slug
  {
    match PathInfo(current)
    case None => -1
    case Some(p) => IndexOf(p.order, current.value.slug)
  }

  /** The articles the component draws from: those of the current category, or of "react-internals". */
  function PathArticles(articles: seq<Article>, current: Option<Article>): (r: seq<Article>)
    ensures var category := if current.Some? && current.value.category != "" then current.value.category else "react-internals";
      && (forall i :: 0 <= i < |r| ==> r[i] in articles && r[i].category == category)
      && (forall i :: 0 <= i < |articles| && articles[i].category == category ==> articles[i] in r)
  {
    GetArticlesByCategory(articles, if current.Some? && current.value.category != "" then current.value.category else "react-internals")
  }

  /** `slugs.map(slug => pool.find(...)).filter(defined)`: the found articles, in slug order. */
  function FindAll(pool: seq<Article>, slugs: seq<string>): (r: seq<Article>)
    ensures |r| <= |slugs|
    ensures forall i :: 0 <= i < |r| ==> r[i] in pool && r[i].slug in slugs
    ensures forall i :: 0 <= i < |slugs| && GetArticleBySlug(pool, slugs[i]).Some? ==>
      GetArticleBySlug(pool, slugs[i]).value in r
  {
    if slugs == [] then []
    else
      var rest := FindAll(pool, slugs[1..]);
      assert forall i :: 0 <= i < |slugs[1..]| ==> slugs[1..][i] == slugs[i + 1];
      match GetArticleBySlug(pool, slugs[0])
      case None => rest
      case Some(a) => [a] + rest
  }

  /** The found articles are, in order, those of the slugs that name an article of the pool. */
  lemma {:induction false} FindAllSlugs(pool: seq<Article>, slugs: seq<string>)
    ensures MapSeq(FindAll(pool, slugs), (a: Article) => a.slug)
         == Filter(slugs, (s: string) => GetArticleBySlug(pool, s).Some?)
  {
    if slugs != [] {
      FindAllSlugs(pool, slugs[1..]);
      match GetArticleBySlug(pool, slugs[0])
      case None =>
      case Some(a) =>
        assert FindAll(pool, slugs) == [a] + FindAll(pool, slugs[1..]);
    }
  }

  function Min(a: int, b: int): int {
    if a <= b then a else b
  }

  function Max(a: int, b: int): int {
    if a >= b then a else b
  }

  /** The slugs of `order.slice(i + 1, i + 4)`. */
  function NextSlugs(order: seq<string>, i: nat): (r: seq<string>)
    requires i < |order|
    ensures |r| == Min(3, |order| - (i + 1))
    ensures forall k :: 0 <= k < |r| ==> r[k] == order[i + 1 + k]
  {
    order[i + 1..Min(i + 4, |order|)]
  }

  /** The slugs of `order.slice(Math.max(0, i - 3), i)`. */
  function PrerequisiteSlugs(order: seq<string>, i: nat): (r: seq<string>)
    requires i < |order|
    ensures |r| == Min(3, i)
    ensures forall k :: 0 <= k < |r| ==> r[k] == order[i - |r| + k]
  {
    order[Max(0, i - 3)..i]
  }

  /** `nextInPath`. */
  function NextInPath(articles: seq<Article>, current: Option<Article>): (r: seq<Article>)
    ensures |r| <= 3
    ensures PathInfo(current).None? || CurrentIndex(current) == -1 ==> r == []
  {
    var i := CurrentIndex(current);
    if PathInfo(current).None? || i == -1 then []
    else FindAll(PathArticles(articles, current), NextSlugs(PathInfo(current).value.order, i))
  }

  /** `prerequisites`. */
  function Prerequisites(articles: seq<Article>, current: Option<Article>): (r: seq<Article>)
    ensures |r| <= 3
    ensures PathInfo(current).None? || CurrentIndex(current) == -1 ==> r == []
    ensures CurrentIndex(current) == 0 ==> r == []
  {
    var i := CurrentIndex(current);
    if PathInfo(current).None? || i == -1 then []
    else FindAll(PathArticles(articles, current), PrerequisiteSlugs(PathInfo(current).value.order, i))
  }

  /** The window after position `i` of a duplicate-free order does not hold `order[i]`. */
  lemma NextSlugsExclude(order: seq<string>, i: nat)
    requires i < |order| && NoDup(order)
    ensures forall s :: s in NextSlugs(order, i) ==> s != order[i] && s in order
  {
    var next := NextSlugs(order, i);
    forall s | s in next ensures s != order[i] && s in order {
      var k :| 0 <= k < |next| && next[k] == s;
      assert s == order[i + 1 + k];
    }
  }

  /** The window before the first position of a slug does not hold it. */
  lemma PrerequisiteSlugsExclude(order: seq<string>, i: nat)
    requires i < |order| && forall j :: 0 <= j < i ==> order[j] != order[i]
    ensures forall s :: s in PrerequisiteSlugs(order, i) ==> s != order[i] && s in order
  {
    var prior := PrerequisiteSlugs(order, i);
    forall s | s in prior ensures s != order[i] && s in order {
      var k :| 0 <= k < |prior| && prior[k] == s;
      assert s == order[Max(0, i - 3) + k];
    }
  }

  /** The next articles belong to the path and are not the current article. */
  lemma NextExcludesCurrent(articles: seq<Article>, current: Option<Article>)
    ensures forall k :: 0 <= k < |NextInPath(articles, current)| ==>
      NextInPath(articles, current)[k].slug != current.value.slug
      && NextInPath(articles, current)[k].slug in PathInfo(current).value.order
  {
    var i := CurrentIndex(current);
    if PathInfo(current).Some? && i != -1 {
      PathsHaveNoDuplicates(current.value.category);
      NextSlugsExclude(PathInfo(current).value.order, i);
    }
  }

  /** The prerequisites belong to the path and are not the current article. */
  lemma PrerequisitesExcludeCurrent(articles: seq<Article>, current: Option<Article>)
    ensures forall k :: 0 <= k < |Prerequisites(articles, current)| ==>
      Prerequisites(articles, current)[k].slug != current.value.slug
      && Prerequisites(articles, current)[k].slug in PathInfo(current).value.order
  {
    var i := CurrentIndex(current);
    if PathInfo(current).Some? && i != -1 {
      PrerequisiteSlugsExclude(PathInfo(current).value.order, i);
    }
  }

  /** The next articles follow the path order within the three positions after the current one. */
  lemma NextInPathOrder(articles: seq<Article>, current: Option<Article>)
    requires PathInfo(current).Some? && CurrentIndex(current) != -1
    ensures Subseq(MapSeq(NextInPath(articles, current), (a: Article) => a.slug),
                   NextSlugs(PathInfo(current).value.order, CurrentIndex(current)))
  {
    var slugs := NextSlugs(PathInfo(current).value.order, CurrentIndex(current));
    FindAllSlugs(PathArticles(articles, current), slugs);
    FilterIsSubseq(slugs, (s: string) => GetArticleBySlug(PathArticles(articles, current), s).Some?);
  }

  /** The prerequisites follow the path order within the three positions before the current one. */
  lemma PrerequisitesOrder(articles: seq<Article>, current: Option<Article>)
    requires PathInfo(current).Some? && CurrentIndex(current) != -1
    ensures Subseq(MapSeq(Prerequisites(articles, current), (a: Article) => a.slug),
                   PrerequisiteSlugs(PathInfo(current).value.order, CurrentIndex(current)))
  {
    var slugs := PrerequisiteSlugs(PathInfo(current).value.order, CurrentIndex(current));
    FindAllSlugs(PathArticles(articles, current), slugs);
    FilterIsSubseq(slugs, (s: string) => GetArticleBySlug(PathArticles(articles, current), s).Some?);
  }

  /** The fourth article of the React path is preceded by the first three and followed by the next three. */
  lemma ReactHooksWindows()
    ensures NextSlugs(ReactOrder, 3) == ["useEffect-deep-dive", "usecontext-patterns", "usememo-usecallback"]
    ensures PrerequisiteSlugs(ReactOrder, 3) == ["react-components", "react-props", "react-state"]
    ensures NextSlugs(ReactOrder, 10) == []
  {
  }

  /** What the component shows: the heading and the two windows. */
  datatype View = View(heading: string, next: seq<Article>, prerequisites: seq<Article>)

  /** The component: nothing without a path unless the full view is asked for. */
  function Render(articles: seq<Article>, current: Option<Article>, showFull: bool): (v: Option<View>)
    ensures v.None? <==> PathInfo(current).None? && !showFull
    ensures v.Some? && PathInfo(current).None? ==> v.value.heading == "Learning Path" && v.value.next == [] && v.value.prerequisites == []
  {
    var info := PathInfo(current);
    if info.None? && !showFull then None
    else
      var heading := if info.Some? && info.value.name != "" then info.value.name else "Learning Path";
      Some(View(heading, NextInPath(articles, current), Prerequisites(articles, current)))
  }
}
