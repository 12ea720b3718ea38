/**
 `sample_pagerank`: estimate PageRank by following a random surfer for `n`
 steps and counting how often each page is visited.

 The random draws are parameters: `start` is what `random.choice` returns,
 `follow[i]` the branch draw of the i-th call to `transition_model`, and
 `picks[i]` the page `random.choices` returns after it. `DrawsAreFeasible`
 says which draws the random functions can produce: a first page of the
 corpus and, at every step, a page with positive weight in the transition
 distribution.
 */
module Sampling {
  import opened Sums
  import opened Errors
  import opened Corpus
  import opened Transition

  /** `range(n)` has max(n, 0) elements. */
  function Steps(n: int): nat {
    if n > 0 then n else 0
  }

  /** The pages visited: the first page, then one page per step. */
  function Walk(start: Page, picks: seq<Page>): seq<Page> {
    [start] + picks
  }

  /** `random.choices` with these weights can return `next`. */
  predicate Drawable(t: Distribution, next: Page) {
    next in t && t[next] > 0.0
  }

  /**
   The draws are ones the random functions can produce: the first page is a
   page of the corpus (when there is one), and every step that computes a
   distribution is followed by a page drawn with positive weight from it.
   */
  ghost predicate DrawsAreFeasible(c: Corpus, d: real, start: Page, follow: seq<bool>, picks: seq<Page>) {
    && (|c.pages| > 0 ==> start in c.links)
    && |follow| == |picks|
    && forall i {:trigger follow[i]} :: 0 <= i < |picks| ==>
         var t := TransitionResult(c, Walk(start, picks)[i], d, follow[i]);
         t.Success? ==> Drawable(t.value, picks[i])
  }

  /**
   The i-th step of the walk follows a link from a page without links, where
   `transition_model` raises ZeroDivisionError.
   */
  ghost predicate FailsAt(c: Corpus, walk: seq<Page>, follow: seq<bool>, i: nat)
    requires i < |walk| && i < |follow|
  {
    follow[i] && walk[i] in c.links && c.links[walk[i]] == {}
  }

  /** For every page of the corpus, the number of times it occurs in `walk`. */
  function Counted(c: Corpus, walk: seq<Page>): map<Page, int> {
    map p | p in c.links :: Occurrences(walk, p)
  }

  /** Visit counts divided by `n`: what `sample_pagerank` returns. */
  function Visits(c: Corpus, walk: seq<Page>, n: int): Distribution
    requires n != 0
  {
    map p | p in c.links :: Occurrences(walk, p) as real / n as real
  }

  /**
   `sample_pagerank(corpus, d, n)`. An empty corpus makes `random.choice`
   raise IndexError. A follow-link step from a page without links raises
   ZeroDivisionError, and so does the final division when `n` is 0. Otherwise
   each page gets the number of its visits in the walk of max(n, 0) + 1 pages,
   divided by `n`.
   */
  method SamplePagerank(c: Corpus, d: real, n: int, start: Page, follow: seq<bool>, picks: seq<Page>)
    returns (r: Result<Distribution>)
    requires Valid(c) && |picks| == Steps(n)
    requires DrawsAreFeasible(c, d, start, follow, picks)
    ensures |c.pages| == 0 ==> r == Failure(IndexError)
    ensures |c.pages| > 0 && r.Failure? ==> r.error == ZeroDivisionError
    ensures r.Failure? <==>
      |c.pages| == 0 || n == 0 ||
      exists i :: 0 <= i < Steps(n) && FailsAt(c, Walk(start, picks), follow, i)
    ensures r.Success? ==>
      n != 0 &&
      (forall i :: 0 <= i < |Walk(start, picks)| ==> Walk(start, picks)[i] in c.links) &&
      r.value == Visits(c, Walk(start, picks), n)
  {
    var links := c.pages;
    if |links| == 0 {
      return Failure(IndexError);
    }
    ghost var walk := Walk(start, picks);
    DrawsStayInCorpus(c, d, start, follow, picks);
    var visits := CountVisits(c, d, n, start, follow, picks);
    if visits.Failure? {
      return Failure(visits.error);
    }
    if n == 0 {
      return Failure(ZeroDivisionError);
    }
    var ranks := DivideAll(c, visits.value, n);
    assert ranks == Visits(c, walk, n) by {
      assert ranks.Keys == Visits(c, walk, n).Keys;
    }
    return Success(ranks);
  }

  /**
   The walk itself: one visit for the first page, then for each of the
   max(n, 0) steps the transition distribution and one visit for the page
   drawn from it. Fails, with ZeroDivisionError, at the first step that
   follows a link from a page without links.
   */
  method CountVisits(c: Corpus, d: real, n: int, start: Page, follow: seq<bool>, picks: seq<Page>)
    returns (r: Result<map<Page, int>>)
    requires Listed(c) && Closed(c) && |picks| == Steps(n) && |follow| == |picks|
    requires StaysInCorpus(c, start, follow, picks)
    ensures r.Failure? <==> exists i :: 0 <= i < Steps(n) && FailsAt(c, Walk(start, picks), follow, i)
    ensures r.Failure? ==> r.error == ZeroDivisionError
    ensures r.Success? ==>
      (forall i :: 0 <= i < |Walk(start, picks)| ==> Walk(start, picks)[i] in c.links) &&
      r.value == Counted(c, Walk(start, picks))
  {
    ghost var walk := Walk(start, picks);
    var visits := ZeroCounts(c);
    var page := start;
    visits := visits[page := visits[page] + 1];
    for i := 0 to Steps(n)
      invariant page == walk[i]
      invariant page in c.links
      invariant forall k :: 0 <= k < i ==> !FailsAt(c, walk, follow, k)
      invariant visits == Counted(c, Walk(start, picks[..i]))
    {
      var next := NextPage(c, page, d, follow[i], picks[i]);
      if next.Failure? {
        assert FailsAt(c, walk, follow, i);
        return Failure(next.error);
      }
      page := next.value;
      CountedNext(c, start, picks, i, visits);
      visits := visits[page := visits[page] + 1];
    }
    assert picks[..Steps(n)] == picks;
    WalkStaysInCorpus(c, start, follow, picks);
    return Success(visits);
  }

  /**
   One step of the walk from a page of the corpus: `transition_model` computes
   the distribution, which fails exactly for a follow-link step from a page
   without links, and otherwise the page `pick` drawn from it is the next page.
   */
  method NextPage(c: Corpus, page: Page, d: real, follow: bool, pick: Page) returns (r: Result<Page>)
    requires Listed(c) && Closed(c) && page in c.links
    ensures r.Failure? <==> follow && c.links[page] == {}
    ensures r.Failure? ==> r.error == ZeroDivisionError
    ensures r.Success? ==> r.value == pick
  {
    var probability := TransitionModel(c, page, d, follow);
    TransitionFails(c, page, d, follow);
    if probability.Failure? {
      return Failure(probability.error);
    }
    return Success(pick);
  }

  /** `{page_name: 0 for page_name in corpus}`, the visit counts before the walk. */
  method ZeroCounts(c: Corpus) returns (visits: map<Page, int>)
    requires Listed(c)
    ensures visits == Counted(c, [])
  {
    visits := map[];
    for i := 0 to |c.pages|
      invariant forall p :: p in visits <==> p in c.pages[..i]
      invariant forall p :: p in visits ==> visits[p] == 0
    {
      visits := visits[c.pages[i] := 0];
    }
    assert c.pages[..|c.pages|] == c.pages;
    assert visits.Keys == Counted(c, []).Keys;
  }

  /** Counting the page drawn at step `i` extends the counts of the walk so far by one visit. */
  lemma {:induction false} CountedNext(c: Corpus, start: Page, picks: seq<Page>, i: nat, visits: map<Page, int>)
    requires i < |picks| && picks[i] in c.links
    requires visits == Counted(c, Walk(start, picks[..i]))
    ensures visits[picks[i] := visits[picks[i]] + 1] == Counted(c, Walk(start, picks[..i + 1]))
  {
    assert Walk(start, picks[..i + 1]) == Walk(start, picks[..i]) + [picks[i]];
    CountedStep(c, Walk(start, picks[..i]), picks[i]);
  }

  /** The count of every page of the corpus is its multiplicity in the walk. */
  lemma {:induction false} CountedIsMultiplicity(c: Corpus, walk: seq<Page>)
    ensures forall p :: p in Counted(c, walk) ==> Counted(c, walk)[p] == multiset(walk)[p]
  {
    forall p | p in Counted(c, walk)
      ensures Counted(c, walk)[p] == multiset(walk)[p]
    {
      OccurrencesAreMultiplicity(walk, p);
    }
  }

  /** Counting one more visit of a page of the corpus. */
  lemma {:induction false} CountedStep(c: Corpus, w: seq<Page>, p: Page)
    requires p in c.links
    ensures Counted(c, w + [p]) == Counted(c, w)[p := Counted(c, w)[p] + 1]
  {
    forall q | q in c.links {
      OccurrencesAppend(w, p, q);
    }
  }

  /**
   Until the walk fails, every page drawn is a page of the corpus: the first
   page, and the page drawn after every step that computes a distribution.
   */
  ghost predicate StaysInCorpus(c: Corpus, start: Page, follow: seq<bool>, picks: seq<Page>)
    requires |follow| == |picks|
  {
    && start in c.links
    && forall i {:trigger follow[i]} :: 0 <= i < |picks| && Walk(start, picks)[i] in c.links &&
           !FailsAt(c, Walk(start, picks), follow, i)
         ==> picks[i] in c.links
  }

  /**
   A walk that never fails stays in the corpus from its first page to its
   last.
   */
  lemma {:induction false} WalkStaysInCorpus(c: Corpus, start: Page, follow: seq<bool>, picks: seq<Page>)
    requires |follow| == |picks| && StaysInCorpus(c, start, follow, picks)
    requires forall k :: 0 <= k < |picks| ==> !FailsAt(c, Walk(start, picks), follow, k)
    ensures forall k :: 0 <= k < |Walk(start, picks)| ==> Walk(start, picks)[k] in c.links
  {
    var walk := Walk(start, picks);
    var k := 0;
    while k < |picks|
      invariant 0 <= k <= |picks|
      invariant forall j :: 0 <= j <= k ==> walk[j] in c.links
    {
      assert !FailsAt(c, walk, follow, k);
      k := k + 1;
    }
  }

  /** Draws that follow the model stay in a non-empty corpus. */
  lemma {:induction false} DrawsStayInCorpus(c: Corpus, d: real, start: Page, follow: seq<bool>, picks: seq<Page>)
    requires Listed(c) && |c.pages| > 0 && DrawsAreFeasible(c, d, start, follow, picks)
    ensures StaysInCorpus(c, start, follow, picks)
  {
    var walk := Walk(start, picks);
    forall i | 0 <= i < |picks| && walk[i] in c.links && !FailsAt(c, walk, follow, i)
      ensures picks[i] in c.links
    {
      TransitionFails(c, walk[i], d, follow[i]);
      TransitionKeys(c, walk[i], d, follow[i]);
    }
  }

  /** `for p1 in links: s_pagerank[p1] /= n` */
  method DivideAll(c: Corpus, visits: map<Page, int>, n: int) returns (ranks: Distribution)
    requires Ordered(c) && n != 0 && visits.Keys == c.links.Keys
    ensures ranks.Keys == c.links.Keys
    ensures forall p :: p in ranks ==> ranks[p] == visits[p] as real / n as real
  {
    ranks := map p | p in visits :: visits[p] as real;
    for i := 0 to |c.pages|
      invariant ranks.Keys == c.links.Keys
      invariant forall p :: p in ranks ==>
        ranks[p] == if p in c.pages[..i] then visits[p] as real / n as real else visits[p] as real
    {
      var p1 := c.pages[i];
      Unseen(c.pages, i);
      ranks := ranks[p1 := ranks[p1] / n as real];
    }
    assert c.pages[..|c.pages|] == c.pages;
  }

  /**
   The estimates add up to the length of the walk divided by `n`: max(n, 0) + 1
   visits are counted and each counts 1/n.
   */
  lemma {:induction false} VisitsTotal(c: Corpus, start: Page, picks: seq<Page>, n: int)
    requires Ordered(c) && n != 0 && |picks| == Steps(n)
    requires forall i :: 0 <= i < |Walk(start, picks)| ==> Walk(start, picks)[i] in c.links
    ensures Total(c.pages, Visits(c, Walk(start, picks), n)) == (Steps(n) + 1) as real / n as real
  {
    var walk := Walk(start, picks);
    var visits := Visits(c, walk, n);
    var steps, divisor := (Steps(n) + 1) as real, n as real;
    forall i | 0 <= i < |c.pages|
      ensures Lookup(visits)(c.pages[i]) == Counts(walk)(c.pages[i]) / divisor
    {
      assert c.pages[i] in c.links;
    }
    SumCounts(c.pages, walk);
    SumDivide(c.pages, Counts(walk), Lookup(visits), divisor, steps);
    TotalIsSum(c.pages, visits);
  }

  /**
   For n > 0 each estimate is at most (max(n, 0) + 1)/n, the share of a page
   visited at every step of the walk.
   */
  lemma {:induction false} VisitsAtMost(c: Corpus, start: Page, picks: seq<Page>, n: int)
    requires n > 0 && |picks| == Steps(n)
    ensures forall p :: p in Visits(c, Walk(start, picks), n) ==>
      Visits(c, Walk(start, picks), n)[p] <= (Steps(n) + 1) as real / n as real
  {
    var walk := Walk(start, picks);
    forall p | p in Visits(c, walk, n)
      ensures Visits(c, walk, n)[p] <= (Steps(n) + 1) as real / n as real
    {
      OccurrencesAtMost(walk, p);
      var count, length, divisor := Occurrences(walk, p) as real, (Steps(n) + 1) as real, n as real;
      DivideMonotone(count, length, divisor);
    }
  }

  /**
   The bound is reached, and an estimate can exceed 1: in a corpus of one page
   without links, one teleport step visits the page twice, so with n = 1 its
   estimate is 2. The draws are feasible and the step does not fail.
   */
  lemma {:induction false} VisitsCanExceedOne()
    ensures var c := Corpus(["a.html"], map["a.html" := {}]);
      && Valid(c)
      && DrawsAreFeasible(c, 0.85, "a.html", [false], ["a.html"])
      && !FailsAt(c, Walk("a.html", ["a.html"]), [false], 0)
      && Visits(c, Walk("a.html", ["a.html"]), 1)["a.html"] == 2.0
  {
    var c := Corpus(["a.html"], map["a.html" := {}]);
    var walk := Walk("a.html", ["a.html"]);
    assert walk == ["a.html", "a.html"];
    assert walk[..1] == ["a.html"];
    assert Occurrences(walk, "a.html") == 2;
    assert Uniform(c)["a.html"] == 1.0;
  }

  /** For n > 0 no estimate is negative. */
  lemma {:induction false} VisitsNonNegative(c: Corpus, walk: seq<Page>, n: int)
    requires n > 0
    ensures forall p :: p in Visits(c, walk, n) ==> Visits(c, walk, n)[p] >= 0.0
  {
    forall p | p in Visits(c, walk, n)
      ensures Visits(c, walk, n)[p] >= 0.0
    {
      var count := Occurrences(walk, p) as real;
      assert count >= 0.0 && n as real > 0.0;
    }
  }
}
