/**
 `iterate_pagerank`: start from 1/N on every page and apply the PageRank
 formula to all pages at once, round after round, until the rank of the first
 page moves by less than the convergence threshold; the ranks from before that
 last round are the answer.

 The formula gives page p the share (1-d)/N plus, for every page o that links
 to p, d times o's rank divided by o's number of links. A page without links
 passes nothing on.

 `while True` may run forever; the model gives the loop a budget of `fuel`
 rounds and reports OutOfFuel when it is spent.
 */
module Iteration {
  import opened Sums
  import opened Errors
  import opened Corpus
  import opened Transition

  /** `convergence_threshold` */
  const CONVERGENCE_THRESHOLD: real := 0.0005

  /** `abs` */
  function Abs(x: real): (y: real)
    ensures y >= 0.0 && (y == x || y == -x)
  {
    if x < 0.0 then -x else x
  }

  /** What page `o` passes to each page it links to: d times its rank divided by its number of links. */
  function Share(c: Corpus, ranks: Distribution, d: real, o: Page): real
    requires o in c.links && c.links[o] != {}
  {
    d * Part(Get(ranks, o), |c.links[o]|)
  }

  /** The rank that page `o` passes to page `p` in a round: its share when it links to `p`, 0 otherwise. */
  function Flow(c: Corpus, ranks: Distribution, d: real, p: Page, o: Page): real {
    if o in c.links && p in c.links[o] then Share(c, ranks, d, o) else 0.0
  }

  /** The flow into `p` from the pages `os`, added up in list order. */
  function Inflow(c: Corpus, ranks: Distribution, d: real, p: Page, os: seq<Page>): real {
    if |os| == 0 then 0.0
    else Inflow(c, ranks, d, p, os[..|os| - 1]) + Flow(c, ranks, d, p, os[|os| - 1])
  }

  /** The new rank of page `p`: (1-d)/N plus the flow into `p` from every page. */
  function Rank(c: Corpus, ranks: Distribution, d: real, p: Page): real
    requires |c.pages| > 0
  {
    Part(1.0 - d, |c.pages|) + Inflow(c, ranks, d, p, c.pages)
  }

  /**
   One round of the formula over `pages`, page by page in list order: the map
   that `new_pagerank` holds after the outer loop has visited `pages`.
   */
  function SweepOver(c: Corpus, ranks: Distribution, d: real, pages: seq<Page>): (next: Distribution)
    requires |c.pages| > 0
    ensures forall p :: p in next <==> p in pages
  {
    if |pages| == 0 then map[]
    else
      var p := pages[|pages| - 1];
      SweepOver(c, ranks, d, pages[..|pages| - 1])[p := Rank(c, ranks, d, p)]
  }

  /** One round of the formula, on every page of the corpus. */
  function Sweep(c: Corpus, ranks: Distribution, d: real): (next: Distribution)
    requires Listed(c)
    ensures next.Keys == c.links.Keys
  {
    if |c.pages| == 0 then map[] else map p | p in c.links :: Rank(c, ranks, d, p)
  }

  /**
   The stopping rule, checked after computing the round `Sweep(c, ranks, d)`:
   the first page's rank moved by less than the threshold.
   */
  predicate Stops(c: Corpus, ranks: Distribution, d: real)
    requires Listed(c) && |c.pages| > 0
  {
    assert c.pages[0] in c.links;
    Abs(Sweep(c, ranks, d)[c.pages[0]] - Get(ranks, c.pages[0])) < CONVERGENCE_THRESHOLD
  }

  /** `initial_pagerank`: 1/N on every page; no page at all in an empty corpus. */
  function Initial(c: Corpus): Distribution {
    if |c.pages| == 0 then map[] else Uniform(c)
  }

  /**
   The `while True` loop from `ranks` with `fuel` rounds left. Each round
   computes the next ranks; the first element of an empty page list raises
   IndexError; when the first page moved by less than the threshold the loop
   ends with the ranks from before the round, otherwise the next round starts
   from the new ranks.
   */
  function Converge(c: Corpus, ranks: Distribution, d: real, fuel: nat): Result<Distribution>
    requires Listed(c)
    decreases fuel
  {
    if fuel == 0 then Failure(OutOfFuel)
    else if |c.pages| == 0 then Failure(IndexError)
    else if Stops(c, ranks, d) then Success(ranks)
    else Converge(c, Sweep(c, ranks, d), d, fuel - 1)
  }

  /** The outcome of `iterate_pagerank(corpus, d)` within `fuel` rounds. */
  function IterateResult(c: Corpus, d: real, fuel: nat): Result<Distribution>
    requires Listed(c)
  {
    Converge(c, Initial(c), d, fuel)
  }

  /** `for p0 in links: initial_pagerank[p0] = 1 / len(links)` */
  method InitialRanks(c: Corpus) returns (ranks: Distribution)
    requires Listed(c)
    ensures ranks == Initial(c)
  {
    ranks := map[];
    var links := c.pages;
    for i := 0 to |links|
      invariant forall p :: p in ranks <==> p in links[..i]
      invariant forall p :: p in ranks ==> ranks[p] == 1.0 / |links| as real
    {
      ranks := ranks[links[i] := 1.0 / |links| as real];
    }
    assert links[..|links|] == links;
  }

  /**
   The inner loop for page `p1`: start from (1-d)/N and add, page by page, the
   flow from every page that links to `p1`.
   */
  method RankOf(c: Corpus, ranks: Distribution, d: real, p1: Page) returns (calculated: real)
    requires Listed(c) && |c.pages| > 0 && ranks.Keys == c.links.Keys
    ensures calculated == Rank(c, ranks, d, p1)
  {
    var links := c.pages;
    calculated := (1.0 - d) / |links| as real;
    for j := 0 to |links|
      invariant calculated == Part(1.0 - d, |links|) + Inflow(c, ranks, d, p1, links[..j])
    {
      var other := links[j];
      assert links[..j + 1][..j] == links[..j];
      assert other in c.links && other in ranks;
      if p1 in c.links[other] {
        calculated := calculated + d * (ranks[other] / |c.links[other]| as real);
      }
    }
    assert links[..|links|] == links;
  }

  /** One round: `new_pagerank[p1]` for every page `p1`, in page order. */
  method SweepRanks(c: Corpus, ranks: Distribution, d: real) returns (next: Distribution)
    requires Listed(c) && ranks.Keys == c.links.Keys
    ensures next == Sweep(c, ranks, d)
  {
    next := map[];
    var links := c.pages;
    if |links| == 0 {
      return;
    }
    for i := 0 to |links|
      invariant next == SweepOver(c, ranks, d, links[..i])
    {
      var p1 := links[i];
      var calculated := RankOf(c, ranks, d, p1);
      assert links[..i + 1][..i] == links[..i];
      next := next[p1 := calculated];
    }
    assert links[..|links|] == links;
    forall p | p in next
      ensures next[p] == Sweep(c, ranks, d)[p]
    {
      SweepOverAt(c, ranks, d, links, p);
    }
  }

  /**
   `iterate_pagerank(corpus, damping_factor)`, with at most `fuel` rounds of
   the `while True` loop.
   */
  method IteratePagerank(c: Corpus, d: real, fuel: nat) returns (r: Result<Distribution>)
    requires Listed(c)
    ensures r == IterateResult(c, d, fuel)
  {
    var links := c.pages;
    var initial := InitialRanks(c);
    var remaining := fuel;
    while remaining > 0
      invariant initial.Keys == c.links.Keys
      invariant Converge(c, initial, d, remaining) == IterateResult(c, d, fuel)
    {
      var next := SweepRanks(c, initial, d);
      if |links| == 0 {
        return Failure(IndexError);
      }
      ConvergeRound(c, initial, next, d, remaining);
      var change := Abs(next[links[0]] - initial[links[0]]);
      if change < CONVERGENCE_THRESHOLD {
        return Success(initial);
      }
      initial := next;
      remaining := remaining - 1;
    }
    return Failure(OutOfFuel);
  }

  /** One round of `Converge`, with the new ranks already computed as `next`. */
  lemma {:induction false} ConvergeRound(c: Corpus, ranks: Distribution, next: Distribution, d: real, fuel: nat)
    requires Listed(c) && |c.pages| > 0 && ranks.Keys == c.links.Keys && fuel > 0
    requires next == Sweep(c, ranks, d)
    ensures c.pages[0] in next && c.pages[0] in ranks
    ensures Converge(c, ranks, d, fuel)
      == if Abs(next[c.pages[0]] - ranks[c.pages[0]]) < CONVERGENCE_THRESHOLD then Success(ranks)
         else Converge(c, next, d, fuel - 1)
  {
    assert c.pages[0] in c.links;
  }

  /** Where the outer loop has visited `p`, the new ranks hold `Rank` at `p`. */
  lemma {:induction false} SweepOverAt(c: Corpus, ranks: Distribution, d: real, pages: seq<Page>, p: Page)
    requires |c.pages| > 0 && p in pages
    ensures SweepOver(c, ranks, d, pages)[p] == Rank(c, ranks, d, p)
  {
    var last := pages[|pages| - 1];
    if p != last {
      assert pages == pages[..|pages| - 1] + [last];
      SweepOverAt(c, ranks, d, pages[..|pages| - 1], p);
    }
  }

  /** With d >= 0 and no negative rank, no flow is negative. */
  lemma {:induction false} FlowNonNegative(c: Corpus, ranks: Distribution, d: real, p: Page, o: Page)
    requires d >= 0.0 && forall q :: q in ranks ==> ranks[q] >= 0.0
    ensures Flow(c, ranks, d, p, o) >= 0.0
  {
    if o in c.links && p in c.links[o] {
      var share := Get(ranks, o) / |c.links[o]| as real;
      assert share >= 0.0;
    }
  }

  /** With d >= 0 and no negative rank, the flow into a page is not negative. */
  lemma {:induction false} InflowNonNegative(c: Corpus, ranks: Distribution, d: real, p: Page, os: seq<Page>)
    requires d >= 0.0 && forall q :: q in ranks ==> ranks[q] >= 0.0
    ensures Inflow(c, ranks, d, p, os) >= 0.0
  {
    if |os| > 0 {
      InflowNonNegative(c, ranks, d, p, os[..|os| - 1]);
      FlowNonNegative(c, ranks, d, p, os[|os| - 1]);
    }
  }

  /**
   With 0 <= d and no negative rank, a round gives every page at least the
   teleport share (1-d)/N: the flows it adds cannot be negative.
   */
  lemma {:induction false} SweepLowerBound(c: Corpus, ranks: Distribution, d: real)
    requires Listed(c) && d >= 0.0
    requires forall q :: q in ranks ==> ranks[q] >= 0.0
    ensures forall p :: p in Sweep(c, ranks, d) ==> Sweep(c, ranks, d)[p] >= (1.0 - d) / |c.pages| as real
  {
    forall p | p in Sweep(c, ranks, d)
      ensures Sweep(c, ranks, d)[p] >= (1.0 - d) / |c.pages| as real
    {
      InflowNonNegative(c, ranks, d, p, c.pages);
    }
  }

  /** The flow out of `o` into the pages `ps`, added up in list order. */
  function Outflow(c: Corpus, ranks: Distribution, d: real, o: Page, ps: seq<Page>): real {
    if |ps| == 0 then 0.0
    else Outflow(c, ranks, d, o, ps[..|ps| - 1]) + Flow(c, ranks, d, ps[|ps| - 1], o)
  }

  /** All the flow into the pages `ps` from the pages `os`, summed by destination. */
  function AllInflow(c: Corpus, ranks: Distribution, d: real, ps: seq<Page>, os: seq<Page>): real {
    if |ps| == 0 then 0.0
    else AllInflow(c, ranks, d, ps[..|ps| - 1], os) + Inflow(c, ranks, d, ps[|ps| - 1], os)
  }

  /** All the flow out of the pages `os` into the pages `ps`, summed by source. */
  function AllOutflow(c: Corpus, ranks: Distribution, d: real, os: seq<Page>, ps: seq<Page>): real {
    if |os| == 0 then 0.0
    else AllOutflow(c, ranks, d, os[..|os| - 1], ps) + Outflow(c, ranks, d, os[|os| - 1], ps)
  }

  /** No sources, no flow. */
  lemma {:induction false} NoInflow(c: Corpus, ranks: Distribution, d: real, ps: seq<Page>)
    ensures AllInflow(c, ranks, d, ps, []) == 0.0
  {
    if |ps| > 0 {
      NoInflow(c, ranks, d, ps[..|ps| - 1]);
    }
  }

  /** Dropping the last source `o` removes exactly the flow out of `o` into `ps`. */
  lemma {:induction false} InflowPeel(c: Corpus, ranks: Distribution, d: real, ps: seq<Page>, os: seq<Page>)
    requires |os| > 0
    ensures AllInflow(c, ranks, d, ps, os)
      == AllInflow(c, ranks, d, ps, os[..|os| - 1]) + Outflow(c, ranks, d, os[|os| - 1], ps)
  {
    if |ps| > 0 {
      InflowPeel(c, ranks, d, ps[..|ps| - 1], os);
    }
  }

  /** The flows of a round, summed by destination or by source, agree. */
  lemma {:induction false} FlowExchange(c: Corpus, ranks: Distribution, d: real, ps: seq<Page>, os: seq<Page>)
    ensures AllInflow(c, ranks, d, ps, os) == AllOutflow(c, ranks, d, os, ps)
  {
    if |os| == 0 {
      NoInflow(c, ranks, d, ps);
    } else {
      FlowExchange(c, ranks, d, ps, os[..|os| - 1]);
      InflowPeel(c, ranks, d, ps, os);
    }
  }

  /** A page without links passes nothing on. */
  lemma {:induction false} OutflowOfSink(c: Corpus, ranks: Distribution, d: real, o: Page, ps: seq<Page>)
    requires o in c.links && c.links[o] == {}
    ensures Outflow(c, ranks, d, o, ps) == 0.0
  {
    if |ps| > 0 {
      OutflowOfSink(c, ranks, d, o, ps[..|ps| - 1]);
    }
  }

  /** The flow out of a page with links is its share on each linked page and 0 elsewhere. */
  lemma {:induction false} OutflowShares(c: Corpus, ranks: Distribution, d: real, o: Page, ps: seq<Page>)
    requires o in c.links && c.links[o] != {}
    ensures Outflow(c, ranks, d, o, ps) == Sum(ps, Indicator(c.links[o], Share(c, ranks, d, o)))
  {
    if |ps| > 0 {
      OutflowShares(c, ranks, d, o, ps[..|ps| - 1]);
    }
  }

  /**
   d times the rank of a page with L links, split into L shares and summed
   over a duplicate-free page list that holds every linked page, adds back up
   to d times its rank.
   */
  lemma {:induction false} OutflowOfLinked(c: Corpus, ranks: Distribution, d: real, o: Page)
    requires o in c.links && c.links[o] != {}
    requires Distinct(c.pages) && forall p :: p in c.links[o] ==> p in c.pages
    ensures Outflow(c, ranks, d, o, c.pages) == d * Get(ranks, o)
  {
    var linked, share, passed := c.links[o], Share(c, ranks, d, o), d * Get(ranks, o);
    SharesAdd(c, ranks, d, o, linked, share, passed);
    SumIndicator(c.pages, linked, share, passed);
    OutflowShares(c, ranks, d, o, c.pages);
  }

  /** The shares of a page on its L links add up to d times its rank. */
  lemma {:induction false} SharesAdd(c: Corpus, ranks: Distribution, d: real, o: Page, linked: set<Page>, share: real, passed: real)
    requires o in c.links && linked == c.links[o] && linked != {}
    requires share == Share(c, ranks, d, o) && passed == d * Get(ranks, o)
    ensures |linked| as real * share == passed
  {
    ScaledParts(d, Get(ranks, o), |linked|);
  }

  /** What page `o` passes on in a round: d times its rank when it has links, nothing when it has none. */
  function Passed(c: Corpus, ranks: Distribution, d: real, o: Page): real {
    if o in c.links && c.links[o] != {} then d * Get(ranks, o) else 0.0
  }

  /** What the pages of `os` pass on in a round, in all. */
  function TotalPassed(c: Corpus, ranks: Distribution, d: real, os: seq<Page>): real {
    if |os| == 0 then 0.0
    else TotalPassed(c, ranks, d, os[..|os| - 1]) + Passed(c, ranks, d, os[|os| - 1])
  }

  /** The flow out of the pages of `os` into the whole corpus is what they pass on. */
  lemma {:induction false} TotalOutflow(c: Corpus, ranks: Distribution, d: real, os: seq<Page>)
    requires Valid(c) && forall o :: o in os ==> o in c.links
    ensures AllOutflow(c, ranks, d, os, c.pages) == TotalPassed(c, ranks, d, os)
  {
    if |os| > 0 {
      var o := os[|os| - 1];
      TotalOutflow(c, ranks, d, os[..|os| - 1]);
      if c.links[o] == {} {
        OutflowOfSink(c, ranks, d, o, c.pages);
      } else {
        LinkedPages(c, o);
        OutflowOfLinked(c, ranks, d, o);
      }
    }
  }

  /** The formula's values on the pages `ps`, added up in list order. */
  function RankSum(c: Corpus, ranks: Distribution, d: real, ps: seq<Page>): real
    requires |c.pages| > 0
  {
    if |ps| == 0 then 0.0
    else RankSum(c, ranks, d, ps[..|ps| - 1]) + Rank(c, ranks, d, ps[|ps| - 1])
  }

  /** Over pages of the corpus, a round's ranks add up to the formula's values. */
  lemma {:induction false} SweepSum(c: Corpus, ranks: Distribution, d: real, ps: seq<Page>)
    requires Listed(c) && |c.pages| > 0 && forall p :: p in ps ==> p in c.links
    ensures Total(ps, Sweep(c, ranks, d)) == RankSum(c, ranks, d, ps)
  {
    if |ps| > 0 {
      SweepSum(c, ranks, d, ps[..|ps| - 1]);
    }
  }

  /** The teleport shares (1-d)/N of the pages `ps`, added up. */
  function Teleports(c: Corpus, d: real, ps: seq<Page>): real
    requires |c.pages| > 0
  {
    if |ps| == 0 then 0.0 else Teleports(c, d, ps[..|ps| - 1]) + Part(1.0 - d, |c.pages|)
  }

  /** The teleport shares of all N pages make 1-d. */
  lemma {:induction false} AllTeleports(c: Corpus, d: real)
    requires |c.pages| > 0
    ensures Teleports(c, d, c.pages) == 1.0 - d
  {
    TeleportsCount(c, d, c.pages);
    PartsAdd(1.0 - d, |c.pages|);
  }

  /** The teleport shares of `ps` are |ps| times (1-d)/N. */
  lemma {:induction false} TeleportsCount(c: Corpus, d: real, ps: seq<Page>)
    requires |c.pages| > 0
    ensures Teleports(c, d, ps) == |ps| as real * Part(1.0 - d, |c.pages|)
  {
    if |ps| > 0 {
      TeleportsCount(c, d, ps[..|ps| - 1]);
    }
  }

  /** The formula's values on `ps` are the teleport shares plus the flows into `ps`. */
  lemma {:induction false} RankSumSplit(c: Corpus, ranks: Distribution, d: real, ps: seq<Page>)
    requires |c.pages| > 0
    ensures RankSum(c, ranks, d, ps) == Teleports(c, d, ps) + AllInflow(c, ranks, d, ps, c.pages)
  {
    if |ps| > 0 {
      RankSumSplit(c, ranks, d, ps[..|ps| - 1]);
    }
  }

  /**
   The total rank after a round: (1-d) from the teleport shares plus what the
   pages with at least one link pass on. The rank of a page without links
   leaves the system.
   */
  lemma {:induction false} SweepTotal(c: Corpus, ranks: Distribution, d: real)
    requires Valid(c) && |c.pages| > 0
    ensures Total(c.pages, Sweep(c, ranks, d)) == (1.0 - d) + TotalPassed(c, ranks, d, c.pages)
  {
    TotalOutflow(c, ranks, d, c.pages);
    FlowExchange(c, ranks, d, c.pages, c.pages);
    AllTeleports(c, d);
    RankSumSplit(c, ranks, d, c.pages);
    SweepSum(c, ranks, d, c.pages);
  }

  /** When every page has a link, the pages pass on d times all their rank. */
  lemma {:induction false} AllPassed(c: Corpus, ranks: Distribution, d: real, os: seq<Page>)
    requires NoSinks(c) && forall o :: o in os ==> o in c.links
    ensures TotalPassed(c, ranks, d, os) == d * Total(os, ranks)
    ensures Total(os, ranks) == 1.0 ==> TotalPassed(c, ranks, d, os) == d
  {
    if |os| > 0 {
      var prefix, o := os[..|os| - 1], os[|os| - 1];
      AllPassed(c, ranks, d, prefix);
      Distribute(d, Total(prefix, ranks), Get(ranks, o));
    }
  }

  /** d * (x + y) = d * x + d * y */
  lemma {:induction false} Distribute(d: real, x: real, y: real)
    ensures d * (x + y) == d * x + d * y
  {
  }

  /**
   Without pages that lack links, a round keeps the mass: the new total is
   (1-d) + d times the old total, so a total of 1 stays 1.
   */
  lemma {:induction false} SweepKeepsMass(c: Corpus, ranks: Distribution, d: real)
    requires Valid(c) && NoSinks(c) && |c.pages| > 0
    ensures Total(c.pages, Sweep(c, ranks, d)) == (1.0 - d) + d * Total(c.pages, ranks)
  {
    AllPassed(c, ranks, d, c.pages);
    SweepTotal(c, ranks, d);
  }

  /**
   For 0 <= d <= 1 and a corpus without pages that lack links, a round turns a
   probability distribution into a probability distribution.
   */
  lemma {:induction false} SweepIsDistribution(c: Corpus, ranks: Distribution, d: real)
    requires Valid(c) && NoSinks(c) && 0.0 <= d <= 1.0 && IsDistribution(c, ranks)
    ensures IsDistribution(c, Sweep(c, ranks, d))
  {
    assert |c.pages| > 0;
    SweepKeepsUnitMass(c, ranks, d);
    SweepLowerBound(c, ranks, d);
    TeleportNonNegative(c, d);
  }

  /** A round keeps a total rank of 1 when every page has a link. */
  lemma {:induction false} SweepKeepsUnitMass(c: Corpus, ranks: Distribution, d: real)
    requires Valid(c) && NoSinks(c) && |c.pages| > 0 && Total(c.pages, ranks) == 1.0
    ensures Total(c.pages, Sweep(c, ranks, d)) == 1.0
  {
    AllPassed(c, ranks, d, c.pages);
    SweepTotal(c, ranks, d);
  }

  /**
   With d >= 0 and no negative rank, the pages of `os` pass on at most d times
   their total rank: exactly that when all have links, less when some page
   without links keeps its rank from passing on.
   */
  lemma {:induction false} PassedAtMost(c: Corpus, ranks: Distribution, d: real, os: seq<Page>)
    requires d >= 0.0 && forall q :: q in ranks ==> ranks[q] >= 0.0
    ensures TotalPassed(c, ranks, d, os) <= d * Total(os, ranks)
  {
    if |os| > 0 {
      var prefix, o := os[..|os| - 1], os[|os| - 1];
      PassedAtMost(c, ranks, d, prefix);
      Distribute(d, Total(prefix, ranks), Get(ranks, o));
      var rank := Get(ranks, o);
      assert rank >= 0.0;
      assert d * rank >= 0.0;
    }
  }

  /** Non-negative ranks on exactly the pages of the corpus, with a total of at most 1. */
  ghost predicate IsSubDistribution(c: Corpus, m: Distribution) {
    && m.Keys == c.links.Keys
    && (forall p :: p in m ==> m[p] >= 0.0)
    && Total(c.pages, m) <= 1.0
  }

  /**
   For 0 <= d <= 1 a round keeps ranks a sub-distribution, pages without
   links or not: the new total is (1-d) plus at most d times the old one.
   */
  lemma {:induction false} SweepIsSubDistribution(c: Corpus, ranks: Distribution, d: real)
    requires Valid(c) && |c.pages| > 0 && 0.0 <= d <= 1.0 && IsSubDistribution(c, ranks)
    ensures IsSubDistribution(c, Sweep(c, ranks, d))
  {
    TeleportNonNegative(c, d);
    SweepLowerBound(c, ranks, d);
    PassedAtMost(c, ranks, d, c.pages);
    var total := Total(c.pages, ranks);
    assert d * total <= d by {
      assert d * (1.0 - total) >= 0.0;
    }
    SweepTotal(c, ranks, d);
  }

  /** In a sub-distribution no page holds more than 1. */
  lemma {:induction false} SubDistributionAtMostOne(c: Corpus, m: Distribution)
    requires Listed(c) && IsSubDistribution(c, m)
    ensures forall p :: p in m ==> 0.0 <= m[p] <= 1.0
  {
    forall p | p in m
      ensures m[p] <= 1.0
    {
      TotalAtLeastEntry(c.pages, m, p);
    }
  }

  /** For d <= 1 the teleport share (1-d)/N is not negative. */
  lemma {:induction false} TeleportNonNegative(c: Corpus, d: real)
    requires |c.pages| > 0 && d <= 1.0
    ensures (1.0 - d) / |c.pages| as real >= 0.0
  {
  }

  /** The ranks after `k` rounds from `ranks`; every round keeps the pages. */
  function Iterates(c: Corpus, ranks: Distribution, d: real, k: nat): Distribution
    requires Listed(c)
    decreases k
  {
    if k == 0 then ranks else Iterates(c, Sweep(c, ranks, d), d, k - 1)
  }

  /**
   When round `k` is the first whose change passes the stopping rule and it
   comes before the fuel runs out, the loop returns the ranks from before
   that round.
   */
  lemma {:induction false} ConvergeStopsAt(c: Corpus, ranks: Distribution, d: real, fuel: nat, k: nat)
    requires Listed(c) && |c.pages| > 0
    requires k < fuel && Stops(c, Iterates(c, ranks, d, k), d)
    requires forall j :: 0 <= j < k ==> !Stops(c, Iterates(c, ranks, d, j), d)
    ensures Converge(c, ranks, d, fuel) == Success(Iterates(c, ranks, d, k))
    decreases fuel
  {
    if k > 0 {
      assert !Stops(c, Iterates(c, ranks, d, 0), d);
      var next := Sweep(c, ranks, d);
      forall j | 0 <= j < k - 1
        ensures !Stops(c, Iterates(c, next, d, j), d)
      {
        assert Iterates(c, ranks, d, j + 1) == Iterates(c, next, d, j);
      }
      ConvergeStopsAt(c, next, d, fuel - 1, k - 1);
    }
  }

  /** When no round before the fuel runs out passes the stopping rule, the loop reports OutOfFuel. */
  lemma {:induction false} ConvergeRunsOut(c: Corpus, ranks: Distribution, d: real, fuel: nat)
    requires Listed(c) && |c.pages| > 0
    requires forall j :: 0 <= j < fuel ==> !Stops(c, Iterates(c, ranks, d, j), d)
    ensures Converge(c, ranks, d, fuel) == Failure(OutOfFuel)
    decreases fuel
  {
    if fuel > 0 {
      assert !Stops(c, Iterates(c, ranks, d, 0), d);
      var next := Sweep(c, ranks, d);
      forall j | 0 <= j < fuel - 1
        ensures !Stops(c, Iterates(c, next, d, j), d)
      {
        assert Iterates(c, ranks, d, j + 1) == Iterates(c, next, d, j);
      }
      ConvergeRunsOut(c, next, d, fuel - 1);
    }
  }

  /**
   For 0 <= d <= 1 and a corpus without pages that lack links, the loop
   started from a probability distribution can only return one.
   */
  lemma {:induction false} ConvergeIsDistribution(c: Corpus, ranks: Distribution, d: real, fuel: nat, r: Distribution)
    requires Valid(c) && NoSinks(c) && |c.pages| > 0 && 0.0 <= d <= 1.0 && IsDistribution(c, ranks)
    requires Converge(c, ranks, d, fuel) == Success(r)
    ensures IsDistribution(c, r)
    decreases fuel
  {
    var next := Sweep(c, ranks, d);
    var rest := ConvergeNext(c, ranks, d, fuel, r, next);
    if !Stops(c, ranks, d) {
      SweepIsDistribution(c, ranks, d);
      ConvergeIsDistribution(c, next, d, rest, r);
    }
  }

  /**
   A loop that succeeds returns its starting ranks when the first round passes
   the stopping rule; otherwise it returns what the remaining rounds, started
   from that round's ranks, return.
   */
  lemma {:induction false} ConvergeNext(c: Corpus, ranks: Distribution, d: real, fuel: nat, r: Distribution, next: Distribution)
    returns (rest: nat)
    requires Listed(c) && |c.pages| > 0 && Converge(c, ranks, d, fuel) == Success(r)
    requires next == Sweep(c, ranks, d)
    ensures rest < fuel
    ensures Stops(c, ranks, d) ==> r == ranks
    ensures !Stops(c, ranks, d) ==> Converge(c, next, d, rest) == Success(r)
  {
    rest := fuel - 1;
  }

  /**
   For 0 <= d <= 1, the loop started from a sub-distribution can only return
   one, whether or not some pages lack links.
   */
  lemma {:induction false} ConvergeIsSubDistribution(c: Corpus, ranks: Distribution, d: real, fuel: nat, r: Distribution)
    requires Valid(c) && |c.pages| > 0 && 0.0 <= d <= 1.0 && IsSubDistribution(c, ranks)
    requires Converge(c, ranks, d, fuel) == Success(r)
    ensures IsSubDistribution(c, r)
    decreases fuel
  {
    var next := Sweep(c, ranks, d);
    var rest := ConvergeNext(c, ranks, d, fuel, r, next);
    if !Stops(c, ranks, d) {
      SweepIsSubDistribution(c, ranks, d);
      ConvergeIsSubDistribution(c, next, d, rest, r);
    }
  }

  /**
   For 0 <= d <= 1, ranks that are all at least (1-d)/N stay so through the
   rounds, so the loop can only return such ranks.
   */
  lemma {:induction false} ConvergeLowerBound(c: Corpus, ranks: Distribution, d: real, fuel: nat)
    requires Listed(c) && |c.pages| > 0 && 0.0 <= d <= 1.0
    requires forall p :: p in ranks ==> ranks[p] >= (1.0 - d) / |c.pages| as real
    ensures Converge(c, ranks, d, fuel).Success? ==>
      forall p :: p in Converge(c, ranks, d, fuel).value ==>
        Converge(c, ranks, d, fuel).value[p] >= (1.0 - d) / |c.pages| as real
    decreases fuel
  {
    if fuel > 0 && !Stops(c, ranks, d) {
      TeleportNonNegative(c, d);
      SweepLowerBound(c, ranks, d);
      ConvergeLowerBound(c, Sweep(c, ranks, d), d, fuel - 1);
    }
  }

  /**
   `iterate_pagerank` fails only when the fuel runs out, or with IndexError
   when the corpus is empty and the loop runs at all.
   */
  lemma {:induction false} IterateFails(c: Corpus, d: real, fuel: nat)
    requires Listed(c)
    ensures fuel == 0 ==> IterateResult(c, d, fuel) == Failure(OutOfFuel)
    ensures fuel > 0 && |c.pages| == 0 ==> IterateResult(c, d, fuel) == Failure(IndexError)
    ensures |c.pages| > 0 && IterateResult(c, d, fuel).Failure? ==> IterateResult(c, d, fuel).error == OutOfFuel
  {
    if |c.pages| > 0 {
      ConvergeFails(c, Initial(c), d, fuel);
    }
  }

  /** In a non-empty corpus the loop can only fail by running out of fuel. */
  lemma {:induction false} ConvergeFails(c: Corpus, ranks: Distribution, d: real, fuel: nat)
    requires Listed(c) && |c.pages| > 0
    ensures Converge(c, ranks, d, fuel).Failure? ==> Converge(c, ranks, d, fuel).error == OutOfFuel
    decreases fuel
  {
    if fuel > 0 && !Stops(c, ranks, d) {
      ConvergeFails(c, Sweep(c, ranks, d), d, fuel - 1);
    }
  }

  /**
   For 0 <= d <= 1 and a non-empty corpus without pages that lack links,
   whatever `iterate_pagerank` returns is a probability distribution.
   */
  lemma {:induction false} IterateIsDistribution(c: Corpus, d: real, fuel: nat)
    requires Valid(c) && NoSinks(c) && |c.pages| > 0 && 0.0 <= d <= 1.0
    ensures IterateResult(c, d, fuel).Success? ==> IsDistribution(c, IterateResult(c, d, fuel).value)
  {
    if IterateResult(c, d, fuel).Success? {
      UniformIsDistribution(c);
      ConvergeIsDistribution(c, Initial(c), d, fuel, IterateResult(c, d, fuel).value);
    }
  }

  /**
   For 0 <= d <= 1 every rank `iterate_pagerank` returns is at least (1-d)/N:
   the starting 1/N is, and every round gives at least the teleport share.
   */
  lemma {:induction false} IterateLowerBound(c: Corpus, d: real, fuel: nat)
    requires Listed(c) && |c.pages| > 0 && 0.0 <= d <= 1.0
    ensures IterateResult(c, d, fuel).Success? ==>
      forall p :: p in IterateResult(c, d, fuel).value ==>
        IterateResult(c, d, fuel).value[p] >= (1.0 - d) / |c.pages| as real
  {
    InitialAboveTeleport(c, d);
    ConvergeLowerBound(c, Initial(c), d, fuel);
  }

  /** For d >= 0 the starting rank 1/N is at least the teleport share (1-d)/N. */
  lemma {:induction false} InitialAboveTeleport(c: Corpus, d: real)
    requires Listed(c) && |c.pages| > 0 && d >= 0.0
    ensures forall p :: p in Initial(c) ==> Initial(c)[p] >= (1.0 - d) / |c.pages| as real
  {
    var n := |c.pages| as real;
    assert 1.0 / n >= (1.0 - d) / n;
  }

  /**
   For 0 <= d <= 1 every rank `iterate_pagerank` returns is at most 1, in
   every crawled corpus: the ranks never add up to more than 1.
   */
  lemma {:induction false} IterateUpperBound(c: Corpus, d: real, fuel: nat)
    requires Valid(c) && 0.0 <= d <= 1.0
    ensures IterateResult(c, d, fuel).Success? ==>
      forall p :: p in IterateResult(c, d, fuel).value ==> IterateResult(c, d, fuel).value[p] <= 1.0
  {
    if IterateResult(c, d, fuel).Success? {
      var r := IterateResult(c, d, fuel).value;
      IterateFails(c, d, fuel);
      UniformIsDistribution(c);
      ConvergeIsSubDistribution(c, Initial(c), d, fuel, r);
      SubDistributionAtMostOne(c, r);
    }
  }
}
