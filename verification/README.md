# PageRank estimators, modelled in Dafny

`pagerank.py` ranks the pages of a small corpus of HTML files in two ways. It
then prints both results.

- `crawl` reads a directory and builds the corpus: a dictionary from each page
  to the set of pages it links to.
- `transition_model` gives the random surfer's distribution over the next page.
  - With probability d it follows one of the current page's links.
  - With probability 1-d it jumps to a page chosen uniformly.
- `sample_pagerank` walks the surfer through n steps and divides each page's
  visit count by n.
- `iterate_pagerank` starts from 1/N on every page. It applies the PageRank
  formula to all pages, round after round. It stops when the rank of the first
  page moves by less than 0.0005, and returns the ranks from before that last
  round.

The model has six modules:

- `Sums`: finite sums over page lists, and the arithmetic facts about them.
- `Errors`: the exceptions the program can raise, as a `Result` type.
- `Corpus`: the corpus and `crawl`.
- `Transition`: `transition_model`.
- `Sampling`: `sample_pagerank`.
- `Iteration`: `iterate_pagerank`.

The program builds every dictionary with loops that overwrite or increment
entries. Each such loop is a method whose `map` variable is reassigned. Each
method is proved against a specification function: `FollowLink`, `Uniform`,
`TransitionResult`, `Counted`, `Visits`, `Sweep`, `Converge` and
`IterateResult`. The properties the program promises are lemmas about those
functions.

The corpus keeps its key order (`pages`) beside the map (`links`). That order
is what `list(corpus.keys())` yields, and `iterate_pagerank` watches its first
element. `Valid(c)` is the shape of every corpus `crawl` returns:

- every key is listed exactly once;
- no page links to itself;
- every link names a page of the corpus.

Python floats are modelled as exact `real`s.

## Model

| member | source | states |
|---|---|---|
| Corpus.HtmlFiles | pagerank.py:33-35 | The kept names are exactly the listed names ending in ".html". They keep listing order and stay distinct. |
| Corpus.ExtractPages | pagerank.py:30-39 | The first pass makes one page per HTML file, in listing order. Each page's links are the extracted targets minus the page itself. |
| Corpus.Crawl | pagerank.py:24-48 | The returned corpus is `Valid`: no page links to itself and every link is a key. Each page's links are exactly its extracted targets, minus itself, that are pages of the corpus. |
| Corpus.UniformIsDistribution | pagerank.py:79-84 | The teleport shares give every page exactly 1/N. They are non-negative and sum to 1 over exactly the corpus keys. |
| Corpus.UniformTotal | pagerank.py:79-84 | The N teleport shares of 1/N add up to 1. |
| Transition.Zeros | pagerank.py:61-64 | The starting dictionary has exactly the corpus keys, all 0. |
| Transition.FollowLinkModel | pagerank.py:66-76 | The follow-link loop gives d/L + (1-d)/(L+1) to each of the L linked pages. It gives (1-d)/(L+1) to the page itself and 0 to every other page. |
| Transition.UniformModel | pagerank.py:77-84 | The teleport loop gives 1/N to every page of a non-empty corpus. |
| Transition.TransitionModel | pagerank.py:51-84 | The result equals `TransitionResult`. Following a link from a page that is not a key raises KeyError. Following a link from a page without links raises ZeroDivisionError, and so does teleporting in an empty corpus. |
| Transition.TransitionFails | pagerank.py:67-70 | From a page of the corpus, the call fails exactly when it follows a link from a page without links, and then with ZeroDivisionError. |
| Transition.TransitionKeys | pagerank.py:62-64 | Every distribution returned has exactly the corpus pages as keys. |
| Transition.TransitionIsDistribution | pagerank.py:51-84 | For 0 <= d <= 1, every distribution returned is non-negative and sums to 1 over the corpus pages. |
| Transition.FollowLinkIsDistribution | pagerank.py:69-76 | For 0 <= d <= 1 and L >= 1, the follow-link distribution is a probability distribution over the corpus pages. |
| Transition.FollowLinkTotal | pagerank.py:69-76 | The follow-link shares add up to exactly 1: d over the links plus 1-d over the links and the page. |
| Transition.FollowShares | pagerank.py:70-75 | L shares of d/L plus L+1 shares of (1-d)/(L+1), placed on distinct listed pages, total 1. |
| Transition.SpreadSplit | pagerank.py:73-75 | The follow-link total splits into the linked pages' d/L shares plus everyone's (1-d)/(L+1) share. |
| Transition.FollowLinkNonNegative | pagerank.py:70-75 | For 0 <= d <= 1, no follow-link value is negative. |
| Transition.FollowLinkSupport | pagerank.py:62-75 | A page has positive follow-link weight exactly when it is linked, or it is the page itself and d < 1. Every other page gets 0. |
| Sampling.SamplePagerank | pagerank.py:87-123 | An empty corpus raises IndexError. Otherwise the call fails, always with ZeroDivisionError, exactly when n = 0 or some step follows a link from a page without links. On success the walk stays in the corpus and each page gets its visit count divided by n. |
| Sampling.CountVisits | pagerank.py:104-117 | The counting loop fails exactly at a follow-link step from a page without links. Otherwise it counts every page's occurrences in the walk of max(n, 0) + 1 pages. |
| Sampling.CountedIsMultiplicity | pagerank.py:104-117 | Each page's counter equals its multiplicity in the walk: the number of times the walk visits that page. |
| Sampling.NextPage | pagerank.py:112-117 | One step fails exactly when it follows a link from a page without links, and then with ZeroDivisionError. Otherwise it moves to the drawn page. |
| Sampling.ZeroCounts | pagerank.py:104-106 | Every corpus page starts with 0 visits. |
| Sampling.CountedNext | pagerank.py:115-117 | Incrementing the drawn page's counter gives the counts of the walk extended by that page. |
| Sampling.CountedStep | pagerank.py:117 | One more visit of a page adds 1 to its count and leaves the others unchanged. |
| Sampling.WalkStaysInCorpus | pagerank.py:101-117 | A walk with no failing step visits only pages of the corpus. |
| Sampling.DrawsStayInCorpus | pagerank.py:101-115 | Draws from `random.choice` and `random.choices` with positive weight land on corpus pages. |
| Sampling.DivideAll | pagerank.py:119-121 | After the final loop every page holds its count divided by n, with the keys unchanged. |
| Sampling.VisitsTotal | pagerank.py:104-121 | For a walk of max(n, 0) steps, the returned values sum to (max(n, 0) + 1)/n. That is (n+1)/n for n > 0, not 1. |
| Sampling.VisitsNonNegative | pagerank.py:120-121 | For n > 0 no returned value is negative. |
| Sampling.VisitsAtMost | pagerank.py:104-121 | For n > 0 each returned value is at most (n+1)/n, the share of a page visited at every step. |
| Sampling.VisitsCanExceedOne | pagerank.py:92-121 | With one page without links, n = 1 and a feasible teleport draw, the step does not fail and the page's value is 2. A value can exceed 1. |
| Iteration.Abs | pagerank.py:163 | `abs` is non-negative and equals x or -x. |
| Iteration.InitialRanks | pagerank.py:139-143 | The initial dictionary gives 1/N to every page, and is empty for an empty corpus. |
| Iteration.RankOf | pagerank.py:151-157 | The inner loop computes (1-d)/N plus d * rank/L for every page that links to `p1`, in page order. |
| Iteration.SweepRanks | pagerank.py:147-160 | One round computes the formula for every page of the corpus and nothing else. |
| Iteration.IteratePagerank | pagerank.py:126-171 | The loop's result equals `IterateResult`. An empty corpus raises IndexError at `links[0]`. A stopping round returns the ranks from before it. Running out of the round budget gives OutOfFuel. |
| Iteration.ConvergeRound | pagerank.py:162-169 | Breaking when the first page moved by less than 0.0005 returns the old ranks. Otherwise the loop goes on from the new ranks. |
| Iteration.SweepOverAt | pagerank.py:151-160 | Every page the outer loop has visited holds the formula's value. |
| Iteration.FlowNonNegative | pagerank.py:156-157 | With d >= 0 and non-negative ranks, no single contribution is negative. |
| Iteration.InflowNonNegative | pagerank.py:154-157 | With d >= 0 and non-negative ranks, the contributions to a page add up to at least 0. |
| Iteration.SweepLowerBound | pagerank.py:151-160 | With d >= 0 and non-negative ranks, every new rank is at least (1-d)/N. |
| Iteration.NoInflow | pagerank.py:154-157 | With no source pages there is no flow. |
| Iteration.InflowPeel | pagerank.py:154-157 | Dropping the last source page removes exactly its flow into the pages. |
| Iteration.FlowExchange | pagerank.py:151-157 | The round's flows summed by destination equal the same flows summed by source. |
| Iteration.OutflowOfSink | pagerank.py:156 | A page without links passes nothing on. |
| Iteration.OutflowShares | pagerank.py:156-157 | A page with links passes d * rank/L to each page it links to and nothing elsewhere. |
| Iteration.OutflowOfLinked | pagerank.py:156-157 | Over the corpus, a page with links passes on d times its rank in all. |
| Iteration.TotalOutflow | pagerank.py:151-157 | In a crawled corpus, what a set of pages sends into the corpus is what they pass on. |
| Iteration.SweepSum | pagerank.py:148-160 | The new ranks of corpus pages add up to the formula's values on them. |
| Iteration.AllTeleports | pagerank.py:153 | The N teleport shares (1-d)/N make 1-d. |
| Iteration.TeleportsCount | pagerank.py:153 | The teleport shares of k pages make k times (1-d)/N. |
| Iteration.RankSumSplit | pagerank.py:151-157 | The formula's values add up to the teleport shares plus all the flows. |
| Iteration.SweepTotal | pagerank.py:148-160 | A round's total is 1-d plus what the pages with links pass on. Pages without links lose their d * rank. |
| Iteration.AllPassed | pagerank.py:154-157 | When every page has a link, the pages pass on d times their total rank. |
| Iteration.SweepKeepsMass | pagerank.py:148-160 | When every page has a link, the new total is (1-d) + d times the old total. |
| Iteration.SweepKeepsUnitMass | pagerank.py:131-133 | When every page has a link, a round keeps a total of 1. |
| Iteration.SweepIsDistribution | pagerank.py:131-160 | With 0 <= d <= 1 and no page without links, a round maps a distribution to a distribution over the same keys. |
| Iteration.PassedAtMost | pagerank.py:154-157 | With d >= 0 and non-negative ranks, the pages pass on at most d times their total rank. |
| Iteration.SweepIsSubDistribution | pagerank.py:148-160 | For 0 <= d <= 1, a round maps non-negative ranks with total at most 1 to such ranks, with the same keys, whether or not some pages lack links. |
| Iteration.SubDistributionAtMostOne | pagerank.py:131-133 | Non-negative ranks with total at most 1 each lie between 0 and 1. |
| Iteration.ConvergeStopsAt | pagerank.py:146-171 | If round k is the first to pass the stopping rule within the budget, the result is the ranks after k rounds, from before round k+1. |
| Iteration.ConvergeRunsOut | pagerank.py:146-169 | If no round within the budget passes the stopping rule, the result is OutOfFuel. |
| Iteration.ConvergeNext | pagerank.py:163-169 | A successful loop whose first round passes the stopping rule returns its starting ranks. One whose first round does not pass it returns what the loop started from that round's ranks returns, on a smaller budget. |
| Iteration.ConvergeIsDistribution | pagerank.py:131-133 | Starting from a distribution, with no page without links and 0 <= d <= 1, any returned ranks are a distribution. |
| Iteration.ConvergeIsSubDistribution | pagerank.py:146-171 | Starting from non-negative ranks with total at most 1, with 0 <= d <= 1, any returned ranks are again such ranks. |
| Iteration.ConvergeLowerBound | pagerank.py:146-171 | Starting from ranks that are all at least (1-d)/N, the returned ranks are all at least (1-d)/N. |
| Iteration.ConvergeFails | pagerank.py:146-171 | In a non-empty corpus the loop only fails by running out of rounds. It never divides by zero. |
| Iteration.IterateFails | pagerank.py:141-171 | An empty corpus raises IndexError, never ZeroDivisionError. In a non-empty corpus the only failure is the exhausted budget. |
| Iteration.IterateIsDistribution | pagerank.py:126-171 | With 0 <= d <= 1 and no page without links, the returned ranks are non-negative and sum to 1 over exactly the corpus pages. |
| Iteration.IterateLowerBound | pagerank.py:126-171 | With 0 <= d <= 1, every returned rank is at least (1-d)/N. |
| Iteration.IterateUpperBound | pagerank.py:126-171 | For 0 <= d <= 1, in every crawled corpus, every returned rank is at most 1. |

## Left out

- `main`, the argument check and the printing of results (pagerank.py:10-21) are not modelled; they are command-line I/O.
- Reading files and HTML matching in `crawl` (pagerank.py:33, 36-38) are inputs of the model. `os.listdir` becomes the `listing` parameter. The link targets that `re.findall` finds in a file become the `extract` parameter.
- Crawl: requires a listing without repeated names, which a directory listing always is.
- `random.random`, `random.choice` and `random.choices` (pagerank.py:67, 101, 115) become parameters. These are the branch flags `follow`, the first page `start` and the drawn pages `picks`. The model only requires what these functions can return: a corpus page to start from, and a page with positive weight at each step. Probabilities and how the sampler's estimate converges are not modelled.
- Floats are exact `real`s, so rounding is not modelled. The stopping rule compares exact differences.
- IteratePagerank: the `while True` loop (pagerank.py:146) gets a budget of `fuel` rounds and reports `OutOfFuel` when it is spent. Termination of the real loop is not modelled.
- IterateIsDistribution: requires that every page has a link. The docstring at pagerank.py:131-133 promises ranks that sum to 1, but the code gives a page without links no outgoing contribution. In such a corpus each round loses that page's d * rank, as SweepTotal states. The model follows the code. The per-value promise of the same docstring, a value between 0 and 1, does hold in every crawled corpus for 0 <= d <= 1 (IterateLowerBound, IterateUpperBound).
- VisitsTotal: the docstring at pagerank.py:94 promises values that sum to 1, but the code counts n + 1 visits and divides by n. The model follows the code, so the sum is (n+1)/n. For n < 0 the values are the counts divided by a negative n, and they are modelled that way. Each value is at most (n+1)/n (VisitsAtMost), and that bound is reached: a single value can exceed 1, although the docstring at pagerank.py:92-93 says each value lies between 0 and 1 (VisitsCanExceedOne).
- The stopping rule reads the old rank of the first page with a lookup that defaults to 0. A round keeps the corpus keys, so this default never applies to the ranks `iterate_pagerank` holds.
