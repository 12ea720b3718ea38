/**
 `transition_model`: the distribution over the page the random surfer visits
 next. The draw `random.random() < damping_factor` that picks the branch is the
 parameter `follow`.
 */
module Transition {
  import opened Sums
  import opened Errors
  import opened Corpus

  /** Probabilities indexed by page. */
  type Distribution = map<Page, real>

  /**
   Every page linked from `page` gets `share + additional`, `page` itself
   `additional`, every other page 0.
   */
  function Spread(c: Corpus, page: Page, share: real, additional: real): Distribution
    requires page in c.links
  {
    map p | p in c.links ::
      if p == page then additional
      else if p in c.links[page] then share + additional
      else 0.0
  }

  /**
   The "follow a link" branch from `page`, which has L >= 1 links: the damping
   factor d is split evenly over the L links and 1-d over the L+1 pages made of
   the links and `page` itself.
   */
  function FollowLink(c: Corpus, page: Page, d: real): Distribution
    requires page in c.links && c.links[page] != {}
  {
    var count := |c.links[page]| as real;
    Spread(c, page, d / count, (1.0 - d) / (count + 1.0))
  }

  /** The outcome of `transition_model(corpus, page, d)` in the branch `follow`. */
  function TransitionResult(c: Corpus, page: Page, d: real, follow: bool): Result<Distribution> {
    if follow then
      if page !in c.links then Failure(KeyError)
      else if c.links[page] == {} then Failure(ZeroDivisionError)
      else Success(FollowLink(c, page, d))
    else if |c.pages| == 0 then Failure(ZeroDivisionError)
    else Success(Uniform(c))
  }

  /** `{page_name: 0 for page_name in corpus}` */
  method Zeros(c: Corpus) returns (probabilities: Distribution)
    requires Listed(c)
    ensures probabilities.Keys == c.links.Keys
    ensures forall p :: p in probabilities ==> probabilities[p] == 0.0
  {
    probabilities := map[];
    for i := 0 to |c.pages|
      invariant forall p :: p in probabilities <==> p in c.pages[..i]
      invariant forall p :: p in probabilities ==> probabilities[p] == 0.0
    {
      probabilities := probabilities[c.pages[i] := 0.0];
    }
    assert c.pages[..|c.pages|] == c.pages;
  }

  /**
   The follow-link branch on the zeroed dictionary: every link overwritten with
   d/L + (1-d)/(L+1), then `page` itself with (1-d)/(L+1).
   */
  method FollowLinkModel(c: Corpus, page: Page, d: real) returns (probabilities: Distribution)
    requires Listed(c) && Closed(c) && page in c.links && c.links[page] != {}
    ensures probabilities == FollowLink(c, page, d)
  {
    probabilities := Zeros(c);
    var linked := c.links[page];
    var distribution := d / |linked| as real;
    var additional := (1.0 - d) / (|linked| as real + 1.0);
    var remaining := linked;
    while remaining != {}
      invariant remaining <= linked
      invariant probabilities.Keys == c.links.Keys
      invariant forall p :: p in probabilities ==>
        probabilities[p] == if p in linked - remaining then distribution + additional else 0.0
      decreases remaining
    {
      var link :| link in remaining;
      probabilities := probabilities[link := distribution + additional];
      remaining := remaining - {link};
    }
    probabilities := probabilities[page := additional];
    ghost var expected := FollowLink(c, page, d);
    assert probabilities.Keys == expected.Keys;
    assert forall p :: p in probabilities ==> probabilities[p] == expected[p];
  }

  /**
   The teleport branch on the zeroed dictionary: every page overwritten with
   1/N, which needs a non-empty corpus.
   */
  method UniformModel(c: Corpus) returns (probabilities: Distribution)
    requires Listed(c) && |c.pages| > 0
    ensures probabilities == Uniform(c)
  {
    probabilities := Zeros(c);
    var all := c.pages;
    var distribution := 1.0 / |all| as real;
    for i := 0 to |all|
      invariant probabilities.Keys == c.links.Keys
      invariant forall p :: p in probabilities ==>
        probabilities[p] == if p in all[..i] then distribution else 0.0
    {
      probabilities := probabilities[all[i] := distribution];
    }
    assert all[..|all|] == all;
  }

  /**
   `transition_model(corpus, page, damping_factor)` with the branch draw given
   as `follow`. A follow-link step from a page that is not in the corpus raises
   KeyError, from a page without links ZeroDivisionError; a teleport step in an
   empty corpus ZeroDivisionError.
   */
  method TransitionModel(c: Corpus, page: Page, d: real, follow: bool) returns (r: Result<Distribution>)
    requires Listed(c) && Closed(c)
    ensures r == TransitionResult(c, page, d, follow)
  {
    if follow {
      if page !in c.links {
        return Failure(KeyError);
      }
      if |c.links[page]| == 0 {
        return Failure(ZeroDivisionError);
      }
      var probabilities := FollowLinkModel(c, page, d);
      return Success(probabilities);
    } else {
      if |c.pages| == 0 {
        return Failure(ZeroDivisionError);
      }
      var probabilities := UniformModel(c);
      return Success(probabilities);
    }
  }

  /** The total of a spread is the linked pages' shares plus everyone's `additional`. */
  lemma {:induction false} SpreadSplit(c: Corpus, page: Page, share: real, additional: real)
    requires page in c.links && page !in c.links[page]
    requires forall x :: x in c.links[page] ==> x in c.links
    ensures Total(c.pages, Spread(c, page, share, additional))
      == Sum(c.pages, Indicator(c.links[page], share)) + Sum(c.pages, Indicator(c.links[page] + {page}, additional))
  {
    var m := Spread(c, page, share, additional);
    var linked := c.links[page];
    var pool := linked + {page};
    forall i | 0 <= i < |c.pages|
      ensures Lookup(m)(c.pages[i]) == Indicator(linked, share)(c.pages[i]) + Indicator(pool, additional)(c.pages[i])
    {
    }
    SumAdd(c.pages, Indicator(linked, share), Indicator(pool, additional), Lookup(m));
    TotalIsSum(c.pages, m);
  }

  /**
   For 0 <= d <= 1 the follow-link branch is a probability distribution: the
   L links carry d/L + (1-d)/(L+1) each and `page` (1-d)/(L+1), which add up to
   d + (1-d) = 1.
   */
  lemma {:induction false} FollowLinkIsDistribution(c: Corpus, page: Page, d: real)
    requires Valid(c) && page in c.links && c.links[page] != {}
    requires 0.0 <= d <= 1.0
    ensures IsDistribution(c, FollowLink(c, page, d))
  {
    LinkedPages(c, page);
    FollowLinkTotal(c, page, d);
    FollowLinkNonNegative(c, page, d);
  }

  /**
   The follow-link shares add up to 1 when `pages` lists, once each, `page`
   and the pages it links to, none of which is `page` itself.
   */
  lemma {:induction false} FollowLinkTotal(c: Corpus, page: Page, d: real)
    requires page in c.links && c.links[page] != {} && page !in c.links[page]
    requires Distinct(c.pages) && page in c.pages
    requires forall x :: x in c.links[page] ==> x in c.links && x in c.pages
    ensures Total(c.pages, FollowLink(c, page, d)) == 1.0
  {
    var linked := c.links[page];
    var share, additional := d / |linked| as real, (1.0 - d) / (|linked| as real + 1.0);
    var total := Total(c.pages, FollowLink(c, page, d));
    assert total == Sum(c.pages, Indicator(linked, share)) + Sum(c.pages, Indicator(linked + {page}, additional)) by {
      assert FollowLink(c, page, d) == Spread(c, page, share, additional);
      SpreadSplit(c, page, share, additional);
    }
    FollowShares(c.pages, linked, page, d, share, additional, total);
  }

  /** For 0 <= d <= 1 no follow-link share is negative. */
  lemma {:induction false} FollowLinkNonNegative(c: Corpus, page: Page, d: real)
    requires page in c.links && c.links[page] != {}
    requires 0.0 <= d <= 1.0
    ensures forall p :: p in FollowLink(c, page, d) ==> FollowLink(c, page, d)[p] >= 0.0
  {
    SharesNonNegative(|c.links[page]|, d);
  }

  /**
   Over the pages of the corpus, d/L on each of the L links plus (1-d)/(L+1)
   on each of the links and `page` add up to 1.
   */
  lemma {:induction false} FollowShares(pages: seq<Page>, linked: set<Page>, page: Page, d: real, share: real, additional: real, total: real)
    requires Distinct(pages) && page in pages && page !in linked && linked != {}
    requires forall x :: x in linked ==> x in pages
    requires share == d / |linked| as real && additional == (1.0 - d) / (|linked| as real + 1.0)
    requires total == Sum(pages, Indicator(linked, share)) + Sum(pages, Indicator(linked + {page}, additional))
    ensures total == 1.0
  {
    var pool := linked + {page};
    assert |pool| == |linked| + 1;
    assert additional == (1.0 - d) / |pool| as real;
    SumEvenSplit(pages, Indicator(linked, share), linked, d);
    SumEvenSplit(pages, Indicator(pool, additional), pool, 1.0 - d);
  }

  /** With L >= 1 links and 0 <= d <= 1 both shares are non-negative. */
  lemma {:induction false} SharesNonNegative(links: nat, d: real)
    requires links > 0 && 0.0 <= d <= 1.0
    ensures d / links as real >= 0.0 && (1.0 - d) / (links as real + 1.0) >= 0.0
  {
  }

  /**
   In the follow-link branch the pages that can be drawn next (positive
   weight) are exactly the linked pages, and `page` itself unless d = 1.
   */
  lemma {:induction false} FollowLinkSupport(c: Corpus, page: Page, d: real, p: Page)
    requires Valid(c) && page in c.links && c.links[page] != {}
    requires 0.0 <= d <= 1.0
    requires p in c.links
    ensures FollowLink(c, page, d)[p] > 0.0 <==> p in c.links[page] || (p == page && d < 1.0)
  {
    var count := |c.links[page]| as real;
    assert d / count >= 0.0;
    assert (1.0 - d) / (count + 1.0) >= 0.0;
    if d > 0.0 {
      assert d / count > 0.0;
    }
  }

  /**
   Whenever `transition_model` returns, for 0 <= d <= 1, its result is a
   probability distribution over exactly the pages of the corpus.
   */
  lemma {:induction false} TransitionIsDistribution(c: Corpus, page: Page, d: real, follow: bool)
    requires Valid(c) && 0.0 <= d <= 1.0
    ensures TransitionResult(c, page, d, follow).Success? ==> IsDistribution(c, TransitionResult(c, page, d, follow).value)
  {
    if follow && page in c.links && c.links[page] != {} {
      FollowLinkIsDistribution(c, page, d);
    } else if !follow && |c.pages| > 0 {
      UniformIsDistribution(c);
    }
  }

  /** Every distribution `transition_model` returns has exactly the corpus pages as keys. */
  lemma {:induction false} TransitionKeys(c: Corpus, page: Page, d: real, follow: bool)
    ensures TransitionResult(c, page, d, follow).Success? ==> TransitionResult(c, page, d, follow).value.Keys == c.links.Keys
  {
  }

  /**
   From a page of the corpus, `transition_model` fails exactly when it follows
   a link from a page without links, and then with ZeroDivisionError.
   */
  lemma {:induction false} TransitionFails(c: Corpus, page: Page, d: real, follow: bool)
    requires Listed(c) && page in c.links
    ensures TransitionResult(c, page, d, follow).Failure? <==> follow && c.links[page] == {}
    ensures TransitionResult(c, page, d, follow).Failure? ==>
      TransitionResult(c, page, d, follow).error == ZeroDivisionError
  {
    assert page in c.pages;
  }
}
