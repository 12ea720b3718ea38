/**
 The corpus: the graph of pages and their links that both estimators read, and
 `crawl`, which builds it from the links found in a directory of HTML files.

 A Python dictionary remembers the order in which its keys were inserted, and
 the iterative estimator depends on that order (it watches the first page), so
 the corpus keeps its key order beside the map.
 */
module Corpus {
  import opened Sums

  /** A page is named by its file name. */
  type Page = string

  /**
   `links[p]` is the set of pages that page `p` links to; `pages` lists the keys
   of `links` in insertion order, which is what `list(corpus.keys())` yields.
   */
  datatype Corpus = Corpus(pages: seq<Page>, links: map<Page, set<Page>>)

  /** `pages` lists the keys of `links` and nothing else. */
  ghost predicate Listed(c: Corpus) {
    forall p :: p in c.links <==> p in c.pages
  }

  /** `pages` lists every key of `links` exactly once. */
  ghost predicate Ordered(c: Corpus) {
    Distinct(c.pages) && Listed(c)
  }

  /** No page links to itself and every link names a page of the corpus. */
  ghost predicate Closed(c: Corpus) {
    forall p :: p in c.links ==> p !in c.links[p] && c.links[p] <= c.links.Keys
  }

  /** The shape of every corpus that `crawl` returns. */
  ghost predicate Valid(c: Corpus) {
    Ordered(c) && Closed(c)
  }

  /** Every page has at least one outgoing link. */
  ghost predicate NoSinks(c: Corpus) {
    forall p :: p in c.links ==> c.links[p] != {}
  }

  /** `filename.endswith(".html")` */
  predicate IsHtml(filename: string) {
    |filename| >= 5 && filename[|filename| - 5..] == ".html"
  }

  /** The names of a directory listing that end in ".html", in listing order. */
  function HtmlFiles(listing: seq<string>): (names: seq<string>)
    ensures forall f :: f in names <==> f in listing && IsHtml(f)
    ensures Distinct(listing) ==> Distinct(names)
  {
    if |listing| == 0 then []
    else
      var prefix, last := listing[..|listing| - 1], listing[|listing| - 1];
      assert listing == prefix + [last];
      var names := HtmlFiles(prefix);
      if IsHtml(last) then
        assert (names + [last])[..|names|] == names;
        names + [last]
      else names
  }

  /**
   The first pass of `crawl`. `listing` is the directory listing and
   `extract(f)` the set of link targets found in file `f`; reading the files and
   matching the anchors are left to those two parameters. Each HTML file
   becomes a page, in listing order, whose links are the targets found in it
   other than the page itself.
   */
  method ExtractPages(listing: seq<string>, extract: string -> set<string>)
    returns (order: seq<Page>, pages: map<Page, set<Page>>)
    requires Distinct(listing)
    ensures order == HtmlFiles(listing) && Distinct(order)
    ensures forall p :: p in pages <==> p in order
    ensures forall p :: p in pages ==> pages[p] == extract(p) - {p}
  {
    pages, order := map[], [];
    for i := 0 to |listing|
      invariant order == HtmlFiles(listing[..i])
      invariant forall p :: p in pages <==> p in order
      invariant forall p :: p in pages ==> pages[p] == extract(p) - {p}
    {
      var filename := listing[i];
      assert listing[..i + 1] == listing[..i] + [filename];
      if !IsHtml(filename) {
        continue;
      }
      pages := pages[filename := extract(filename) - {filename}];
      order := order + [filename];
    }
    assert listing[..|listing|] == listing;
  }

  /**
   `crawl` without its file reading: after the first pass, every page keeps
   only the links that name pages of the corpus.
   */
  method Crawl(listing: seq<string>, extract: string -> set<string>) returns (c: Corpus)
    requires Distinct(listing)
    ensures Valid(c)
    ensures c.pages == HtmlFiles(listing)
    ensures forall p :: p in c.links ==> c.links[p] == (extract(p) - {p}) * c.links.Keys
  {
    var order, pages := ExtractPages(listing, extract);
    ghost var keys := pages.Keys;
    for j := 0 to |order|
      invariant pages.Keys == keys
      invariant forall p :: p in pages ==>
        pages[p] == if p in order[..j] then (extract(p) - {p}) * keys else extract(p) - {p}
    {
      var filename := order[j];
      assert order[..j + 1] == order[..j] + [filename];
      pages := pages[filename := set link | link in pages[filename] && link in pages];
    }
    assert order[..|order|] == order;
    c := Corpus(order, pages);
  }

  /** A page of the corpus and every page it links to are listed in `pages`. */
  lemma {:induction false} LinkedPages(c: Corpus, page: Page)
    requires Valid(c) && page in c.links
    ensures page in c.pages && page !in c.links[page]
    ensures forall p :: p in c.links[page] ==> p in c.links && p in c.pages
  {
  }

  /** Every page of a non-empty corpus with the same share, 1/N. */
  function Uniform(c: Corpus): map<Page, real>
    requires |c.pages| > 0
  {
    map p | p in c.links :: 1.0 / |c.pages| as real
  }

  /** A probability distribution over exactly the pages of the corpus. */
  ghost predicate IsDistribution(c: Corpus, m: map<Page, real>) {
    && m.Keys == c.links.Keys
    && (forall p :: p in m ==> m[p] >= 0.0)
    && Total(c.pages, m) == 1.0
  }

  /** The uniform shares form a distribution, each page holding exactly 1/N. */
  lemma {:induction false} UniformIsDistribution(c: Corpus)
    requires Valid(c) && |c.pages| > 0
    ensures IsDistribution(c, Uniform(c))
    ensures forall p :: p in c.links ==> Uniform(c)[p] == 1.0 / |c.pages| as real
  {
    UniformTotal(c);
    Reciprocal(|c.pages| as real);
  }

  /** The uniform shares add up to 1. */
  lemma {:induction false} UniformTotal(c: Corpus)
    requires Valid(c) && |c.pages| > 0
    ensures Total(c.pages, Uniform(c)) == 1.0
  {
    UniformEverywhere(c);
    SumShares(c.pages, Lookup(Uniform(c)), 1.0);
    TotalIsSum(c.pages, Uniform(c));
  }

  /** Each listed page reads 1/N from the uniform shares. */
  lemma {:induction false} UniformEverywhere(c: Corpus)
    requires Listed(c) && |c.pages| > 0
    ensures forall i :: 0 <= i < |c.pages| ==> Lookup(Uniform(c))(c.pages[i]) == 1.0 / |c.pages| as real
  {
    forall i | 0 <= i < |c.pages|
      ensures Lookup(Uniform(c))(c.pages[i]) == 1.0 / |c.pages| as real
    {
      assert c.pages[i] in c.links;
    }
  }

  /** 1/N is positive. */
  lemma {:induction false} Reciprocal(n: real)
    requires n > 0.0
    ensures 1.0 / n > 0.0
  {
  }
}
