/** The scraper object: the search URL, the page-count rule, scrolling, the per-page
    collection step and the pagination loop. The browser is replaced by its answers: a
    page is what waiting for and querying the product cards yields, the page-count lookup
    is the list of pagination labels (or nothing, when the wait times out), and the site
    is a function from page number to page. What the scraper asks the browser to do
    (load a URL, scroll to a position) is recorded, in order, in the object's trace. */
module Scraper {
  import opened Wrappers
  import opened Text
  import opened Fields

  /** The result of waiting for the product cards on a loaded page: the wait timed out,
      or the cards are there, the document had the given scroll height, and, after
      scrolling, the card query returned `cards` in document order. */
  datatype Page = TimedOut | Loaded(scrollHeight: int, cards: seq<Card>)

  /** A request the scraper makes of the browser. */
  datatype Command = Navigate(url: string) | ScrollTo(y: int)

  const SearchUrlPrefix := "https://www.amazon.in/s?k=laptop&page="

  /** `get_search_url`: the fixed query with the page number appended in decimal. */
  function SearchUrl(page: int): string {
    SearchUrlPrefix + IntToString(page)
  }

  /** Every page has its own URL. */
  lemma SearchUrlInjective(p: int, q: int)
    ensures SearchUrl(p) == SearchUrl(q) <==> p == q
  {
    if SearchUrl(p) == SearchUrl(q) {
      assert SearchUrl(p)[|SearchUrlPrefix|..] == IntToString(p);
      assert SearchUrl(q)[|SearchUrlPrefix|..] == IntToString(q);
      IntToStringInjective(p, q);
    }
  }

  /** The URL is the fixed query followed by a run of digits, and the page number can be
      read back from those digits, for any page the loop visits. */
  lemma SearchUrlPage(p: nat)
    ensures SearchUrlPrefix <= SearchUrl(p)
    ensures var tail := SearchUrl(p)[|SearchUrlPrefix|..]; IsDigits(tail) && DigitsValue(tail) == p
  {
    DigitsRoundTrip(p);
    assert SearchUrl(p)[|SearchUrlPrefix|..] == NatToDigits(p);
  }

  /** The three positions `scroll_page` scrolls to for a document of height `h`: the
      multiples of a third of it, with Python's floor division (Dafny's `/` agrees with it
      for the positive divisor 3). */
  function ScrollTargets(h: int): seq<int> {
    var step := h / 3;
    [step, 2 * step, 3 * step]
  }

  /** The targets are (i + 1) * (h // 3) for i = 0, 1, 2: they climb in three equal steps,
      and for a non-negative height they stay within it and end less than 3 short of it. */
  lemma ScrollTargetsSpec(h: int)
    ensures var t := ScrollTargets(h);
      |t| == 3 && (forall i :: 0 <= i < 3 ==> t[i] == (i + 1) * (h / 3)) &&
      t[1] - t[0] == t[0] && t[2] - t[1] == t[0] &&
      (h >= 0 ==> 0 <= t[0] <= t[1] <= t[2] <= h && h - t[2] < 3)
  {
  }

  /** The scroll requests for a document of height `h`, in order. */
  function ScrollCommands(h: int): seq<Command> {
    var t := ScrollTargets(h);
    [ScrollTo(t[0]), ScrollTo(t[1]), ScrollTo(t[2])]
  }

  /** A pagination label counts when its stripped text is a non-empty run of digits. */
  predicate IsPageLabel(caption: string) {
    IsDigits(Strip(caption))
  }

  function PageNumber(caption: string): nat
    requires IsPageLabel(caption)
  {
    DigitsValue(Strip(caption))
  }

  /** Some label counts. */
  predicate HasPageLabel(labels: seq<string>) {
    exists i :: 0 <= i < |labels| && IsPageLabel(labels[i])
  }

  /** `n` is the number of some counting label and no counting label has a larger one. */
  predicate IsLargestPageNumber(labels: seq<string>, n: int) {
    (exists i :: 0 <= i < |labels| && IsPageLabel(labels[i]) && PageNumber(labels[i]) == n) &&
    forall i :: 0 <= i < |labels| && IsPageLabel(labels[i]) ==> PageNumber(labels[i]) <= n
  }

  /** Labels "1", "2", an ellipsis, "7" and "Next": the digit labels are 1, 2 and 7, so the
      page count is 7. */
  lemma PageCountExample()
    ensures var labels := ["1", "2", "\U{2026}", "7", "Next"];
      HasPageLabel(labels) && IsLargestPageNumber(labels, 7)
  {
    var labels := ["1", "2", "\U{2026}", "7", "Next"];
    assert !IsDigit(labels[2][0]) && !IsDigit(labels[4][0]);
    assert PageNumber(labels[0]) == 1 && PageNumber(labels[1]) == 2 && PageNumber(labels[3]) == 7;
    assert !IsPageLabel(labels[2]) && !IsPageLabel(labels[4]);
    forall i | 0 <= i < |labels| && IsPageLabel(labels[i]) ensures PageNumber(labels[i]) <= 7 {
      assert i == 0 || i == 1 || i == 3;
    }
  }

  /** Python's `max` on a non-empty list. */
  function Max(s: seq<int>): (m: int)
    requires s != []
    ensures m in s && forall x :: x in s ==> x <= m
  {
    if |s| == 1 then s[0]
    else
      var m := Max(s[1..]);
      assert forall x :: x in s ==> x == s[0] || x in s[1..];
      if s[0] < m then m else s[0]
  }

  /** The records one card list contributes, in card order: the record of every card whose
      title is not the sentinel. */
  function Collected(cards: seq<Card>): (r: seq<Record>)
    ensures |r| <= |cards|
    ensures forall k :: 0 <= k < |r| ==> r[k].title != NoTitle
  {
    if cards == [] then [] else Collected(cards[..|cards| - 1]) + CardRecords(cards[|cards| - 1])
  }

  /** The record of one card, if it is kept. */
  function CardRecords(c: Card): (r: seq<Record>)
    ensures |r| <= 1 && forall k :: 0 <= k < |r| ==> r[k].title != NoTitle
  {
    if Titled(c) then [ExtractRecord(c)] else []
  }

  /** Collecting from two lists one after the other is collecting from their concatenation. */
  lemma {:induction false} CollectedAppend(a: seq<Card>, b: seq<Card>)
    ensures Collected(a + b) == Collected(a) + Collected(b)
    decreases |b|
  {
    if b != [] {
      var n := |b| - 1;
      assert (a + b)[..|a + b| - 1] == a + b[..n];
      assert (a + b)[|a + b| - 1] == b[n];
      CollectedAppend(a, b[..n]);
      calc {
        Collected(a + b);
        Collected(a + b[..n]) + CardRecords(b[n]);
        Collected(a) + Collected(b[..n]) + CardRecords(b[n]);
        Collected(a) + Collected(b);
      }
    } else {
      assert a + b == a;
    }
  }

  /** The records of one more card go after those of the cards before it. */
  lemma CollectedStep(cards: seq<Card>, i: int, products0: seq<Record>, done: seq<Record>)
    requires 0 <= i < |cards| && done == products0 + Collected(cards[..i])
    ensures done + CardRecords(cards[i]) == products0 + Collected(cards[..i + 1])
  {
    assert cards[..i + 1][..i] == cards[..i];
    assert Collected(cards[..i + 1]) == Collected(cards[..i]) + CardRecords(cards[i]);
  }

  /** The number of cards with a title, counted from the front. */
  function CountTitled(cards: seq<Card>): nat {
    if cards == [] then 0 else (if Titled(cards[0]) then 1 else 0) + CountTitled(cards[1..])
  }

  /** One record per titled card, each exactly that card's record, and no other. */
  lemma {:induction false} CollectedExactly(cards: seq<Card>)
    ensures |Collected(cards)| == CountTitled(cards)
    ensures forall i :: 0 <= i < |cards| && Titled(cards[i]) ==> ExtractRecord(cards[i]) in Collected(cards)
    ensures forall r :: r in Collected(cards) ==> exists i :: 0 <= i < |cards| && Titled(cards[i]) && r == ExtractRecord(cards[i])
  {
    if cards != [] {
      var rest := cards[1..];
      CollectedExactly(rest);
      CollectedAppend([cards[0]], rest);
      assert [cards[0]] + rest == cards;
      assert Collected([cards[0]]) == CardRecords(cards[0]) by {
        assert [cards[0]][..0] == [];
      }
      forall i | 0 <= i < |cards| && Titled(cards[i]) ensures ExtractRecord(cards[i]) in Collected(cards) {
        if i > 0 { assert cards[i] == rest[i - 1]; }
      }
      forall r | r in Collected(cards)
        ensures exists i :: 0 <= i < |cards| && Titled(cards[i]) && r == ExtractRecord(cards[i])
      {
        if r !in Collected(rest) {
          assert Titled(cards[0]) && r == ExtractRecord(cards[0]);
        } else {
          var j :| 0 <= j < |rest| && Titled(rest[j]) && r == ExtractRecord(rest[j]);
          assert cards[j + 1] == rest[j];
        }
      }
    }
  }

  /** What one page adds to the products. */
  function PageRecords(p: Page): seq<Record> {
    if p.Loaded? then Collected(p.cards) else []
  }

  /** What one page makes the scraper ask of the browser after loading it. */
  function PageCommands(p: Page): seq<Command> {
    if p.Loaded? then ScrollCommands(p.scrollHeight) else []
  }

  /** The last page the loop visits when it starts at page `p`: it goes through the pages up
      to `total` in turn and stops at the first one that times out; `p - 1` when there is
      no page to visit. */
  function LastVisited(site: int -> Page, p: int, total: int): int
    decreases total - p
  {
    if p > total then p - 1
    else if site(p).TimedOut? then p
    else LastVisited(site, p + 1, total)
  }

  /** Starting from `p`, the loop stops no later than `total`; every page before the last
      one it visits has loaded; it stops before `total` only on a page that timed out; and
      it visits nothing exactly when `p` is beyond `total`. */
  lemma {:induction false} LastVisitedSpec(site: int -> Page, p: int, total: int)
    ensures var n := LastVisited(site, p, total);
      p - 1 <= n && (n == p - 1 <==> p > total) && (p <= total ==> n <= total) &&
      (forall q :: p <= q < n ==> site(q).Loaded?) &&
      (p <= n < total ==> site(n).TimedOut?)
    decreases total - p
  {
    if p <= total && site(p).Loaded? {
      LastVisitedSpec(site, p + 1, total);
    }
  }

  /** When every page up to `total` loads, the loop visits them all. */
  lemma AllPagesLoaded(site: int -> Page, total: int)
    requires total >= 0
    requires forall q :: 1 <= q <= total ==> site(q).Loaded?
    ensures LastVisited(site, 1, total) == total
  {
    LastVisitedSpec(site, 1, total);
  }

  /** When page `k` is the first page to time out, the loop visits pages 1..k and keeps the
      records of pages 1..k-1. */
  lemma HaltOnFirstTimeout(site: int -> Page, total: int, k: int)
    requires 1 <= k <= total && site(k).TimedOut?
    requires forall q :: 1 <= q < k ==> site(q).Loaded?
    ensures LastVisited(site, 1, total) == k
    ensures Harvest(site, LastVisited(site, 1, total)) == Harvest(site, k - 1)
  {
    LastVisitedSpec(site, 1, total);
  }

  /** Five pages of which the third times out: pages 1, 2 and 3 are requested, and the
      products are the records of pages 1 and 2. */
  lemma ThirdOfFivePagesTimesOut(site: int -> Page)
    requires site(1).Loaded? && site(2).Loaded? && site(3).TimedOut?
    ensures LastVisited(site, 1, 5) == 3
    ensures Harvest(site, LastVisited(site, 1, 5)) == Collected(site(1).cards) + Collected(site(2).cards)
    ensures forall q :: Navigate(SearchUrl(q)) in Session(site, LastVisited(site, 1, 5)) <==> q in {1, 2, 3}
  {
    HaltOnFirstTimeout(site, 5, 3);
    assert Harvest(site, 1) == PageRecords(site(1));
    assert Harvest(site, 2) == Harvest(site, 1) + PageRecords(site(2));
    forall q ensures Navigate(SearchUrl(q)) in Session(site, 3) <==> q in {1, 2, 3} {
      NoLaterPageVisited(site, 5, q);
    }
  }

  /** The records collected from pages 1..n, in page order. */
  function Harvest(site: int -> Page, n: int): seq<Record>
    decreases n
  {
    if n < 1 then [] else Harvest(site, n - 1) + PageRecords(site(n))
  }

  /** The records of earlier pages stay in front of those of later pages. */
  lemma {:induction false} HarvestPrefix(site: int -> Page, m: int, n: int)
    requires m <= n
    ensures Harvest(site, m) <= Harvest(site, n)
    decreases n - m
  {
    if m < n {
      HarvestPrefix(site, m, n - 1);
    }
  }

  /** The requests made to the browser while scraping pages 1..n: load each page's URL,
      then scroll it if its cards appeared. */
  function Session(site: int -> Page, n: int): seq<Command>
    decreases n
  {
    if n < 1 then [] else Session(site, n - 1) + [Navigate(SearchUrl(n))] + PageCommands(site(n))
  }

  /** The URL of page `q` is loaded during the session for pages 1..n exactly when `q` is one
      of them. */
  lemma {:induction false} SessionNavigates(site: int -> Page, n: int, q: int)
    ensures Navigate(SearchUrl(q)) in Session(site, n) <==> 1 <= q <= n
    decreases n
  {
    if n >= 1 {
      SessionNavigates(site, n - 1, q);
      SearchUrlInjective(n, q);
      assert Navigate(SearchUrl(q)) !in PageCommands(site(n));
    }
  }

  /** No page after the one where the loop stops is ever requested, and none before it is
      skipped. */
  lemma NoLaterPageVisited(site: int -> Page, total: int, q: int)
    ensures Navigate(SearchUrl(q)) in Session(site, LastVisited(site, 1, total)) <==> 1 <= q <= LastVisited(site, 1, total)
  {
    SessionNavigates(site, LastVisited(site, 1, total), q);
  }

  /** One more page of the loop adds that page's records after the earlier ones. */
  lemma HarvestStep(site: int -> Page, n: int, products0: seq<Record>, done: seq<Record>)
    requires n >= 1 && done == products0 + Harvest(site, n - 1)
    ensures done + PageRecords(site(n)) == products0 + Harvest(site, n)
  {
    assert Harvest(site, n) == Harvest(site, n - 1) + PageRecords(site(n));
  }

  /** One more page of the loop adds the load of its URL and then its scrolling. */
  lemma SessionStep(site: int -> Page, n: int, trace0: seq<Command>, asked: seq<Command>)
    requires n >= 1 && asked == trace0 + Session(site, n - 1)
    ensures asked + [Navigate(SearchUrl(n))] + PageCommands(site(n)) == trace0 + Session(site, n)
  {
    assert Session(site, n) == Session(site, n - 1) + [Navigate(SearchUrl(n))] + PageCommands(site(n));
  }

  class AmazonScraper {
    /** The records collected so far, across all pages. */
    var products: seq<Record>
    /** The requests made to the browser so far, in order. */
    var trace: seq<Command>

    constructor ()
      ensures products == [] && trace == []
    {
      products := [];
      trace := [];
    }

    /** `scroll_page`, for a document of height `h`. */
    method ScrollPage(h: int)
      modifies this`trace
      ensures trace == old(trace) + ScrollCommands(h)
    {
      for i := 0 to 3
        invariant trace == old(trace) + ScrollCommands(h)[..i]
      {
        trace := trace + [ScrollTo((i + 1) * (h / 3))];
      }
    }

    /** `get_total_pages`: None stands for the wait for the pagination labels timing out.
        The result is the largest number among the labels whose stripped text is all
        digits, and 1 when there is none. */
    method GetTotalPages(lookup: Option<seq<string>>) returns (total: int)
      ensures lookup.None? ==> total == 1
      ensures lookup.Some? && !HasPageLabel(lookup.value) ==> total == 1
      ensures lookup.Some? && HasPageLabel(lookup.value) ==> IsLargestPageNumber(lookup.value, total)
    {
      if lookup.None? {
        return 1;
      }
      var labels := lookup.value;
      var nums: seq<int> := [];
      ghost var from: seq<int> := [];  // from[k] is the index of the label nums[k] was read from
      for i := 0 to |labels|
        invariant |from| == |nums|
        invariant forall k :: 0 <= k < |nums| ==> 0 <= from[k] < i && IsPageLabel(labels[from[k]]) && PageNumber(labels[from[k]]) == nums[k]
        invariant forall j :: 0 <= j < i && IsPageLabel(labels[j]) ==> PageNumber(labels[j]) in nums
        invariant nums == [] ==> forall j :: 0 <= j < i ==> !IsPageLabel(labels[j])
      {
        var t := Strip(labels[i]);
        if IsDigits(t) {
          nums, from := nums + [DigitsValue(t)], from + [i];
        }
      }
      if nums != [] {
        total := Max(nums);
        var k :| 0 <= k < |nums| && nums[k] == total;
        assert IsPageLabel(labels[from[k]]) && PageNumber(labels[from[k]]) == total;
        return total;
      }
      return 1;
    }

    /** `extract_products_from_page`. On a timeout it answers false and changes nothing. On
        a loaded page it scrolls, then appends the record of every titled card, in card
        order, after the records already there, and answers true. */
    method ExtractProductsFromPage(page: Page) returns (ok: bool)
      modifies this
      ensures ok == page.Loaded?
      ensures products == old(products) + PageRecords(page)
      ensures trace == old(trace) + PageCommands(page)
    {
      if page.TimedOut? {
        return false;
      }
      ScrollPage(page.scrollHeight);
      var cards := page.cards;
      for i := 0 to |cards|
        invariant products == old(products) + Collected(cards[..i])
        invariant trace == old(trace) + ScrollCommands(page.scrollHeight)
      {
        ghost var done := products;
        var data := ExtractRecord(cards[i]);
        if Titled(cards[i]) {
          products := products + [data];
        }
        CollectedStep(cards, i, old(products), done);
      }
      assert cards[..|cards|] == cards;
      return true;
    }

    /** `scrape_multiple_pages`: pages 1 to `total` in increasing order, stopping right after
        the first page whose cards time out. The products only grow, by the records of the
        pages visited, and the browser is asked to load exactly those pages. */
    method ScrapeMultiplePages(site: int -> Page, total: int)
      modifies this
      ensures old(products) <= products
      ensures products == old(products) + Harvest(site, LastVisited(site, 1, total))
      ensures trace == old(trace) + Session(site, LastVisited(site, 1, total))
    {
      var page := 1;
      while page <= total
        invariant 1 <= page <= if total >= 0 then total + 1 else 1
        invariant LastVisited(site, page, total) == LastVisited(site, 1, total)
        invariant products == old(products) + Harvest(site, page - 1)
        invariant trace == old(trace) + Session(site, page - 1)
        decreases total - page
      {
        ghost var done, asked := products, trace;
        var url := SearchUrl(page);
        trace := trace + [Navigate(url)];
        var ok := ExtractProductsFromPage(site(page));
        HarvestStep(site, page, old(products), done);
        SessionStep(site, page, old(trace), asked);
        if !ok {
          break;
        }
        page := page + 1;
      }
    }
  }
}
