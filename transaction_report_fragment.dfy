/** The transaction report screen: the date-range and category filter, the
    list sorted newest first and shown five to a page, and the three most
    recent transactions. Charts and summaries are view code and left out; the
    clock reading and the calendar's day of the year are parameters. */
module TransactionReportFragment {
  import opened Wrappers
  import opened Data
  import opened Sorting
  import opened Dates

  const PAGE_SIZE := 5
  const ALL_CATEGORIES := "All Categories"

  // ---------------------------------------------------------- pages

  /** `ceil(n / PAGE_SIZE)`: the fewest pages that hold n items. */
  function TotalPages(n: nat): (k: nat)
    ensures n <= PAGE_SIZE * k
    ensures k > 0 ==> PAGE_SIZE * (k - 1) < n
  {
    (n + PAGE_SIZE - 1) / PAGE_SIZE
  }

  /** The items of page p: `subList(p * PAGE_SIZE, min(p * PAGE_SIZE + PAGE_SIZE, n))`. */
  function Page<T>(list: seq<T>, p: nat): (r: seq<T>)
    requires p < TotalPages(|list|)
    ensures 1 <= |r| <= PAGE_SIZE
    ensures p + 1 < TotalPages(|list|) ==> |r| == PAGE_SIZE
  {
    var start := p * PAGE_SIZE;
    var end := if start + PAGE_SIZE < |list| then start + PAGE_SIZE else |list|;
    list[start..end]
  }

  /** The pages before page k, one after the other. */
  function PagesUpTo<T>(list: seq<T>, k: nat): seq<T>
    requires k <= TotalPages(|list|)
  {
    if k == 0 then [] else PagesUpTo(list, k - 1) + Page(list, k - 1)
  }

  /** Paging loses nothing and repeats nothing: the pages in order are the list. */
  lemma {:induction false} PagesCoverList<T>(list: seq<T>)
    ensures PagesUpTo(list, TotalPages(|list|)) == list
  {
    PagesPrefix(list, TotalPages(|list|));
    assert list[..|list|] == list;
  }

  lemma {:induction false} PagesPrefix<T>(list: seq<T>, k: nat)
    requires k <= TotalPages(|list|)
    ensures var e := if k * PAGE_SIZE < |list| then k * PAGE_SIZE else |list|;
      PagesUpTo(list, k) == list[..e]
  {
    if k > 0 {
      PagesPrefix(list, k - 1);
      var s := (k - 1) * PAGE_SIZE;
      assert s < |list|;
      var e := if s + PAGE_SIZE < |list| then s + PAGE_SIZE else |list|;
      assert list[..s] + list[s..e] == list[..e];
    }
  }

  /** The clamp updateTransactionsList applies to the current page. */
  function Clamp(page: int, totalPages: int): (p: int)
    ensures totalPages > 0 ==> 0 <= p < totalPages
    ensures 0 <= page < totalPages ==> p == page
  {
    var p := if page >= totalPages then totalPages - 1 else page;
    if p < 0 then 0 else p
  }

  // ---------------------------------------------------------- filters

  /** getStartDateFromRange: None for "All Time"; `dayOfYear` is today's
      0-based day of the year, so "This Year" is the 1st of January at the
      current time of day. An unknown range gives now. */
  function StartDate(range: string, now: int, dayOfYear: nat): (r: Option<int>)
    ensures r.None? <==> range == "All Time"
    ensures range == "Last 7 Days" ==> r == Some(AddDays(now, -7))
    ensures range == "Last 30 Days" ==> r == Some(AddDays(now, -30))
    ensures range == "Last 90 Days" ==> r == Some(AddDays(now, -90))
    ensures range == "This Year" ==> r == Some(AddDays(now, 0 - dayOfYear as int))
  {
    match range
    case "Last 7 Days" => Some(AddDays(now, -7))
    case "Last 30 Days" => Some(AddDays(now, -30))
    case "Last 90 Days" => Some(AddDays(now, -90))
    case "This Year" => Some(AddDays(now, 0 - dayOfYear as int))
    case "All Time" => None
    case _ => Some(now)
  }

  /** A transaction passes when it is not before the start date and is of the
      selected category (or all categories are selected). */
  predicate Passes(t: Transaction, start: Option<int>, category: string) {
    (start.None? || t.date >= start.value) && (category == ALL_CATEGORIES || t.category == category)
  }

  /** `sortedByDescending { it.date }`, stable. */
  function NewestFirst(a: Transaction, b: Transaction): bool { a.date >= b.date }

  lemma NewestFirstTotal()
    ensures TotalPreorder(NewestFirst)
  {
  }

  /** The filtered list applyFilters builds. */
  function Filtered(all: seq<Transaction>, start: Option<int>, category: string): (r: seq<Transaction>)
    ensures multiset(r) == multiset(Filter(all, (t: Transaction) => Passes(t, start, category)))
    ensures forall i :: 0 <= i < |r| ==> Passes(r[i], start, category)
    ensures Sorted(r, NewestFirst)
  {
    var kept := Filter(all, (t: Transaction) => Passes(t, start, category));
    NewestFirstTotal();
    SortBySorted(kept, NewestFirst);
    var r := SortBy(kept, NewestFirst);
    assert forall i :: 0 <= i < |r| ==> r[i] in multiset(kept);
    r
  }

  /** Every transaction passing the filter is listed, as often as it occurs. */
  lemma FilteredComplete(all: seq<Transaction>, start: Option<int>, category: string, t: Transaction)
    requires t in all && Passes(t, start, category)
    ensures t in Filtered(all, start, category)
  {
    var kept := Filter(all, (t: Transaction) => Passes(t, start, category));
    assert t in kept;
    assert t in multiset(kept);
  }

  /** The recent list: the three newest transactions. */
  function Recent(all: seq<Transaction>): (r: seq<Transaction>)
    ensures |r| == if |all| < 3 then |all| else 3
    ensures Sorted(r, NewestFirst)
    ensures multiset(r) <= multiset(all)
  {
    var sorted := SortBy(all, NewestFirst);
    NewestFirstTotal();
    SortBySorted(all, NewestFirst);
    var r := if |sorted| < 3 then sorted else sorted[..3];
    assert sorted == r + sorted[|r|..];
    assert multiset(sorted) == multiset(r) + multiset(sorted[|r|..]);
    r
  }

  /** Nothing left out of the recent list is newer than anything in it. */
  lemma RecentAreNewest(all: seq<Transaction>, x: Transaction, i: int)
    requires x in multiset(all) - multiset(Recent(all))
    requires 0 <= i < |Recent(all)|
    ensures x.date <= Recent(all)[i].date
  {
    var sorted := SortBy(all, NewestFirst);
    var r := Recent(all);
    NewestFirstTotal();
    SortBySorted(all, NewestFirst);
    var rest := sorted[|r|..];
    assert sorted == r + rest;
    assert multiset(sorted) == multiset(r) + multiset(rest);
    assert x in multiset(rest);
    var j :| 0 <= j < |rest| && rest[j] == x;
    SortedPairwise(sorted, NewestFirst, i, |r| + j);
  }

  // ---------------------------------------------------------- the screen

  class TransactionReport {
    var selectedDateRange: string
    var selectedCategory: string
    var allTransactions: seq<Transaction>
    var filteredTransactions: seq<Transaction>
    var currentPage: int
    var totalPages: int
    /** What the two adapters and the list's empty state show. */
    var pagedTransactions: seq<Transaction>
    var recentTransactions: seq<Transaction>
    var listVisible: bool

    /** The page counter is in range; when the list is not empty, the page
        count fits it and the adapter shows the current page. When the list
        is empty the count is the previous one, which the next button still
        honours. */
    predicate Valid()
      reads this
    {
      totalPages >= 0 && 0 <= currentPage && (currentPage == 0 || currentPage < totalPages)
      && (filteredTransactions != [] ==>
            totalPages == TotalPages(|filteredTransactions|)
            && currentPage < totalPages
            && pagedTransactions == Page(filteredTransactions, currentPage))
      && listVisible == (filteredTransactions != [])
    }

    constructor ()
      ensures Valid()
      ensures selectedDateRange == "Last 30 Days" && selectedCategory == ALL_CATEGORIES
      ensures allTransactions == [] && filteredTransactions == [] && currentPage == 0 && totalPages == 0
    {
      selectedDateRange := "Last 30 Days";
      selectedCategory := ALL_CATEGORIES;
      allTransactions := [];
      filteredTransactions := [];
      currentPage := 0;
      totalPages := 0;
      pagedTransactions := [];
      recentTransactions := [];
      listVisible := false;
    }

    /** updateTransactionsList: recomputes the page count, clamps the page and
        shows its slice; an empty list only hides the list. */
    method UpdateTransactionsList()
      modifies this
      requires currentPage >= 0 && totalPages >= 0 && (currentPage == 0 || currentPage < totalPages)
      ensures Valid()
      ensures filteredTransactions == old(filteredTransactions) && allTransactions == old(allTransactions)
      ensures recentTransactions == old(recentTransactions)
      ensures selectedDateRange == old(selectedDateRange) && selectedCategory == old(selectedCategory)
      ensures filteredTransactions == [] ==>
        currentPage == old(currentPage) && totalPages == old(totalPages) && pagedTransactions == old(pagedTransactions)
      ensures filteredTransactions != [] ==> currentPage == Clamp(old(currentPage), totalPages)
    {
      if filteredTransactions == [] {
        listVisible := false;
      } else {
        listVisible := true;
        totalPages := TotalPages(|filteredTransactions|);
        if currentPage >= totalPages {
          currentPage := totalPages - 1;
        }
        if currentPage < 0 {
          currentPage := 0;
        }
        var startIndex := currentPage * PAGE_SIZE;
        var endIndex := if startIndex + PAGE_SIZE < |filteredTransactions| then startIndex + PAGE_SIZE
                        else |filteredTransactions|;
        pagedTransactions := filteredTransactions[startIndex..endIndex];
      }
    }

    /** applyFilters: filters, sorts newest first and goes back to page 0. */
    method ApplyFilters(now: int, dayOfYear: nat)
      modifies this
      requires Valid()
      ensures Valid()
      ensures filteredTransactions
        == Filtered(allTransactions, StartDate(selectedDateRange, now, dayOfYear), selectedCategory)
      ensures currentPage == 0
      ensures allTransactions == old(allTransactions) && recentTransactions == old(recentTransactions)
      ensures selectedDateRange == old(selectedDateRange) && selectedCategory == old(selectedCategory)
    {
      var startDate := StartDate(selectedDateRange, now, dayOfYear);
      filteredTransactions := Filtered(allTransactions, startDate, selectedCategory);
      currentPage := 0;
      UpdateTransactionsList();
    }

    /** The transactions arrive: the recent list is refreshed (when there are
        any) and the filters are applied again. */
    method ObserveTransactions(transactions: seq<Transaction>, now: int, dayOfYear: nat)
      modifies this
      requires Valid()
      ensures Valid()
      ensures allTransactions == transactions
      ensures recentTransactions == if transactions == [] then old(recentTransactions) else Recent(transactions)
      ensures filteredTransactions
        == Filtered(transactions, StartDate(selectedDateRange, now, dayOfYear), selectedCategory)
      ensures currentPage == 0
    {
      allTransactions := transactions;
      if allTransactions != [] {
        recentTransactions := Recent(allTransactions);
      }
      ApplyFilters(now, dayOfYear);
    }

    /** The previous-page button: only from a page after the first. */
    method PrevPage()
      modifies this
      requires Valid()
      ensures Valid()
      ensures currentPage == if old(currentPage) > 0 then old(currentPage) - 1 else old(currentPage)
      ensures filteredTransactions == old(filteredTransactions) && totalPages == old(totalPages)
    {
      if currentPage > 0 {
        currentPage := currentPage - 1;
        UpdateTransactionsList();
      }
    }

    /** The next-page button: only from a page before the last. */
    method NextPage()
      modifies this
      requires Valid()
      ensures Valid()
      ensures currentPage == if old(currentPage) < old(totalPages) - 1 then old(currentPage) + 1 else old(currentPage)
      ensures filteredTransactions == old(filteredTransactions) && totalPages == old(totalPages)
    {
      if currentPage < totalPages - 1 {
        currentPage := currentPage + 1;
        UpdateTransactionsList();
      }
    }
  }
}
