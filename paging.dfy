/** The paged printing table of the card-price report (`printTablePage` and `setupPagination` in
    yugiohMarketCLI.js): pages of `PAGE_SIZE` rows, and a cursor moved by the up and down keys. */
module Paging {
  const PAGE_SIZE: nat := 8

  /** `Math.ceil(rows.length / PAGE_SIZE)`. */
  function TotalPages(n: nat): (t: nat)
    ensures t * PAGE_SIZE >= n
    ensures t > 0 ==> (t - 1) * PAGE_SIZE < n
    ensures t == 0 <==> n == 0
  {
    (n + PAGE_SIZE - 1) / PAGE_SIZE
  }

  /** `start = page * PAGE_SIZE`, `end = Math.min(start + PAGE_SIZE, rows.length)`. */
  function PageWindow(page: nat, n: nat): (w: (nat, nat))
    ensures w.0 == page * PAGE_SIZE
    ensures w.1 <= n && w.1 <= w.0 + PAGE_SIZE
    ensures w.1 == n || w.1 == w.0 + PAGE_SIZE
  {
    var start := page * PAGE_SIZE;
    (start, if start + PAGE_SIZE < n then start + PAGE_SIZE else n)
  }

  /** On a page that exists the window is a non-empty stretch of at most `PAGE_SIZE` rows inside
      the table. */
  lemma WindowInBounds(page: nat, n: nat)
    requires page < TotalPages(n)
    ensures var w := PageWindow(page, n); w.0 < w.1 <= n && w.1 - w.0 <= PAGE_SIZE
  {
  }

  /** `rows.slice(start, end)`: empty when the window is empty. */
  function PageRows<T>(rows: seq<T>, page: nat): (r: seq<T>)
    ensures |r| <= PAGE_SIZE
    ensures var w := PageWindow(page, |rows|); w.0 < w.1 ==> r == rows[w.0..w.1]
    ensures page >= TotalPages(|rows|) ==> r == []
  {
    var w := PageWindow(page, |rows|);
    if w.0 < w.1 then rows[w.0..w.1] else []
  }

  /** The first `k` pages, one after the other. */
  function FirstPages<T>(rows: seq<T>, k: nat): seq<T> {
    if k == 0 then [] else FirstPages(rows, k - 1) + PageRows(rows, k - 1)
  }

  /** The first `k` pages are exactly the first `k * PAGE_SIZE` rows (or all of them). */
  lemma {:induction false} FirstPagesArePrefix<T>(rows: seq<T>, k: nat)
    ensures FirstPages(rows, k) == rows[..if k * PAGE_SIZE < |rows| then k * PAGE_SIZE else |rows|]
  {
    if k > 0 {
      FirstPagesArePrefix(rows, k - 1);
      var lo := (k - 1) * PAGE_SIZE;
      var hi := if k * PAGE_SIZE < |rows| then k * PAGE_SIZE else |rows|;
      if lo < |rows| {
        assert rows[..hi] == rows[..lo] + rows[lo..hi];
      }
    }
  }

  /** Paging through every page shows every row once, in order. */
  lemma PagesCoverRows<T>(rows: seq<T>)
    ensures FirstPages(rows, TotalPages(|rows|)) == rows
  {
    FirstPagesArePrefix(rows, TotalPages(|rows|));
  }

  /** A key press: `q` or escape, up, down, or anything else. */
  datatype Key = Quit | Up | Down | Other

  /** The page after a key: up moves back while not on the first page, down moves on while not on
      the last page, anything else stays. */
  function NextPage(current: nat, totalPages: nat, key: Key): (p: nat)
    ensures current < totalPages ==> p < totalPages
    ensures p == current || p == current + 1 || p + 1 == current
    ensures p > current <==> key == Down && current + 1 < totalPages
    ensures p < current <==> key == Up && current > 0
  {
    match key
    case Up => if current > 0 then current - 1 else current
    case Down => if current < totalPages - 1 then current + 1 else current
    case _ => current
  }

  /** The page after `k` presses of `key`. */
  function Presses(current: nat, totalPages: nat, key: Key, k: nat): nat {
    if k == 0 then current else NextPage(Presses(current, totalPages, key, k - 1), totalPages, key)
  }

  /** Pressing down `k` times from the first page reaches page `k`, stopping at the last page. */
  lemma {:induction false} DownsStopAtLastPage(totalPages: nat, k: nat)
    requires totalPages > 0
    ensures Presses(0, totalPages, Down, k) == if k < totalPages then k else totalPages - 1
  {
    if k > 0 {
      DownsStopAtLastPage(totalPages, k - 1);
    }
  }

  /** Up undoes a down that moved. */
  lemma UpUndoesDown(current: nat, totalPages: nat)
    requires current + 1 < totalPages
    ensures NextPage(NextPage(current, totalPages, Down), totalPages, Up) == current
  {
  }

  /** The page cursor of `setupPagination`. With at most one page of rows the table is printed
      once and no key is listened to. */
  class Pager {
    const rowCount: nat
    const totalPages: nat
    const interactive: bool
    var currentPage: nat

    ghost predicate Valid()
      reads this
    {
      && totalPages == TotalPages(rowCount)
      && interactive == (rowCount > PAGE_SIZE)
      && (interactive ==> currentPage < totalPages)
      && (!interactive ==> currentPage == 0)
    }

    constructor (rowCount: nat)
      ensures Valid()
      ensures this.rowCount == rowCount && currentPage == 0
    {
      this.rowCount := rowCount;
      totalPages := TotalPages(rowCount);
      interactive := rowCount > PAGE_SIZE;
      currentPage := 0;
    }

    /** The rows on screen: never more than a page, and never an empty window while paging. */
    function Shown(): (w: (nat, nat))
      reads this
      requires Valid()
      ensures w == PageWindow(currentPage, rowCount)
      ensures w.0 <= w.1 <= rowCount && w.1 - w.0 <= PAGE_SIZE
      ensures interactive ==> w.0 < w.1
    {
      if interactive then
        WindowInBounds(currentPage, rowCount);
        PageWindow(currentPage, rowCount)
      else
        PageWindow(currentPage, rowCount)
    }

    /** One keypress: quit ends the program, up and down move the cursor within the pages. */
    method OnKey(key: Key) returns (quit: bool)
      requires Valid()
      modifies this
      ensures Valid()
      ensures quit <==> interactive && key == Quit
      ensures currentPage == if interactive && !quit then NextPage(old(currentPage), totalPages, key) else old(currentPage)
    {
      if !interactive {
        return false;
      }
      if key == Quit {
        return true;
      }
      if key == Up && currentPage > 0 {
        currentPage := currentPage - 1;
      } else if key == Down && currentPage < totalPages - 1 {
        currentPage := currentPage + 1;
      }
      quit := false;
    }
  }
}
