/**
 Paged menus (server/core/menu_pagination.py), and how a selection in one moves to another page
 (server/core/server.py, _handle_menu_pagination).  A saved page number that does not read as an integer is
 None.
 */
module MenuPagination {
  import opened Wrappers
  import opened Arithmetic

  const MAX_PAGE_SIZE := 100
  const FIRST := "page_first"
  const PREVIOUS := "page_previous"
  const NEXT := "page_next"
  const LAST := "page_last"
  const REFRESH := "refresh"
  const SUMMARY := "page_summary"

  /** A page size clients can be sent. */
  function PageSize(size: int): (n: nat)
    ensures 1 <= n <= MAX_PAGE_SIZE
  {
    Max(1, Min(size, MAX_PAGE_SIZE))
  }

  /** The number of pages; an empty list has one. */
  function TotalPages(total: int, size: int): (n: nat)
    ensures n >= 1
  {
    Max(1, (Max(0, total) + PageSize(size) - 1) / PageSize(size))
  }

  function ClampPage(page: Option<int>, total: int, size: int): (p: nat)
    ensures 1 <= p <= TotalPages(total, size)
  {
    Min(Max(1, if page.Some? then page.value else 1), TotalPages(total, size))
  }

  predicate IsControl(id: string) {
    id == FIRST || id == PREVIOUS || id == NEXT || id == LAST || id == REFRESH
  }

  /** The page a control leads to. */
  function PageForSelection(id: string, current: Option<int>, count: Option<int>): Option<int> {
    if !IsControl(id) then None
    else
      var safeCount := Max(1, if count.Some? then count.value else 1);
      var safeCurrent := Min(Max(1, if current.Some? then current.value else 1), safeCount);
      Some(if id == FIRST then 1
           else if id == PREVIOUS then Max(1, safeCurrent - 1)
           else if id == NEXT then Min(safeCount, safeCurrent + 1)
           else if id == LAST then safeCount
           else safeCurrent)
  }

  /** The number of rows that fit on some pages. */
  function RowsOn(pages: int, size: nat): int {
    pages * size
  }

  /** A page of rows, with what its summary line says. */
  datatype Page<T> = Page(items: seq<T>, total: nat, page: nat, size: nat) {
    function Pages(): nat {
      TotalPages(total, size)
    }

    function Start(): int {
      if total <= 0 then 0 else RowsOn(page - 1, size) + 1
    }

    function End(): int {
      if total <= 0 then 0 else Min(total, RowsOn(page, size))
    }

    predicate HasPrevious() {
      page > 1
    }

    predicate HasNext() {
      page < Pages()
    }
  }

  /** Slicing as Python does it: out of range bounds are cut back. */
  function Slice<T>(items: seq<T>, from: nat, to: nat): seq<T> {
    if from >= |items| || to <= from then [] else items[from..Min(to, |items|)]
  }

  /** The page to show of a list. */
  function Paginate<T>(items: seq<T>, page: Option<int>, size: int): Page<T> {
    var n := PageSize(size);
    var p := ClampPage(page, |items|, n);
    var offset := RowsOn(p - 1, n);
    OffsetFits(p, n);
    Page(Slice(items, offset, offset + n), |items|, p, n)
  }

  /** The controls below a page. */
  function Controls<T>(p: Page<T>, includeRefresh: bool): seq<string> {
    (if includeRefresh && p.total > 0 then [REFRESH] else []) +
    if p.Pages() <= 1 then []
    else (if p.HasPrevious() then [FIRST, PREVIOUS] else []) + (if p.HasNext() then [NEXT, LAST] else [])
  }

  // ------------------------------------------------------------ arithmetic

  lemma OffsetFits(p: nat, n: nat)
    requires p >= 1
    ensures RowsOn(p - 1, n) >= 0 && RowsOn(p - 1, n) + n == RowsOn(p, n)
  {
  }

  /** Dividing upwards: the last page starts inside the list and reaches its end. */
  lemma RoundedUp(total: nat, n: nat)
    requires n > 0 && total > 0
    ensures var pages := (total + n - 1) / n; pages >= 1 && RowsOn(pages - 1, n) < total <= RowsOn(pages, n)
  {
    var pages := (total + n - 1) / n;
    assert pages * n <= total + n - 1 < pages * n + n;
    assert pages == 0 ==> pages * n == 0;
    assert RowsOn(pages - 1, n) == RowsOn(pages, n) - n;
  }

  lemma RowOf(k: nat, n: nat)
    requires n > 0
    ensures k / n >= 0 && RowsOn(k / n, n) <= k < RowsOn(k / n, n) + n
  {
  }

  lemma {:induction false} Ordered(a: nat, b: nat, n: nat)
    requires a <= b
    ensures RowsOn(a, n) <= RowsOn(b, n)
    decreases b - a
  {
    hide RowsOn;
    if a < b {
      Ordered(a, b - 1, n);
      OffsetFits(b, n);
    }
  }

  /** Where a page of a non-empty list lies. */
  lemma PageLies(total: nat, size: int, p: nat)
    requires total > 0 && 1 <= p <= TotalPages(total, size)
    ensures var n := PageSize(size);
            && 0 <= RowsOn(p - 1, n) < total
            && (p < TotalPages(total, size) ==> RowsOn(p, n) < total)
            && (p == TotalPages(total, size) ==> total <= RowsOn(p, n))
  {
    hide RowsOn;
    var n := PageSize(size);
    var pages := TotalPages(total, size);
    RoundedUp(total, n);
    assert pages == (total + n - 1) / n;
    OffsetFits(p, n);
    Ordered(p - 1, pages - 1, n);
    if p < pages {
      Ordered(p, pages - 1, n);
    }
  }

  // ------------------------------------------------------------ main results

  /** A page shows the list's rows from its start index to its end index, and it is full unless it is the
      last. */
  lemma PageShowsItsRows<T>(items: seq<T>, page: Option<int>, size: int)
    ensures var p := Paginate(items, page, size);
            if items == [] then p.items == [] && p.Start() == 0 && p.End() == 0 && p.page == 1
            else && 1 <= p.Start() <= p.End() <= |items|
                 && p.items == items[p.Start() - 1..p.End()]
                 && (p.HasNext() ==> |p.items| == p.size)
                 && (!p.HasNext() ==> p.End() == |items|)
  {
    hide RowsOn, TotalPages;
    var p := Paginate(items, page, size);
    SizeIsSize(size);
    OffsetFits(p.page, p.size);
    if items == [] {
      EmptyHasOne(size);
    } else {
      TotalIsTotal(|items|, size);
      PageLies(|items|, size, p.page);
    }
  }

  lemma EmptyHasOne(size: int)
    ensures TotalPages(0, size) == 1 && TotalPages(0, PageSize(size)) == 1
  {
    var n := PageSize(size);
    assert (n - 1) / n == 0;
    SizeIsSize(size);
  }

  lemma TotalIsTotal(total: nat, size: int)
    ensures TotalPages(total, PageSize(size)) == TotalPages(total, size)
  {
    SizeIsSize(size);
  }

  lemma SizeIsSize(size: int)
    ensures PageSize(PageSize(size)) == PageSize(size)
  {
  }

  /** The pages seen by choosing "next" until there is none. */
  function Walk<T>(items: seq<T>, page: Option<int>, size: int): seq<Page<T>>
    decreases TotalPages(|items|, PageSize(size)) - Paginate(items, page, size).page
  {
    var p := Paginate(items, page, size);
    if !p.HasNext() then [p] else [p] + Walk(items, PageForSelection(NEXT, Some(p.page), Some(p.Pages())), size)
  }

  function Rows<T>(pages: seq<Page<T>>): seq<T> {
    if pages == [] then [] else pages[0].items + Rows(pages[1..])
  }

  /** The rows from a page on. */
  ghost function RestFrom<T>(items: seq<T>, page: Option<int>, size: int): seq<T> {
    PageShowsItsRows(items, page, size);
    if items == [] then [] else items[Paginate(items, page, size).Start() - 1..]
  }

  /** The next page begins where a page ends. */
  lemma NextBegins<T>(items: seq<T>, page: Option<int>, size: int)
    requires Paginate(items, page, size).HasNext()
    ensures var p := Paginate(items, page, size);
            var next := PageForSelection(NEXT, Some(p.page), Some(p.Pages()));
            var q := Paginate(items, next, size);
            && q.page == p.page + 1 && q.Pages() == p.Pages()
            && RestFrom(items, page, size) == p.items + RestFrom(items, next, size)
  {
    hide RowsOn, TotalPages, Slice, RestFrom;
    NextIsNext(items, page, size);
    RestIs(items, page, size);
    var p := Paginate(items, page, size);
    RestIs(items, PageForSelection(NEXT, Some(p.page), Some(p.Pages())), size);
    if items != [] {
      Resumes(items, p.Start() - 1, p.End());
    }
  }

  lemma RestIs<T>(items: seq<T>, page: Option<int>, size: int)
    ensures var p := Paginate(items, page, size);
            if items == [] then RestFrom(items, page, size) == [] && p.items == []
            else && 1 <= p.Start() <= p.End() <= |items| && RestFrom(items, page, size) == items[p.Start() - 1..]
                 && p.items == items[p.Start() - 1..p.End()]
  {
    hide Paginate;
    PageShowsItsRows(items, page, size);
  }

  lemma Resumes<T>(items: seq<T>, a: nat, b: nat)
    requires a <= b <= |items|
    ensures items[a..b] + items[b..] == items[a..]
  {
  }

  lemma NextIsNext<T>(items: seq<T>, page: Option<int>, size: int)
    requires Paginate(items, page, size).HasNext()
    ensures items != []
    ensures var p := Paginate(items, page, size);
            var q := Paginate(items, PageForSelection(NEXT, Some(p.page), Some(p.Pages())), size);
            && q.page == p.page + 1 && q.Pages() == p.Pages() && q.Start() == p.End() + 1
  {
    hide RowsOn, TotalPages;
    var p := Paginate(items, page, size);
    var next := PageForSelection(NEXT, Some(p.page), Some(p.Pages()));
    SizeIsSize(size);
    TotalIsTotal(|items|, size);
    if items == [] {
      EmptyHasOne(size);
    } else {
      PageLies(|items|, size, p.page);
      OffsetFits(p.page + 1, p.size);
    }
  }

  /** Walking on from a page visits every page from there to the last once, and their rows are the rest of the
      list. */
  lemma {:induction false} WalkShowsRest<T>(items: seq<T>, page: Option<int>, size: int)
    ensures var p := Paginate(items, page, size);
            var walk := Walk(items, page, size);
            && |walk| == p.Pages() - p.page + 1
            && (forall i :: 0 <= i < |walk| ==> walk[i].page == p.page + i)
            && Rows(walk) == RestFrom(items, page, size)
    decreases TotalPages(|items|, PageSize(size)) - Paginate(items, page, size).page
  {
    hide RowsOn, TotalPages, RestFrom, Slice, PageForSelection;
    var p := Paginate(items, page, size);
    if !p.HasNext() {
      LastIsRest(items, page, size);
      assert Rows([p]) == p.items + Rows([p][1..]) && Rows([p][1..]) == [];
    } else {
      NextBegins(items, page, size);
      var next := PageForSelection(NEXT, Some(p.page), Some(p.Pages()));
      WalkShowsRest(items, next, size);
      var walk := Walk(items, next, size);
      assert ([p] + walk)[1..] == walk;
    }
  }

  lemma LastIsRest<T>(items: seq<T>, page: Option<int>, size: int)
    requires !Paginate(items, page, size).HasNext()
    ensures RestFrom(items, page, size) == Paginate(items, page, size).items
    ensures Paginate(items, page, size).page == Paginate(items, page, size).Pages()
  {
    hide RowsOn, TotalPages, Slice;
    PageShowsItsRows(items, page, size);
    SizeIsSize(size);
  }

  /** From First by Next: all the pages, in order, and their rows put together are exactly the list. */
  lemma WalkShowsAll<T>(items: seq<T>, size: int, current: Option<int>, count: Option<int>)
    ensures var walk := Walk(items, PageForSelection(FIRST, current, count), size);
            && |walk| == TotalPages(|items|, size)
            && (forall i :: 0 <= i < |walk| ==> walk[i].page == i + 1)
            && Rows(walk) == items
  {
    hide RowsOn, TotalPages, Slice, Walk, Rows;
    TotalIsTotal(|items|, size);
    SizeIsSize(size);
    WalkShowsRest(items, PageForSelection(FIRST, current, count), size);
    FirstIsAll(items, PageForSelection(FIRST, current, count), size);
  }

  lemma FirstIsAll<T>(items: seq<T>, page: Option<int>, size: int)
    requires page == Some(1)
    ensures Paginate(items, page, size).page == 1 && RestFrom(items, page, size) == items
  {
    hide TotalPages, Slice;
  }

  /** Every row is on exactly one page. */
  lemma OnOnePage<T>(items: seq<T>, size: int, k: nat, page: nat)
    requires k < |items| && 1 <= page <= TotalPages(|items|, size)
    ensures var p := Paginate(items, Some(page), size);
            p.page == page && (p.Start() - 1 <= k < p.End() <==> page == k / PageSize(size) + 1)
  {
    hide TotalPages, Slice, RowsOn;
    TotalIsTotal(|items|, size);
    SizeIsSize(size);
    var n := PageSize(size);
    var q := k / n;
    RowOf(k, n);
    OffsetFits(q + 1, n);
    OffsetFits(page, n);
    if page - 1 < q {
      Ordered(page, q, n);
    } else if page - 1 > q {
      Ordered(q + 1, page - 1, n);
      OffsetFits(q + 1, n);
    }
  }

  /** A navigation control is shown exactly when it leads to another page; none is shown that leads nowhere. */
  lemma ControlsShownIff<T>(p: Page<T>, includeRefresh: bool, id: string)
    requires 1 <= p.page <= p.Pages() && IsControl(id) && id != REFRESH
    ensures id in Controls(p, includeRefresh) <==> PageForSelection(id, Some(p.page), Some(p.Pages())) != Some(p.page)
  {
  }

  /** Next and Previous undo each other. */
  lemma NextAndPrevious(page: int, count: int)
    requires 1 <= page <= count
    ensures page < count ==>
              PageForSelection(PREVIOUS, PageForSelection(NEXT, Some(page), Some(count)), Some(count)) == Some(page)
    ensures page > 1 ==>
              PageForSelection(NEXT, PageForSelection(PREVIOUS, Some(page), Some(count)), Some(count)) == Some(page)
  {
  }

  /** What a menu remembers: the page, the number of pages it had, and whether it can be shown again. */
  datatype MenuState = MenuState(page: Option<int>, pages: Option<int>, reshows: bool)

  datatype Handling = Handling(state: MenuState, handled: bool)

  function HandlePagination(s: MenuState, id: string): Handling {
    if id == SUMMARY then Handling(s, true)
    else if !IsControl(id) || !s.reshows then Handling(s, false)
    else
      var page := PageForSelection(id, s.page, s.pages);
      if page.None? then Handling(s, false) else Handling(s.(page := page), true)
  }

  /** However stale the remembered page and page count are, and whatever has become of the list: after any
      selection the page shown is in range, and it has rows unless the list has none. */
  lemma StalePagesAreSafe<T>(s: MenuState, id: string, items: seq<T>, size: int)
    ensures var h := HandlePagination(s, id);
            var p := Paginate(items, h.state.page, size);
            && 1 <= p.page <= TotalPages(|items|, size)
            && (p.items == [] <==> items == [])
            && (h.handled && IsControl(id) ==> h.state.page.Some? && h.state.page.value >= 1)
  {
    SizeIsSize(size);
    PageShowsItsRows(items, HandlePagination(s, id).state.page, size);
  }

  /** A refresh shows the page remembered, cut back to the pages there were; against the same list that is the
      page on the screen. */
  lemma RefreshStays<T>(items: seq<T>, page: Option<int>, size: int)
    ensures var p := Paginate(items, page, size);
            var s := HandlePagination(MenuState(Some(p.page), Some(p.Pages()), true), REFRESH).state;
            Paginate(items, s.page, size) == p
  {
  }

  /** Last shows the end of the list as it is now, whatever was remembered of it, unless fewer pages were
      remembered than there are: then it shows the last one remembered. */
  lemma LastShowsEnd<T>(items: seq<T>, current: Option<int>, count: Option<int>, size: int)
    ensures var p := Paginate(items, PageForSelection(LAST, current, count), size);
            var known := if count.Some? && count.value >= 1 then count.value else 1;
            && p.page == (if known <= p.Pages() then known else p.Pages())
            && (known >= p.Pages() ==> !p.HasNext() && p.End() == |items|)
  {
    hide RowsOn, TotalPages;
    var p := Paginate(items, PageForSelection(LAST, current, count), size);
    SizeIsSize(size);
    TotalIsTotal(|items|, size);
    PageShowsItsRows(items, PageForSelection(LAST, current, count), size);
  }

  /** From any page shown of a list, Last leads to the page that ends it. */
  lemma LastIsLast<T>(items: seq<T>, page: Option<int>, size: int)
    ensures var p := Paginate(items, page, size);
            var last := Paginate(items, PageForSelection(LAST, Some(p.page), Some(p.Pages())), size);
            && !last.HasNext() && last.End() == |items| && last.page == p.Pages()
            && (items != [] ==> last.items != [] && last.items[|last.items| - 1] == items[|items| - 1])
  {
    hide RowsOn, TotalPages;
    var p := Paginate(items, page, size);
    LastShowsEnd(items, Some(p.page), Some(p.Pages()), size);
    PageShowsItsRows(items, PageForSelection(LAST, Some(p.page), Some(p.Pages())), size);
  }

  // ------------------------------------------------ what is asked for

  /** A page has the size asked for, brought within 1 and 100. */
  lemma SizeIsAsked<T>(items: seq<T>, page: Option<int>, size: int)
    ensures var p := Paginate(items, page, size);
            p.size == if size < 1 then 1 else if size > 100 then 100 else size
  {
  }

  /** The page asked for is shown, brought within the pages there are; without a number it is the first. */
  lemma PageIsAsked<T>(items: seq<T>, page: Option<int>, size: int)
    ensures var p := Paginate(items, page, size);
            p.page == match page
                      case None => 1
                      case Some(n) => if n < 1 then 1 else if n > p.Pages() then p.Pages() else n
  {
    hide RowsOn, TotalPages;
    SizeIsSize(size);
    TotalIsTotal(|items|, size);
  }

  /** A place for each control. */
  function Rank(id: string): int {
    if id == REFRESH then 0 else if id == FIRST then 1 else if id == PREVIOUS then 2 else if id == NEXT then 3 else 4
  }

  /** Controls come in a fixed order, each at most once: refresh, if asked for and if there are rows; first and
      previous; next and last. */
  lemma ControlsInOrder<T>(p: Page<T>, includeRefresh: bool)
    ensures var c := Controls(p, includeRefresh);
            && (REFRESH in c <==> includeRefresh && p.total > 0)
            && (forall id :: id in c ==> IsControl(id))
            && (forall i, j :: 0 <= i < j < |c| ==> Rank(c[i]) < Rank(c[j]))
  {
  }

  /** A selection is handled exactly if it is the summary line, or a control of a menu that can be shown again;
      only such a control changes what is remembered, and only the page. */
  lemma HandledIff(s: MenuState, id: string)
    ensures var h := HandlePagination(s, id);
            && (h.handled <==> id == SUMMARY || (id in {FIRST, PREVIOUS, NEXT, LAST, REFRESH} && s.reshows))
            && h.state == s.(page := h.state.page)
            && (!(id in {FIRST, PREVIOUS, NEXT, LAST, REFRESH} && s.reshows) ==> h.state == s)
            && (PageForSelection(id, s.page, s.pages).Some? <==> id in {FIRST, PREVIOUS, NEXT, LAST, REFRESH})
  {
  }
}
