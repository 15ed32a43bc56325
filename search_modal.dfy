/**
 * The global search modal: open/closed state, the three status panels, the
 * debounced query, the rendered result list and keyboard selection.
 *
 * The rendered result items (the `[data-result="item"]` elements) are kept
 * apart from the `results` field because the hook updates them at
 * different moments: an empty reply removes the items but leaves `results`
 * and `selectedIndex` as they were.  The debounce timer is a pending query;
 * its firing and the search reply are inputs of `DebounceFires`.
 */
module Search {
  import opened Wrappers

  /** The minimum query length that schedules a search. */
  const MIN_QUERY: nat := 2

  /** One search hit as the server returns it. */
  datatype Item = Item(kind: string, title: string, url: string)

  /** The `results` object of a search reply. */
  datatype Groups = Groups(jobs: seq<Item>, customers: seq<Item>, invoices: seq<Item>)

  /** How the search request ended: a thrown error, or the parsed JSON body. */
  datatype SearchReply = RequestFailed | Answer(success: bool, results: Option<Groups>)

  /** Visibility of the loading, empty and no-results panels. */
  datatype Panels = Panels(loading: bool, empty: bool, noResults: bool)

  const ALL_HIDDEN := Panels(false, false, false)

  /** How many of the three panels are visible. */
  function VisibleCount(p: Panels): (n: nat)
    ensures n <= 3
    ensures n == 0 <==> p == ALL_HIDDEN
  {
    (if p.loading then 1 else 0) + (if p.empty then 1 else 0) + (if p.noResults then 1 else 0)
  }

  /** showState: the panel named by the state is the only one visible; an unknown state hides all three. */
  function PanelsFor(state: string): (p: Panels)
    ensures VisibleCount(p) == if state in {"loading", "empty", "no-results"} then 1 else 0
    ensures p.loading <==> state == "loading"
    ensures p.empty <==> state == "empty"
    ensures p.noResults <==> state == "no-results"
  {
    Panels(state == "loading", state == "empty", state == "no-results")
  }

  /** The flat result list: jobs, then customers, then invoices. */
  function AllItems(g: Groups): (r: seq<Item>)
    ensures |r| == |g.jobs| + |g.customers| + |g.invoices|
    ensures r[..|g.jobs|] == g.jobs
    ensures r[|g.jobs|..|g.jobs| + |g.customers|] == g.customers
    ensures r[|g.jobs| + |g.customers|..] == g.invoices
  {
    g.jobs + g.customers + g.invoices
  }

  /** ArrowDown: `Math.min(i + 1, n - 1)`. */
  function SelectDown(i: int, n: nat): (r: int)
    ensures r <= n - 1
    ensures i < n - 1 ==> r == i + 1
    ensures i >= n - 1 ==> r == n - 1
    ensures n > 0 && -1 <= i ==> 0 <= r
  {
    if i + 1 < n - 1 then i + 1 else n - 1
  }

  /** ArrowUp: `Math.max(i - 1, 0)`. */
  function SelectUp(i: int): (r: int)
    ensures 0 <= r && r <= if i > 0 then i else 0
    ensures i > 0 ==> r == i - 1
  {
    if i - 1 > 0 then i - 1 else 0
  }

  /** `k` ArrowDown presses in a row. */
  function Downs(i: int, n: nat, k: nat): int
    decreases k
  {
    if k == 0 then i else Downs(SelectDown(i, n), n, k - 1)
  }

  /** Pressing ArrowDown `k` times moves `k` rows, stopping at the last one. */
  lemma {:induction false} DownsStopAtLast(i: int, n: nat, k: nat)
    requires 0 <= i < n
    ensures Downs(i, n, k) == if i + k < n - 1 then i + k else n - 1
    decreases k
  {
    if k > 0 {
      DownsStopAtLast(SelectDown(i, n), n, k - 1);
    }
  }

  /** The SVG path fragments of the three result kinds. */
  const JOB_ICON := "<path stroke-linecap=\"round\" stroke-linejoin=\"round\" stroke-width=\"2\" d=\"M21 13.255A23.931 23.931 0 0112 15c-3.183 0-6.22-.62-9-1.745M16 6V4a2 2 0 00-2-2h-4a2 2 0 00-2 2v2m4 6h.01M5 20h14a2 2 0 002-2V8a2 2 0 00-2-2H5a2 2 0 00-2 2v10a2 2 0 002 2z\" />"
  const CUSTOMER_ICON := "<path stroke-linecap=\"round\" stroke-linejoin=\"round\" stroke-width=\"2\" d=\"M12 4.354a4 4 0 110 5.292M15 21H3v-1a6 6 0 0112 0v1zm0 0h6v-1a6 6 0 00-9-5.197M13 7a4 4 0 11-8 0 4 4 0 018 0z\" />"
  const INVOICE_ICON := "<path stroke-linecap=\"round\" stroke-linejoin=\"round\" stroke-width=\"2\" d=\"M2.25 18.75a60.07 60.07 0 0115.797 2.101c.727.198 1.453-.342 1.453-1.096V18.75M3.75 4.5v.75A.75.75 0 013 6h-.75m0 0v-.375c0-.621.504-1.125 1.125-1.125H20.25M2.25 6v9m18-10.5v.75c0 .414.336.75.75.75h.75m-1.5-1.5h.375c.621 0 1.125.504 1.125 1.125v9.75c0 .621-.504 1.125-1.125 1.125h-.375m1.5-1.5H21a.75.75 0 00-.75.75v.75m0 0H3.75m0 0h-.375a1.125 1.125 0 01-1.125-1.125V15m1.5 1.5v-.75A.75.75 0 003 15h-.75M15 10.5a3 3 0 11-6 0 3 3 0 016 0zm3 0h.008v.008H18V10.5zm-12 0h.008v.008H6V10.5z\" />"

  /** The three icons a result can carry. */
  datatype Icon = JobIcon | CustomerIcon | InvoiceIcon

  /** getIconPath's choice: the kind's own icon, the job icon for any other kind. */
  function IconFor(kind: string): (i: Icon)
    ensures i == CustomerIcon <==> kind == "customer"
    ensures i == InvoiceIcon <==> kind == "invoice"
    ensures kind != "customer" && kind != "invoice" ==> i == JobIcon
  {
    if kind == "customer" then CustomerIcon
    else if kind == "invoice" then InvoiceIcon
    else JobIcon
  }

  /** The SVG path fragment of an icon. */
  function Svg(i: Icon): string {
    match i
    case JobIcon => JOB_ICON
    case CustomerIcon => CUSTOMER_ICON
    case InvoiceIcon => INVOICE_ICON
  }

  /** No character of `s` lies above U+FFFF, so none needs a surrogate pair. */
  predicate InBasicPlane(s: string) {
    forall i :: 0 <= i < |s| ==> s[i] as int <= 0xFFFF
  }

  /**
   * The `length` of a JavaScript string: the number of UTF-16 code units,
   * two for every character above U+FFFF (a surrogate pair), one otherwise.
   */
  function Utf16Length(s: string): (n: nat)
    ensures |s| <= n <= 2 * |s|
    ensures n == |s| <==> InBasicPlane(s)
    decreases |s|
  {
    if |s| == 0 then 0
    else (if s[0] as int > 0xFFFF then 2 else 1) + Utf16Length(s[1..])
  }

  /**
   * The query threshold counts UTF-16 code units: every query of two or
   * more characters is searched, and so is a single character above U+FFFF
   * (an emoji, say), but no other single character.
   */
  lemma QueryThreshold(query: string)
    ensures |query| >= MIN_QUERY ==> Utf16Length(query) >= MIN_QUERY
    ensures |query| == 1 ==> (Utf16Length(query) >= MIN_QUERY <==> query[0] as int > 0xFFFF)
  {
    if |query| == 1 {
      assert Utf16Length(query[1..]) == 0;
    }
  }

  /** getIconPath */
  function IconPath(kind: string): string {
    Svg(IconFor(kind))
  }

  class SearchModal {
    /** The modal carries the `hidden` class. */
    var hidden: bool
    var inputValue: string
    /** `document.body.style.overflow` is `hidden` while the modal is open. */
    var scrollLocked: bool
    var results: seq<Item>
    var selectedIndex: int
    /** The result items currently in the results container, in display order. */
    var rendered: seq<Item>
    var panels: Panels
    /** The query the debounce timer will search for, if one is scheduled. */
    var pending: Option<string>

    /** The selection is never below -1, and points at an item whenever items are shown. */
    ghost predicate Valid()
      reads this
    {
      && -1 <= selectedIndex
      && (|rendered| > 0 ==> 0 <= selectedIndex < |rendered|)
    }

    function IsOpen(): bool
      reads this
    {
      !hidden
    }

    /** mounted: no results and no selection; the modal starts as the page renders it. */
    constructor Mounted(startHidden: bool, startPanels: Panels)
      ensures Valid() && hidden == startHidden && panels == startPanels
      ensures results == [] && selectedIndex == -1 && rendered == [] && pending == None
    {
      hidden := startHidden;
      inputValue := "";
      scrollLocked := false;
      results := [];
      selectedIndex := -1;
      rendered := [];
      panels := startPanels;
      pending := None;
    }

    /** showState */
    method ShowState(state: string)
      modifies this
      ensures panels == PanelsFor(state)
      ensures hidden == old(hidden) && inputValue == old(inputValue) && scrollLocked == old(scrollLocked)
      ensures results == old(results) && selectedIndex == old(selectedIndex) && rendered == old(rendered)
      ensures pending == old(pending)
    {
      panels := PanelsFor(state);
    }

    /** resetResults: back to the mounted state, with only the empty panel visible. */
    method ResetResults()
      modifies this
      ensures Valid() && results == [] && selectedIndex == -1 && rendered == []
      ensures VisibleCount(panels) == 1 && panels.empty
      ensures hidden == old(hidden) && inputValue == old(inputValue) && scrollLocked == old(scrollLocked)
      ensures pending == old(pending)
    {
      results := [];
      selectedIndex := -1;
      ShowState("empty");
      rendered := [];
    }

    /** open: shown, input cleared, results reset, page scroll locked. */
    method Open()
      modifies this
      ensures Valid() && IsOpen() && inputValue == "" && scrollLocked
      ensures results == [] && selectedIndex == -1 && rendered == [] && panels == PanelsFor("empty")
      ensures pending == old(pending)
    {
      hidden := false;
      inputValue := "";
      ResetResults();
      scrollLocked := true;
    }

    /** close: hidden, input cleared, results reset, page scroll released. */
    method Close()
      modifies this
      ensures Valid() && !IsOpen() && inputValue == "" && !scrollLocked
      ensures results == [] && selectedIndex == -1 && rendered == [] && panels == PanelsFor("empty")
      ensures pending == old(pending)
    {
      hidden := true;
      inputValue := "";
      ResetResults();
      scrollLocked := false;
    }

    /** toggle: flips open and closed. */
    method Toggle()
      modifies this
      ensures Valid() && IsOpen() == !old(IsOpen()) && scrollLocked == IsOpen()
      ensures inputValue == "" && results == [] && selectedIndex == -1 && rendered == [] && panels == PanelsFor("empty")
      ensures pending == old(pending)
    {
      if IsOpen() {
        Close();
      } else {
        Open();
      }
    }

    /** The document keydown listener: Cmd/Ctrl+K toggles, then Escape closes an open modal. */
    method GlobalKeydown(key: string, meta: bool, ctrl: bool)
      requires Valid()
      modifies this
      ensures Valid()
      ensures (meta || ctrl) && key == "k" ==> IsOpen() == !old(IsOpen())
      ensures key == "Escape" ==> !IsOpen() && (old(IsOpen()) || unchanged(this))
      ensures ((meta || ctrl) && key == "k") || (key == "Escape" && old(IsOpen())) ==>
        && scrollLocked == IsOpen() && inputValue == "" && pending == old(pending)
        && results == [] && selectedIndex == -1 && rendered == [] && panels == PanelsFor("empty")
      ensures key != "Escape" && !((meta || ctrl) && key == "k") ==> unchanged(this)
    {
      if (meta || ctrl) && key == "k" {
        Toggle();
      }
      if key == "Escape" && IsOpen() {
        Close();
      }
    }

    /**
     * handleInput: the previous timer is cancelled; a query shorter than two
     * UTF-16 code units resets the results, any other shows the loading panel
     * and schedules a search for it.
     */
    method HandleInput(query: string)
      requires Valid()
      modifies this
      ensures Valid() && hidden == old(hidden) && inputValue == old(inputValue) && scrollLocked == old(scrollLocked)
      ensures Utf16Length(query) < MIN_QUERY ==>
        pending == None && results == [] && selectedIndex == -1 && rendered == [] && panels == PanelsFor("empty")
      ensures Utf16Length(query) >= MIN_QUERY ==>
        && pending == Some(query) && panels == PanelsFor("loading")
        && results == old(results) && selectedIndex == old(selectedIndex) && rendered == old(rendered)
    {
      pending := None;
      if Utf16Length(query) < MIN_QUERY {
        ResetResults();
        return;
      }
      ShowState("loading");
      pending := Some(query);
    }

    /**
     * renderResults: the old items are removed; an empty result shows the
     * no-results panel and keeps `results` and the selection; otherwise the
     * flat list is shown with its first row selected and no panel visible.
     */
    method RenderResults(g: Groups)
      requires Valid()
      modifies this
      ensures Valid() && hidden == old(hidden) && inputValue == old(inputValue) && scrollLocked == old(scrollLocked)
      ensures pending == old(pending)
      ensures rendered == AllItems(g)
      ensures |rendered| == 0 ==>
        panels == PanelsFor("no-results") && results == old(results) && selectedIndex == old(selectedIndex)
      ensures |rendered| > 0 ==>
        panels == ALL_HIDDEN && results == rendered && selectedIndex == 0
    {
      rendered := [];
      var all := g.jobs + g.customers + g.invoices;
      if |all| == 0 {
        ShowState("no-results");
        return;
      }
      panels := ALL_HIDDEN;
      results := all;
      selectedIndex := 0;
      rendered := all;
    }

    /**
     * The debounce timer fires: the pending query is searched; a successful
     * answer with results is rendered, anything else shows no-results.
     * Without a pending query nothing happens.
     */
    method DebounceFires(reply: SearchReply)
      requires Valid()
      modifies this
      ensures Valid() && pending == None
      ensures hidden == old(hidden) && inputValue == old(inputValue) && scrollLocked == old(scrollLocked)
      ensures old(pending).None? ==> unchanged(this)
      ensures old(pending).Some? && reply.Answer? && reply.success && reply.results.Some? ==>
        var items := AllItems(reply.results.value);
        && rendered == items
        && (|items| == 0 ==>
              panels == PanelsFor("no-results") && results == old(results) && selectedIndex == old(selectedIndex))
        && (|items| > 0 ==> panels == ALL_HIDDEN && results == items && selectedIndex == 0)
      ensures old(pending).Some? && !(reply.Answer? && reply.success && reply.results.Some?) ==>
        panels == PanelsFor("no-results") && rendered == old(rendered)
        && results == old(results) && selectedIndex == old(selectedIndex)
    {
      if pending.None? {
        return;
      }
      pending := None;
      if reply.Answer? && reply.success && reply.results.Some? {
        RenderResults(reply.results.value);
      } else {
        ShowState("no-results");
      }
    }

    /**
     * handleInputKeydown: ArrowDown and ArrowUp move the selection within
     * the shown items; Enter on a selected item navigates to it (returned)
     * and closes the modal, which clears and resets it.
     */
    method HandleInputKeydown(key: string) returns (navigate: Option<string>)
      requires Valid()
      modifies this
      ensures Valid()
      ensures key == "ArrowDown" ==>
        selectedIndex == SelectDown(old(selectedIndex), |rendered|) && selectedIndex <= |rendered| - 1
      ensures key == "ArrowUp" ==> selectedIndex == SelectUp(old(selectedIndex)) && 0 <= selectedIndex
      ensures navigate.Some? <==> key == "Enter" && 0 <= old(selectedIndex) < |old(rendered)|
      ensures navigate.Some? ==> navigate.value == old(rendered)[old(selectedIndex)].url && !IsOpen()
      ensures navigate.Some? ==>
        && !scrollLocked && inputValue == "" && pending == old(pending)
        && results == [] && selectedIndex == -1 && rendered == [] && panels == PanelsFor("empty")
      ensures navigate.None? && key != "ArrowDown" && key != "ArrowUp" ==> unchanged(this)
      ensures key == "ArrowDown" || key == "ArrowUp" ==>
        rendered == old(rendered) && results == old(results) && hidden == old(hidden) && panels == old(panels)
      ensures key == "ArrowDown" || key == "ArrowUp" ==>
        inputValue == old(inputValue) && scrollLocked == old(scrollLocked) && pending == old(pending)
    {
      navigate := None;
      if key == "ArrowDown" {
        selectedIndex := SelectDown(selectedIndex, |rendered|);
      } else if key == "ArrowUp" {
        selectedIndex := SelectUp(selectedIndex);
      } else if key == "Enter" && selectedIndex >= 0 {
        if selectedIndex < |rendered| {
          navigate := Some(rendered[selectedIndex].url);
          Close();
        }
      }
    }
  }
}
