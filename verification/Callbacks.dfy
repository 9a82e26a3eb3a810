/**
 Callback data: the printers of the dashboard's buttons and the handlers that take the data
 apart again.
 */
module Callbacks {
  import opened Wrappers
  import opened Decimal
  import Text

  // ---------- Printers ----------

  function NormalizeMode(mode: string): string {
    if Text.Trim(mode) == "soon" then "soon" else "list"
  }

  function MaxPage(page: int): int {
    if page < 0 then 0 else page
  }

  function DashboardPageCallback(mode: string, page: int): string {
    var list := "dashboard:" + NormalizeMode(mode);
    if page <= 0 then list else list + ":page:" + Print(page)
  }

  function ProductOpenCallback(productId: int, mode: string, page: int): string {
    "product:open:" + Print(productId) + ":" + NormalizeMode(mode) + ":" + Print(MaxPage(page))
  }

  function ProductSetCallback(productId: int, status: string, mode: string, page: int): string {
    "product:set:" + Print(productId) + ":" + status + ":" + NormalizeMode(mode) + ":" + Print(MaxPage(page))
  }

  // ---------- Parsers ----------

  datatype Origin = Origin(mode: string, page: int)

  function ParseDashboardPage(parts: seq<string>): int {
    if |parts| < 4 || parts[2] != "page" then 0
    else match ParseInt(parts[3])
      case Some(page) => MaxPage(page)
      case None => 0
  }

  function ParseProductOrigin(parts: seq<string>): Origin {
    if |parts| < 5 then Origin("list", 0)
    else match ParseInt(parts[4])
      case Some(page) => Origin(NormalizeMode(parts[3]), MaxPage(page))
      case None => Origin(NormalizeMode(parts[3]), 0)
  }

  // ---------- Dashboard states ----------

  datatype View = Home | List | Soon | Stats | Settings | Product

  datatype DashboardState = DashboardState(view: View, page: int, productId: Option<int>, origin: Origin)

  function NormalizeState(state: DashboardState): DashboardState {
    var s := state.(page := MaxPage(state.page),
                    origin := Origin(NormalizeMode(state.origin.mode), MaxPage(state.origin.page)));
    if s.view.Product? then s else s.(productId := None, origin := Origin("list", 0))
  }

  function PlainState(view: View, page: int): DashboardState {
    NormalizeState(DashboardState(view, page, None, Origin("list", 0)))
  }

  function ProductState(productId: int, origin: Origin): DashboardState {
    NormalizeState(DashboardState(Product, 0, Some(productId), Origin(NormalizeMode(origin.mode), origin.page)))
  }

  function StateForMode(mode: string, page: int): DashboardState {
    if NormalizeMode(mode) == "soon" then PlainState(Soon, page) else PlainState(List, page)
  }

  // ---------- Handlers ----------

  /** What a callback asks for: a dashboard state to show, after setting a product's status if there is one to set. */
  datatype Request = Ignored | Show(state: DashboardState) | SetStatus(productId: int, status: string, state: DashboardState)

  function HandleDashboard(parts: seq<string>): Request {
    if |parts| < 2 then Ignored
    else if parts[1] == "home" then Show(PlainState(Home, 0))
    else if parts[1] == "list" then Show(PlainState(List, ParseDashboardPage(parts)))
    else if parts[1] == "soon" then Show(PlainState(Soon, ParseDashboardPage(parts)))
    else if parts[1] == "stats" then Show(PlainState(Stats, 0))
    else if parts[1] == "settings" then Show(PlainState(Settings, 0))
    else Ignored
  }

  function HandleProduct(parts: seq<string>): Request {
    if |parts| < 3 || ParseInt(parts[2]).None? then Ignored
    else
      var productId := ParseInt(parts[2]).value;
      if parts[1] == "open" then Show(ProductState(productId, ParseProductOrigin(parts)))
      else if parts[1] == "set" && |parts| >= 4 then
        var origin := ParseProductOrigin(parts[1..]);
        SetStatus(productId, parts[3], StateForMode(origin.mode, origin.page))
      else Ignored
  }

  /** The routing of callback data to the two handlers modelled here. */
  function Handle(data: string): Request {
    var parts := Split(data);
    if parts[0] == "dashboard" then HandleDashboard(parts)
    else if parts[0] == "product" then HandleProduct(parts)
    else Ignored
  }

  /** The layout of the callback data, and the views of the dashboard's own buttons. */
  lemma CallbackLayouts()
    ensures ProductOpenCallback(105, "soon", 2) == "product:open:105:soon:2"
    ensures ProductSetCallback(7, "consumed", "list", -1) == "product:set:7:consumed:list:0"
    ensures DashboardPageCallback("list", 0) == "dashboard:list" && DashboardPageCallback("soon", 42) == "dashboard:soon:page:42"
  {
    PrintedInLayouts();
    hide Print;
  }

  lemma PrintedInLayouts()
    ensures Print(0) == "0" && Print(2) == "2" && Print(7) == "7" && Print(42) == "42" && Print(105) == "105"
    ensures NormalizeMode("soon") == "soon" && NormalizeMode("list") == "list"
  {
    PaddedAsPrinted();
  }

  lemma DashboardViews(view: string)
    requires ColonFree(view)
    ensures var state := DashboardState(Home, 0, None, Origin("list", 0));
            Handle("dashboard:" + view) ==
            if view == "home" then Show(state)
            else if view == "list" then Show(state.(view := List))
            else if view == "soon" then Show(state.(view := Soon))
            else if view == "stats" then Show(state.(view := Stats))
            else if view == "settings" then Show(state.(view := Settings))
            else Ignored
  {
    SplitWithoutColon(view);
    SplitAtColon("dashboard", view);
    assert "dashboard:" + view == "dashboard" + ":" + view;
  }

  /** Data that stops before the list it came from leads back to the first page of the list. */
  lemma OpenWithoutOrigin(productId: int)
    requires IsInt64(productId)
    ensures Handle("product:open:" + Print(productId)) ==
            Show(DashboardState(Product, 0, Some(productId), Origin("list", 0)))
  {
    hide Print, ParseInt;
    PartsAreFree(productId, "list");
    PrintParses(productId);
    TrimmedModes();
    SplitWithoutColon(Print(productId));
    SplitAtColon("open", Print(productId));
    SplitAtColon("product", "open" + ":" + Print(productId));
    OpenPrefix(Print(productId));
  }

  lemma SetWithoutOrigin(productId: int, status: string)
    requires IsInt64(productId) && ColonFree(status)
    ensures Handle("product:set:" + (Print(productId) + ":" + status)) ==
            SetStatus(productId, status, DashboardState(List, 0, None, Origin("list", 0)))
  {
    hide Print, ParseInt;
    PartsAreFree(productId, "list");
    PrintParses(productId);
    TrimmedModes();
    SplitWithoutColon(status);
    SplitAtColon(Print(productId), status);
    SplitAtColon("set", Print(productId) + ":" + status);
    SplitAtColon("product", "set" + ":" + (Print(productId) + ":" + status));
    SetPrefix(Print(productId) + ":" + status);
  }

  /** A page that is no number stands for the first one. */
  lemma PageDefaults(mode: string, page: string)
    requires ColonFree(page) && ParseInt(page).None?
    ensures Handle("dashboard" + ":" + (NormalizeMode(mode) + ":" + ("page" + ":" + page))) == Show(StateForMode(mode, 0))
  {
    hide ParseInt, Text.Trim;
    TrimmedModes();
    PartsAreFree(0, mode);
    SplitWithoutColon(page);
    SplitAtColon("page", page);
    SplitAtColon(NormalizeMode(mode), "page" + ":" + page);
    SplitAtColon("dashboard", NormalizeMode(mode) + ":" + ("page" + ":" + page));
  }

  // ---------- Round trips ----------

  lemma PartsAreFree(n: int, mode: string)
    ensures ColonFree(Print(n)) && ColonFree(NormalizeMode(mode))
  {
    PaddedIsColonFree(n, 0);
  }

  /**
   Text in front of three parts with a separator between each two, as the printers put it together
   and as it is taken apart.
   */
  lemma ThreeParts<T>(front: seq<T>, a: seq<T>, b: seq<T>, c: seq<T>, mark: seq<T>)
    ensures front + a + mark + b + mark + c == front + (a + mark + (b + mark + c))
  {
    Text.Assoc(front + a + mark + b, mark, c);
    Text.Assoc(front + a + mark, b, mark + c);
    Text.Assoc(b, mark, c);
    Text.Assoc(front + a, mark, b + mark + c);
    Text.Assoc(front, a, mark + (b + mark + c));
    Text.Assoc(a, mark, b + mark + c);
  }

  lemma OpenPrefix(rest: string)
    ensures "product:open:" + rest == "product" + ":" + ("open" + ":" + rest)
  {
    Text.Assoc("product" + ":", "open" + ":", rest);
    assert "product" + ":" + ("open" + ":") == "product:open:";
  }

  lemma SetPrefix(rest: string)
    ensures "product:set:" + rest == "product" + ":" + ("set" + ":" + rest)
  {
    Text.Assoc("product" + ":", "set" + ":", rest);
    assert "product" + ":" + ("set" + ":") == "product:set:";
  }

  lemma OpenDataSplits(productId: int, mode: string, page: int)
    ensures Split(ProductOpenCallback(productId, mode, page)) ==
            ["product", "open", Print(productId), NormalizeMode(mode), Print(MaxPage(page))]
  {
    hide Print, NormalizeMode, MaxPage;
    PartsAreFree(productId, mode);
    PartsAreFree(MaxPage(page), mode);
    var last := Print(MaxPage(page));
    SplitWithoutColon(last);
    TailSplits(mode, last);
    var origin := NormalizeMode(mode) + ":" + last;
    SplitAtColon(Print(productId), origin);
    SplitAtColon("open", Print(productId) + ":" + origin);
    SplitAtColon("product", "open" + ":" + (Print(productId) + ":" + origin));
    OpenPrefix(Print(productId) + ":" + origin);
    ThreeParts("product:open:", Print(productId), NormalizeMode(mode), last, ":");
  }

  lemma TailSplits(mode: string, last: string)
    requires ColonFree(last)
    ensures Split(NormalizeMode(mode) + ":" + last) == [NormalizeMode(mode), last]
  {
    PartsAreFree(0, mode);
    SplitAtColon(NormalizeMode(mode), last);
    SplitWithoutColon(last);
  }

  /** Opening a product from a list recovers its id and the list it was opened from. */
  lemma OpenRoundTrip(productId: int, mode: string, page: int)
    requires IsInt64(productId) && IsInt64(page)
    ensures Handle(ProductOpenCallback(productId, mode, page)) ==
            Show(DashboardState(Product, 0, Some(productId), Origin(NormalizeMode(mode), MaxPage(page))))
  {
    OpenDataSplits(productId, mode, page);
    PrintParses(productId);
    PrintParses(MaxPage(page));
    TrimmedModes();
  }

  lemma TrimmedModes()
    ensures NormalizeMode("soon") == "soon" && NormalizeMode("list") == "list"
  {
  }

  lemma SetIsNested(productId: int, status: string, mode: string, page: int)
    ensures ProductSetCallback(productId, status, mode, page) ==
            "product:set:" + (Print(productId) + ":" + (status + ":" + (NormalizeMode(mode) + ":" + Print(MaxPage(page)))))
  {
    hide Print, NormalizeMode, MaxPage;
    var id, last := Print(productId), Print(MaxPage(page));
    ThreeParts("product:set:" + id + ":", status, NormalizeMode(mode), last, ":");
    Text.Assoc("product:set:" + id, ":", status + ":" + (NormalizeMode(mode) + ":" + last));
    Text.Assoc("product:set:", id, ":" + (status + ":" + (NormalizeMode(mode) + ":" + last)));
    Text.Assoc(id, ":", status + ":" + (NormalizeMode(mode) + ":" + last));
  }

  lemma SetDataSplits(productId: int, status: string, mode: string, page: int)
    requires ColonFree(status)
    ensures Split(ProductSetCallback(productId, status, mode, page)) ==
            ["product", "set", Print(productId), status, NormalizeMode(mode), Print(MaxPage(page))]
  {
    hide Print, NormalizeMode, MaxPage;
    PartsAreFree(productId, mode);
    PartsAreFree(MaxPage(page), mode);
    TailSplits(mode, Print(MaxPage(page)));
    var origin := NormalizeMode(mode) + ":" + Print(MaxPage(page));
    SplitAtColon(status, origin);
    SplitAtColon(Print(productId), status + ":" + origin);
    SplitAtColon("set", Print(productId) + ":" + (status + ":" + origin));
    SplitAtColon("product", "set" + ":" + (Print(productId) + ":" + (status + ":" + origin)));
    SetPrefix(Print(productId) + ":" + (status + ":" + origin));
    SetIsNested(productId, status, mode, page);
  }

  /**
   Setting a status recovers the id, the status and the list to return to, exactly for the statuses
   without a colon.
   */
  lemma SetRoundTrip(productId: int, status: string, mode: string, page: int)
    requires IsInt64(productId) && IsInt64(page)
    ensures Handle(ProductSetCallback(productId, status, mode, page)) ==
            SetStatus(productId, status, StateForMode(mode, page))
            <==> ColonFree(status)
  {
    if ColonFree(status) {
      SetDataSplits(productId, status, mode, page);
      SplitSetIsHandled(productId, status, mode, page);
    } else {
      hide HandleDashboard, Print, NormalizeMode, MaxPage, StateForMode;
      PartsAreColonFree(ProductSetCallback(productId, status, mode, page));
    }
  }

  lemma SplitSetIsHandled(productId: int, status: string, mode: string, page: int)
    requires IsInt64(productId) && IsInt64(page)
    ensures HandleProduct(["product", "set", Print(productId), status, NormalizeMode(mode), Print(MaxPage(page))]) ==
            SetStatus(productId, status, StateForMode(mode, page))
  {
    hide Print, ParseInt, Text.Trim;
    PrintParses(productId);
    PrintParses(MaxPage(page));
    TrimmedModes();
    var parts := ["product", "set", Print(productId), status, NormalizeMode(mode), Print(MaxPage(page))];
    assert parts[1..][3] == parts[4] && parts[1..][4] == parts[5];
  }

  /** A page button requests the list and page it was printed for. */
  lemma PageRoundTrip(mode: string, page: int)
    requires IsInt64(page)
    ensures Handle(DashboardPageCallback(mode, page)) == Show(StateForMode(mode, page))
  {
    hide Print, ParseInt, Text.Trim;
    TrimmedModes();
    PartsAreFree(page, mode);
    if page <= 0 {
      SplitWithoutColon(NormalizeMode(mode));
      SplitAtColon("dashboard", NormalizeMode(mode));
      assert DashboardPageCallback(mode, page) == "dashboard" + ":" + NormalizeMode(mode);
    } else {
      PrintParses(page);
      PageDataSplits(mode, page);
    }
  }

  lemma PageIsNested(mode: string, page: string)
    ensures "dashboard:" + mode + ":page:" + page == "dashboard" + ":" + (mode + ":" + ("page" + ":" + page))
  {
    Text.Assoc("dashboard:" + mode, ":page:", page);
    Text.Assoc("dashboard:", mode, ":page:" + page);
    assert ":page:" == ":" + ("page" + ":");
    Text.Assoc(":", "page" + ":", page);
    Text.Assoc(mode, ":", "page" + ":" + page);
    assert "dashboard:" == "dashboard" + ":";
  }

  lemma PageDataSplits(mode: string, page: int)
    requires page > 0
    ensures Split(DashboardPageCallback(mode, page)) == ["dashboard", NormalizeMode(mode), "page", Print(page)]
  {
    hide Print, NormalizeMode;
    PartsAreFree(page, mode);
    SplitWithoutColon(Print(page));
    SplitAtColon("page", Print(page));
    SplitAtColon(NormalizeMode(mode), "page" + ":" + Print(page));
    SplitAtColon("dashboard", NormalizeMode(mode) + ":" + ("page" + ":" + Print(page)));
    PageIsNested(NormalizeMode(mode), Print(page));
  }

  /** The states a product can be opened from: a list or the soon list, at some page. */
  predicate IsListState(state: DashboardState) {
    (state.view.List? || state.view.Soon?) && state == PlainState(state.view, state.page)
  }

  function ModeOf(view: View): string {
    if view.Soon? then "soon" else "list"
  }

  /**
   From any list page, open a product, and press Back on its card or set its status there: the
   dashboard returns to that same list page.
   */
  lemma BackReturnsToTheList(state: DashboardState, productId: int, status: string)
    requires IsListState(state) && IsInt64(state.page) && IsInt64(productId) && ColonFree(status)
    ensures var card := Handle(ProductOpenCallback(productId, ModeOf(state.view), state.page));
            && card.Show? && card.state.productId == Some(productId)
            && var origin := card.state.origin;
               && Handle(DashboardPageCallback(origin.mode, origin.page)) == Show(state)
               && Handle(ProductSetCallback(productId, status, origin.mode, origin.page)) ==
                  SetStatus(productId, status, state)
  {
    OpenRoundTrip(productId, ModeOf(state.view), state.page);
    var origin := Handle(ProductOpenCallback(productId, ModeOf(state.view), state.page)).state.origin;
    TrimmedModes();
    PageRoundTrip(origin.mode, origin.page);
    SetRoundTrip(productId, status, origin.mode, origin.page);
  }
}
