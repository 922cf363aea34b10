/** The application shell: the current page id and the modal flag, the page router, and
    the rule that the top bar and the bottom navigation appear on every page but Welcome. */
module AppShell {
  import opened Optional
  import Identification
  import Navigation
  import TopBar

  const WelcomeId := "welcome"

  /** The page components the router can render. */
  datatype Page =
    | WelcomePage
    | TickIdentificationPage
    | RiskMapsPage
    | SeasonalTickRiskMapPage
    | AnimalPresencePage
    | VegetationDensityPage
    | EmergencyProtocolPage

  /** The id that selects each page. */
  function PageId(p: Page): (r: string)
    ensures r in KnownPageIds
    ensures r == WelcomeId <==> p == WelcomePage
  {
    match p
    case WelcomePage => WelcomeId
    case TickIdentificationPage => "identification"
    case RiskMapsPage => "riskmaps"
    case SeasonalTickRiskMapPage => "seasonal-risk-map"
    case AnimalPresencePage => "animal-presence"
    case VegetationDensityPage => "vegetation-density"
    case EmergencyProtocolPage => "emergency"
  }

  const KnownPageIds: set<string> :=
    {WelcomeId, "identification", "riskmaps", "seasonal-risk-map", "animal-presence", "vegetation-density", "emergency"}

  /** `renderCurrentPage`: the page a known id names; Welcome for any other string. */
  function RenderCurrentPage(currentPage: string): (r: Page)
    ensures currentPage in KnownPageIds ==> PageId(r) == currentPage
    ensures currentPage !in KnownPageIds ==> r == WelcomePage
  {
    match currentPage
    case "welcome" => WelcomePage
    case "identification" => TickIdentificationPage
    case "riskmaps" => RiskMapsPage
    case "seasonal-risk-map" => SeasonalTickRiskMapPage
    case "animal-presence" => AnimalPresencePage
    case "vegetation-density" => VegetationDensityPage
    case "emergency" => EmergencyProtocolPage
    case _ => WelcomePage
  }

  /** The router and the page ids are inverse: each page's id renders that page. */
  lemma RouterInverse(p: Page)
    ensures PageId(p) in KnownPageIds
    ensures RenderCurrentPage(PageId(p)) == p
  {
  }

  /** Only the identification page is given the modal-state callback. */
  predicate ReceivesModalCallback(p: Page)
    ensures ReceivesModalCallback(p) <==> PageId(p) == "identification"
  {
    p == TickIdentificationPage
  }

  /** The top bar and the bottom navigation are rendered on every page but Welcome. */
  predicate ChromeVisible(currentPage: string)
    ensures !ChromeVisible(currentPage) ==> RenderCurrentPage(currentPage) == WelcomePage
    ensures currentPage in KnownPageIds ==> (ChromeVisible(currentPage) <==> RenderCurrentPage(currentPage) != WelcomePage)
  {
    currentPage != WelcomeId
  }

  /** Everything the shell renders for its state. */
  datatype Screen = Screen(
    topBar: Option<TopBar.Bar>,
    content: Page,
    modalCallback: bool,
    navigation: Option<seq<Navigation.ItemView>>)

  function Layout(currentPage: string, isModalOpen: bool): (r: Screen)
    ensures r.topBar.Some? <==> ChromeVisible(currentPage)
    ensures r.navigation.Some? <==> ChromeVisible(currentPage)
    ensures r.content == RenderCurrentPage(currentPage)
    ensures r.modalCallback <==> currentPage == "identification"
    ensures r.topBar.Some? ==> r.topBar.value == TopBar.Render(currentPage, true)
    ensures r.navigation.Some? ==> r.navigation.value == Navigation.Render(currentPage, isModalOpen)
  {
    var page := RenderCurrentPage(currentPage);
    Screen(
      if ChromeVisible(currentPage) then Some(TopBar.Render(currentPage, true)) else None,
      page,
      ReceivesModalCallback(page),
      if ChromeVisible(currentPage) then Some(Navigation.Render(currentPage, isModalOpen)) else None)
  }

  /** An unknown page id renders the Welcome content, but with the top bar and the
      navigation, since only the id "welcome" hides them. */
  lemma UnknownPageShowsWelcomeWithChrome(currentPage: string, isModalOpen: bool)
    requires currentPage !in KnownPageIds
    ensures Layout(currentPage, isModalOpen).content == WelcomePage
    ensures Layout(currentPage, isModalOpen).topBar.Some?
    ensures Layout(currentPage, isModalOpen).navigation.Some?
  {
  }

  /** The navigation's buttons are disabled exactly while the modal flag is set. */
  lemma DimmedIsModalOpen(currentPage: string, isModalOpen: bool, i: int)
    requires ChromeVisible(currentPage) && 0 <= i < |Navigation.NavItems|
    ensures Layout(currentPage, isModalOpen).navigation.value[i].disabled <==> isModalOpen
    ensures Navigation.ClickTarget(isModalOpen, Navigation.NavItems[i].id).Some? <==> !isModalOpen
  {
  }

  /** The targets of the shell's own chrome are pages the router knows: every navigation
      item, and the top bar's back button. */
  lemma InAppTargetsAreKnown()
    ensures forall i :: 0 <= i < |Navigation.NavItems| ==> Navigation.NavItems[i].id in KnownPageIds
    ensures TopBar.BackTarget in KnownPageIds
  {
  }

  /** The start button of the Welcome page leads to the identification page. */
  const WelcomeStartTarget := "identification"

  /** The three cards of the risk-maps page lead to the three risk-map pages. */
  const RiskMapCardTargets: seq<string> := ["seasonal-risk-map", "animal-presence", "vegetation-density"]

  /** The Welcome page's start button leads to a page the router knows, and not back to Welcome. */
  lemma WelcomeTargetIsKnown()
    ensures WelcomeStartTarget in KnownPageIds
    ensures RenderCurrentPage(WelcomeStartTarget) == TickIdentificationPage
  {
  }

  /** Each risk-map card leads to a page the router knows, which is a sub-page with a back button. */
  lemma RiskMapTargetsAreKnown()
    ensures forall i :: 0 <= i < |RiskMapCardTargets| ==> RiskMapCardTargets[i] in KnownPageIds
    ensures forall i :: 0 <= i < |RiskMapCardTargets| ==> TopBar.IsSubPage(RiskMapCardTargets[i])
  {
  }

  /** The modal flag after a series of `handleModalStateChange` calls: the last report
      wins, and with no report the flag is unchanged. */
  function ModalAfter(isOpen: bool, signals: seq<bool>): (r: bool)
    ensures signals == [] ==> r == isOpen
    ensures signals != [] ==> r == signals[|signals| - 1]
    decreases |signals|
  {
    if signals == [] then isOpen else ModalAfter(signals[0], signals[1..])
  }

  lemma {:induction false} ModalAfterAllFalse(isOpen: bool, signals: seq<bool>)
    requires !isOpen && forall k :: 0 <= k < |signals| ==> !signals[k]
    ensures !ModalAfter(isOpen, signals)
    decreases |signals|
  {
    if signals != [] {
      ModalAfterAllFalse(signals[0], signals[1..]);
    }
  }

  /** The identification page only ever reports the modal as closed, so whatever happens
      on it, the modal flag stays false and the navigation is never dimmed. */
  lemma ModalNeverOpens(es: seq<Identification.Event>, currentPage: string)
    ensures !ModalAfter(false, Identification.ModalSignals(es))
    ensures ChromeVisible(currentPage) ==>
              forall i :: 0 <= i < |Navigation.NavItems| ==>
                !Layout(currentPage, ModalAfter(false, Identification.ModalSignals(es))).navigation.value[i].disabled
  {
    ModalAfterAllFalse(false, Identification.ModalSignals(es));
  }

  /** The shell's React state. */
  class App {
    var currentPage: string
    var isModalOpen: bool

    constructor ()
      ensures currentPage == WelcomeId && !isModalOpen
    {
      currentPage := WelcomeId;
      isModalOpen := false;
    }

    method HandleNavigate(page: string)
      modifies this
      ensures currentPage == page && isModalOpen == old(isModalOpen)
    {
      currentPage := page;
    }

    method HandleModalStateChange(isOpen: bool)
      modifies this
      ensures isModalOpen == isOpen && currentPage == old(currentPage)
    {
      isModalOpen := isOpen;
    }

    function Render(): Screen
      reads this
    {
      Layout(currentPage, isModalOpen)
    }
  }
}
