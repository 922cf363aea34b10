/** The top bar: the page title, and a back button on the three risk-map sub-pages. */
module TopBar {
  import opened Optional

  const DefaultTitle := "Tick Identification"
  const BackTarget := "riskmaps"

  /** The page ids that have a title of their own. */
  const TitledPages: set<string> :=
    {"identification", "riskmaps", "seasonal-risk-map", "animal-presence", "vegetation-density", "emergency"}

  const SubPages: seq<string> := ["seasonal-risk-map", "animal-presence", "vegetation-density"]

  /** `getPageTitle`. */
  function PageTitle(page: string): (r: string)
    ensures page !in TitledPages ==> r == DefaultTitle
  {
    match page
    case "identification" => "Tick Identification"
    case "riskmaps" => "Trail Risk Assessment"
    case "seasonal-risk-map" => "Seasonal Tick Risk Map"
    case "animal-presence" => "Animal Presence"
    case "vegetation-density" => "Vegetation Density Risk Levels"
    case "emergency" => "Emergency Protocols"
    case _ => DefaultTitle
  }

  /** The fixed titles of the six titled pages. */
  lemma TitlesOfTitledPages()
    ensures PageTitle("identification") == "Tick Identification"
    ensures PageTitle("riskmaps") == "Trail Risk Assessment"
    ensures PageTitle("seasonal-risk-map") == "Seasonal Tick Risk Map"
    ensures PageTitle("animal-presence") == "Animal Presence"
    ensures PageTitle("vegetation-density") == "Vegetation Density Risk Levels"
    ensures PageTitle("emergency") == "Emergency Protocols"
  {
  }

  /** The three risk-map sub-pages, which get a back button. */
  predicate IsSubPage(page: string)
    ensures IsSubPage(page) ==> page in TitledPages && page != BackTarget
  {
    page in SubPages
  }

  /** The back button: shown only on a sub-page when a navigation callback is present, and
      it always goes to the risk-maps page. */
  function BackButton(page: string, hasNavigate: bool): (r: Option<string>)
    ensures r.Some? <==> IsSubPage(page) && hasNavigate
    ensures r.Some? ==> r.value == BackTarget
  {
    if IsSubPage(page) && hasNavigate then Some(BackTarget) else None
  }

  /** The rendered bar. */
  datatype Bar = Bar(title: string, back: Option<string>, centered: bool)

  function Render(page: string, hasNavigate: bool): (r: Bar)
    ensures r.title == PageTitle(page)
    ensures r.back == BackButton(page, hasNavigate)
    ensures r.centered <==> !IsSubPage(page)
  {
    Bar(PageTitle(page), BackButton(page, hasNavigate), !IsSubPage(page))
  }

  /** Going back always lands on a titled page that is not itself a sub-page. */
  lemma BackLeadsToMainPage(page: string, hasNavigate: bool)
    requires BackButton(page, hasNavigate).Some?
    ensures var t := BackButton(page, hasNavigate).value;
            !IsSubPage(t) && t in TitledPages && PageTitle(t) == "Trail Risk Assessment"
  {
  }

  /** Every sub-page has a title of its own. */
  lemma SubPagesAreTitled(page: string)
    requires IsSubPage(page)
    ensures page in TitledPages && PageTitle(page) != DefaultTitle
  {
  }

  /** With a navigation callback, the title is centred exactly when there is no back button. */
  lemma CenteredIffNoBack(page: string)
    ensures Render(page, true).centered <==> Render(page, true).back.None?
  {
  }
}
