/** The emergency-protocol content: the two three-page walkthroughs (tick removal and
    emergency calls) and the three-tab dispatcher that shows one of them or the tick chart.
    The identification page embeds the same walkthroughs and the same tabs, so both
    pages use this module. */
module Protocol {
  import opened Optional

  /** Which walkthrough a pager runs: the removal steps, or the emergency steps whose
      pages each carry a call button. */
  datatype Kind = Removal | EmergencySteps

  datatype Button = NextPage | Previous | Complete | Call

  /** What a button press does besides changing the page. */
  datatype Effect = Stay | Dial(uri: string)

  const FirstPage := 1
  const PageCount := 3

  /** The buttons a page renders, top to bottom. A page number outside 1..3 renders nothing. */
  function Buttons(kind: Kind, page: int): (r: seq<Button>)
    ensures r != [] <==> FirstPage <= page <= PageCount
    ensures Call in r <==> kind == EmergencySteps && FirstPage <= page <= PageCount
    ensures Previous in r <==> FirstPage < page <= PageCount
    ensures NextPage in r <==> FirstPage <= page < PageCount
    ensures Complete in r <==> page == PageCount
    ensures |r| <= 3
  {
    var calls := if kind == EmergencySteps then [Call] else [];
    if page == 1 then calls + [NextPage]
    else if page == 2 then calls + [Previous, NextPage]
    else if page == 3 then calls + [Previous, Complete]
    else []
  }

  /** The page a navigation button's `setCurrentPage` selects. */
  function Target(page: int, b: Button): (r: Option<int>)
    ensures r.Some? <==> b != Call && b in Buttons(Removal, page)
    ensures r.Some? ==> FirstPage <= r.value <= PageCount && r.value != page
  {
    match (page, b)
    case (1, NextPage) => Some(2)
    case (2, Previous) => Some(1)
    case (2, NextPage) => Some(3)
    case (3, Previous) => Some(2)
    case (3, Complete) => Some(1)
    case _ => None
  }

  /** The number each emergency page's call button dials. */
  function DialUri(page: int): (r: Option<string>)
    ensures r.Some? <==> FirstPage <= page <= PageCount
    ensures r.Some? ==> |r.value| > 4 && r.value[..4] == "tel:"
  {
    if page == 1 then Some("tel:000")
    else if page == 2 then Some("tel:1300606024")
    else if page == 3 then Some("tel:131126")
    else None
  }

  /** One press of a button: the new page and the effect. A button the page does not
      render cannot be pressed and changes nothing. */
  function Press(kind: Kind, page: int, b: Button): (r: (int, Effect))
    ensures b !in Buttons(kind, page) ==> r == (page, Stay)
    ensures b in Buttons(kind, page) ==> FirstPage <= page <= PageCount
  {
    if b !in Buttons(kind, page) then (page, Stay)
    else if b == Call then (page, Dial(DialUri(page).value))
    else (Target(page, b).value, Stay)
  }

  /** The removal walkthrough never dials. */
  lemma RemovalNeverDials(page: int, b: Button)
    ensures Press(Removal, page, b).1 == Stay
  {
  }

  /** The call buttons: `tel:000` on page 1, the nurse line on page 2, the poisons line on page 3,
      and no call leaves its page. */
  lemma CallTargets(page: int)
    ensures Press(EmergencySteps, 1, Call) == (1, Dial("tel:000"))
    ensures Press(EmergencySteps, 2, Call) == (2, Dial("tel:1300606024"))
    ensures Press(EmergencySteps, 3, Call) == (3, Dial("tel:131126"))
    ensures Press(EmergencySteps, page, Call).0 == page
  {
  }

  /** The forward button of each page (Next Page on pages 1 and 2, Complete on page 3)
      moves to the cyclic successor, and Previous, where rendered, to the predecessor;
      both walkthroughs behave alike. */
  lemma PagesFormACycle(kind: Kind, page: int)
    requires FirstPage <= page <= PageCount
    ensures var forward := if page == PageCount then Complete else NextPage;
            forward in Buttons(kind, page) && Press(kind, page, forward) == (page % PageCount + 1, Stay)
    ensures Previous in Buttons(kind, page) <==> page != FirstPage
    ensures page != FirstPage ==> Press(kind, page, Previous) == (page - 1, Stay)
    ensures Press(Removal, page, NextPage).0 == Press(EmergencySteps, page, NextPage).0
    ensures Press(Removal, page, Previous).0 == Press(EmergencySteps, page, Previous).0
    ensures Press(Removal, page, Complete).0 == Press(EmergencySteps, page, Complete).0
  {
    if page == 1 {
      assert Buttons(kind, 1) == (if kind == EmergencySteps then [Call] else []) + [NextPage];
    } else if page == 2 {
      assert Buttons(kind, 2) == (if kind == EmergencySteps then [Call] else []) + [Previous, NextPage];
    } else {
      assert Buttons(kind, 3) == (if kind == EmergencySteps then [Call] else []) + [Previous, Complete];
    }
  }

  /** The page after a sequence of presses. */
  function Run(kind: Kind, page: int, presses: seq<Button>): int
    decreases |presses|
  {
    if presses == [] then page else Run(kind, Press(kind, page, presses[0]).0, presses[1..])
  }

  /** Whatever is pressed, a pager that starts on one of its pages stays on one of its pages. */
  lemma {:induction false} RunStaysOnPages(kind: Kind, page: int, presses: seq<Button>)
    requires FirstPage <= page <= PageCount
    ensures FirstPage <= Run(kind, page, presses) <= PageCount
    decreases |presses|
  {
    if presses != [] {
      var b := presses[0];
      if b in Buttons(kind, page) && b != Call {
        assert Target(page, b).Some?;
      }
      RunStaysOnPages(kind, Press(kind, page, b).0, presses[1..]);
    }
  }

  /** The pages a pager renders: `currentPage === k && renderPageK()` for k = 1, 2, 3. */
  function RenderedPages(currentPage: int): (r: set<int>)
    ensures FirstPage <= currentPage <= PageCount ==> r == {currentPage}
    ensures !(FirstPage <= currentPage <= PageCount) ==> r == {}
  {
    (if currentPage == 1 then {1} else {}) + (if currentPage == 2 then {2} else {})
      + (if currentPage == 3 then {3} else {})
  }

  /** The local state of one walkthrough component (`RemovalFlowContent` or `EmergencyContent`). */
  class Pager {
    const kind: Kind
    var currentPage: int

    ghost predicate Valid()
      reads this
    {
      FirstPage <= currentPage <= PageCount
    }

    constructor (kind: Kind)
      ensures Valid() && this.kind == kind && currentPage == FirstPage
    {
      this.kind := kind;
      currentPage := FirstPage;
    }

    /** A click on one of the page's buttons; the dial is returned instead of performed. */
    method Click(b: Button) returns (effect: Effect)
      requires Valid()
      modifies this
      ensures Valid()
      ensures (currentPage, effect) == Press(kind, old(currentPage), b)
    {
      effect := Stay;
      if b in Buttons(kind, currentPage) {
        if b == Call {
          effect := Dial(DialUri(currentPage).value);
        } else {
          currentPage := Target(currentPage, b).value;
        }
      }
    }

    function Rendered(): (r: set<int>)
      reads this
      requires Valid()
      ensures r == {currentPage}
    {
      RenderedPages(currentPage)
    }
  }

  /** The tab ids, in the order the tab bar shows them. */
  const TabIds: seq<string> := ["removal", "emergency", "tickchart"]
  const DefaultTab := "removal"

  datatype TabContent = RemovalFlowContent | EmergencyContent | TickChartContent

  function TabId(c: TabContent): string
  {
    match c
    case RemovalFlowContent => "removal"
    case EmergencyContent => "emergency"
    case TickChartContent => "tickchart"
  }

  /** `renderTabContent`: the content for the active tab, nothing for any other value. */
  function RenderTabContent(activeTab: string): (r: Option<TabContent>)
    ensures r.Some? <==> activeTab in TabIds
    ensures r.Some? ==> TabId(r.value) == activeTab
  {
    match activeTab
    case "removal" => Some(RemovalFlowContent)
    case "emergency" => Some(EmergencyContent)
    case "tickchart" => Some(TickChartContent)
    case _ => None
  }

  /** Every content has its tab, and that tab shows it. */
  lemma RenderTabContentInverse(c: TabContent)
    ensures TabId(c) in TabIds
    ensures RenderTabContent(TabId(c)) == Some(c)
  {
  }

  /** A tab button is highlighted when its id is the active tab. */
  predicate TabHighlighted(activeTab: string, id: string)
    ensures TabHighlighted(activeTab, id) && id in TabIds ==>
              RenderTabContent(activeTab).Some? && TabId(RenderTabContent(activeTab).value) == id
  {
    activeTab == id
  }

  /** With a valid active tab, exactly one tab button is highlighted. */
  lemma ExactlyOneTabHighlighted(activeTab: string)
    requires activeTab in TabIds
    ensures exists i :: 0 <= i < |TabIds| && TabHighlighted(activeTab, TabIds[i])
    ensures forall i, j :: 0 <= i < j < |TabIds| ==> !(TabHighlighted(activeTab, TabIds[i]) && TabHighlighted(activeTab, TabIds[j]))
  {
    var i :| 0 <= i < |TabIds| && TabIds[i] == activeTab;
    assert TabHighlighted(activeTab, TabIds[i]);
  }

  /** The tab state of the emergency-protocol page. */
  class ProtocolTabs {
    var activeTab: string

    ghost predicate Valid()
      reads this
    {
      activeTab in TabIds
    }

    constructor ()
      ensures Valid() && activeTab == DefaultTab
    {
      activeTab := DefaultTab;
    }

    /** A click on the tab button with id `id`; only the three tab ids have buttons. */
    method ClickTab(id: string)
      requires id in TabIds
      modifies this
      ensures Valid() && activeTab == id
    {
      activeTab := id;
    }

    function Content(): (r: TabContent)
      reads this
      requires Valid()
      ensures RenderTabContent(activeTab) == Some(r)
    {
      RenderTabContent(activeTab).value
    }
  }
}
