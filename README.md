# TickSafe Victoria: the tick-detection front end, in Dafny

This project models the React front end of the TickSafe Victoria tick-detection app:

- **The identification session.** The user picks a photo. It is sent to the detection service. The service's answer is classified as tick or no tick, and the page shows one of five screens:
  - the save flow,
  - the analysis screen,
  - the tabbed result,
  - the "No ticks detected" result,
  - the upload screen.
- **The protocol walkthroughs.** The removal and emergency walkthroughs each have three pages. The emergency pages carry call buttons. A three-tab switch chooses between removal, emergency and the tick chart. Both the emergency protocol page and the identification page embed these walkthroughs.
- **The save-and-share flow.** It has two steps and a simulated save delay. Sharing uses the Web Share API when the browser has it, and the clipboard otherwise.
- **The application shell.** It holds the current page id and a modal flag, routes ids to pages, and shows the top bar and bottom navigation except when the current page id is `welcome`.
- **The bottom navigation and the top bar.** This covers highlight rules, the dimmed state, titles and the back button.
- **The API configuration.** The base URL depends on the host name.

Modules, one per source file:

| module | file | models |
|---|---|---|
| `Text` | `text.dfy` | JavaScript's `includes`, and `${n}` for a non-negative integer below 10^21 |
| `ApiConfig` | `api.dfy` | `config/api.ts` |
| `Protocol` | `protocol.dfy` | the walkthroughs and tabs of `EmergencyProtocolPage.tsx`, also embedded in `TickIdentificationPage.tsx` |
| `SaveShare` | `saveshare.dfy` | `SaveShareFlow.tsx` |
| `Identification` | `identification.dfy` | `TickIdentificationPage.tsx` |
| `Navigation` | `navigation.dfy` | `Navigation.tsx` |
| `TopBar` | `topbar.dfy` | `TopBar.tsx` |
| `AppShell` | `app.dfy` | `App.tsx` |

`Optional` (`option.dfy`) holds the Option type.

How the components are modelled:

- **Stateful components are classes.** Each has the component's `useState` fields. The handlers of the identification page, the save flow and the pager are methods whose `ensures` give the new state as a pure transition function of the old one (`Identification.AfterReset` and the other `After…` functions, `SaveShare.Saving` and `SaveShare.TimerDone`, `Protocol.Press`). The handlers of `AppShell.App` and `Protocol.ProtocolTabs` set a field directly, with no transition function: their `ensures` give the new value of every field.
- **User behaviour is a trace of events.** An event can only happen while the control for it is on screen (`Offered`).
- **Properties are proved once.** They are proved about the transition functions, over every valid trace.

Behaviour of the code worth knowing, each proved in the model:

- **A failed request shows "No ticks detected".** It is not masked as a positive result. The `catch` branch only sets `showDetectionResult` (`TickIdentificationPage.tsx:94-98`), and without a result the count is always 0, so the "No ticks detected" screen appears. The session keeps confidence 82, which that screen does not display. See `Identification.FailureShowsNoTicks`.
- **The navigation is never dimmed, even while Save & Share is open.** The identification page only ever calls `onModalStateChange(false)`, and no other page receives the callback. See `AppShell.ModalNeverOpens`.
- **Reset keeps the selected result tab.** `resetSelection` sets every field back except `activeTab`. See `Identification.AfterReset`.
- **An empty string counts as no image.** `if (!selectedImage)` treats `""` as absent, and so does the view selection, `if (selectedImage)` at line 644 (`Identification.HasImage`, `Identification.ViewOf`).

## Model

| member | source | states |
|---|---|---|
| `ApiConfig.BaseUrl` | tick_detection_app/src/config/api.ts:2-6 | the base is `/api` exactly when the host is `localhost` or `127.0.0.1`, and `http://localhost:8000` exactly otherwise |
| `ApiConfig.IsLocalhost` | tick_detection_app/src/config/api.ts:2 | a host is local exactly when it is `localhost` or `127.0.0.1` |
| `ApiConfig.GetApiUrl` | tick_detection_app/src/config/api.ts:13-15 | the URL is the base followed by the endpoint: base as prefix, endpoint as suffix, lengths adding up |
| `ApiConfig.GetApiUrlInjective` | tick_detection_app/src/config/api.ts:13-15 | on one host, different endpoints give different URLs |
| `ApiConfig.LocalAndRemoteUrlsDiffer` | tick_detection_app/src/config/api.ts:6 | the two bases already differ in their first character (`/` and `h`), so every URL shows which base it was built on |
| `ApiConfig.DetectTickUrl` | tick_detection_app/src/config/api.ts:2-15 | the detection URL is `/api/detect-tick` on a local host and `http://localhost:8000/detect-tick` elsewhere |
| `Text.IncludesIff` | tick_detection_app/src/components/TickIdentificationPage.tsx:79 | the `includes` scan succeeds exactly when the substring occurs at some index |
| `Text.Includes` | tick_detection_app/src/components/TickIdentificationPage.tsx:79 | the scan finds `sub` only when it fits in `s`, always finds it as a prefix, and always finds the empty string; the same `includes` serves `Navigation.tsx:49` |
| `Text.ParseNatToString` | tick_detection_app/src/components/SaveShareFlow.tsx:47-52 | the decimal text of a non-negative integer reads back as that integer |
| `Text.NatToString` | tick_detection_app/src/components/SaveShareFlow.tsx:47-52 | the text `${n}` shows for a non-negative integer below 10^21 is non-empty and all decimal digits |
| `Text.NatToStringInjective` | tick_detection_app/src/components/SaveShareFlow.tsx:204 | distinct numbers render distinct decimal texts |
| `Protocol.Press` | tick_detection_app/src/components/EmergencyProtocolPage.tsx:18-397 | a button the current page does not render changes nothing; a pressed button implies a page in 1..3 |
| `Protocol.Buttons` | tick_detection_app/src/components/EmergencyProtocolPage.tsx:47-169 | a page renders buttons exactly when it is 1..3. A call button appears exactly on emergency pages. Previous appears exactly on pages 2 and 3, Next Page on pages 1 and 2, and Complete on page 3 |
| `Protocol.Target` | tick_detection_app/src/components/EmergencyProtocolPage.tsx:47-169 | a navigation button has a target exactly when the page renders it, and the target is another page in 1..3 |
| `Protocol.DialUri` | tick_detection_app/src/components/EmergencyProtocolPage.tsx:191-201 | a number is dialled exactly from pages 1..3, always as a `tel:` URI |
| `Protocol.RemovalNeverDials` | tick_detection_app/src/components/EmergencyProtocolPage.tsx:18-183 | no button of the removal walkthrough dials a number |
| `Protocol.CallTargets` | tick_detection_app/src/components/EmergencyProtocolPage.tsx:191-201 | the call button dials `tel:000` on page 1, `tel:1300606024` on page 2 and `tel:131126` on page 3, and stays on the page |
| `Protocol.PagesFormACycle` | tick_detection_app/src/components/EmergencyProtocolPage.tsx:47-383 | on both walkthroughs (removal at 47-169, emergency at 242-383), Next Page and Complete go to `page % 3 + 1`; Previous appears exactly off page 1 and goes to `page - 1` |
| `Protocol.RunStaysOnPages` | tick_detection_app/src/components/EmergencyProtocolPage.tsx:47-169 | from a valid page, any sequence of presses leaves the pager on one of the pages 1..3 |
| `Protocol.RenderedPages` | tick_detection_app/src/components/EmergencyProtocolPage.tsx:178-183 | exactly the current page is rendered when it is in 1..3, and nothing otherwise |
| `Protocol.Pager.constructor` | tick_detection_app/src/components/EmergencyProtocolPage.tsx:189 | a pager starts on page 1 |
| `Protocol.Pager.Click` | tick_detection_app/src/components/EmergencyProtocolPage.tsx:188-397 | the new page and the dial effect are those of `Press`, and the page stays in 1..3 |
| `Protocol.Pager.Rendered` | tick_detection_app/src/components/EmergencyProtocolPage.tsx:392-397 | a valid pager renders exactly its current page |
| `Protocol.RenderTabContent` | tick_detection_app/src/components/EmergencyProtocolPage.tsx:537-548 | content is rendered exactly for the three tab ids, and it is the content of that tab; any other id renders nothing |
| `Protocol.RenderTabContentInverse` | tick_detection_app/src/components/EmergencyProtocolPage.tsx:531-548 | every tab's id is in the tab list and renders that tab's content |
| `Protocol.ExactlyOneTabHighlighted` | tick_detection_app/src/components/EmergencyProtocolPage.tsx:563-571 | for an active id in the tab list, exactly one tab button is highlighted |
| `Protocol.TabHighlighted` | tick_detection_app/src/components/EmergencyProtocolPage.tsx:568 | a highlighted tab id in the tab list is exactly the tab whose content is rendered; the same rule is at `TickIdentificationPage.tsx:807` |
| `Protocol.ProtocolTabs.constructor` | tick_detection_app/src/components/EmergencyProtocolPage.tsx:529 | the removal tab is active first |
| `Protocol.ProtocolTabs.ClickTab` | tick_detection_app/src/components/EmergencyProtocolPage.tsx:566 | clicking a tab makes it the active tab |
| `Protocol.ProtocolTabs.Content` | tick_detection_app/src/components/EmergencyProtocolPage.tsx:537-548 | the active tab always renders its own content |
| `SaveShare.Step` | tick_detection_app/src/components/SaveShareFlow.tsx:28-36 | only the save click and the timer change the flow; back, continue, share and export leave it unchanged |
| `SaveShare.Initial` | tick_detection_app/src/components/SaveShareFlow.tsx:15-17 | the flow starts within its invariant, with the save button enabled and the progress bar at 50 |
| `SaveShare.SaveButtonOf` | tick_detection_app/src/components/SaveShareFlow.tsx:113-118 | the save button is shown exactly on step 1 before the detection is saved, and disabled exactly while saving |
| `SaveShare.Offered` | tick_detection_app/src/components/SaveShareFlow.tsx:113-209 | an enabled save click leaves the save button disabled; Continue, Share and Export are only offered once the save button is gone |
| `SaveShare.Saving` | tick_detection_app/src/components/SaveShareFlow.tsx:28-30 | `handleSave` keeps the step and the saved flag, sets saving and schedules one more timer |
| `SaveShare.TimerDone` | tick_detection_app/src/components/SaveShareFlow.tsx:31-35 | the timer leads to step 2, saved and not saving, with the save button gone and one timer fewer pending |
| `SaveShare.ExitOf` | tick_detection_app/src/components/SaveShareFlow.tsx:189-209 | the flow is left exactly by Back (to the results) and by Continue to Aftercare (complete) |
| `SaveShare.ExitsOffered` | tick_detection_app/src/components/SaveShareFlow.tsx:189-209 | Back is always on screen, Continue exactly once the detection is saved, and neither changes the flow's own state |
| `SaveShare.RunKeepsInv` | tick_detection_app/src/components/SaveShareFlow.tsx:28-36 | over any valid trace the flow stays on step 1 unsaved or step 2 saved, with at most one save timer pending, pending exactly while saving |
| `SaveShare.ReachableFlows` | tick_detection_app/src/components/SaveShareFlow.tsx:113-118 | from the start, at most one save timer is ever pending (the disabled button stops a second), and Continue is offered only once the detection is saved |
| `SaveShare.SaveThenTimer` | tick_detection_app/src/components/SaveShareFlow.tsx:28-36 | saving and then the timer firing brings the flow to step 2, saved, not saving, with no timer pending |
| `SaveShare.ProgressValue` | tick_detection_app/src/components/SaveShareFlow.tsx:212 | the progress bar shows 50 on step 1 and 100 on step 2 |
| `SaveShare.ProgressMonotone` | tick_detection_app/src/components/SaveShareFlow.tsx:212 | a later step never shows less progress |
| `SaveShare.RenderedSteps` | tick_detection_app/src/components/SaveShareFlow.tsx:215-216 | exactly the current step's card is rendered when the step is 1 or 2 |
| `SaveShare.StepLabelInjective` | tick_detection_app/src/components/SaveShareFlow.tsx:204 | different steps show different "Step n of 2" labels |
| `SaveShare.StepLabel` | tick_detection_app/src/components/SaveShareFlow.tsx:204 | the label reads "Step ", then decimal digits, then " of 2", and those digits read back as the current step |
| `SaveShare.FallbackExtendsNative` | tick_detection_app/src/components/SaveShareFlow.tsx:47-52 | the clipboard text is the Web Share text followed by the app signature |
| `SaveShare.NativeShareText` | tick_detection_app/src/components/SaveShareFlow.tsx:47 | the Web Share text is "Tick detected with ", then decimal digits that read back as the confidence, then exactly "% confidence on " and the date |
| `SaveShare.FallbackShareText` | tick_detection_app/src/components/SaveShareFlow.tsx:52 | the clipboard text is "Tick detected with ", then decimal digits that read back as the confidence, then exactly "% confidence on ", the date and the app signature |
| `SaveShare.FallbackShareTextInjective` | tick_detection_app/src/components/SaveShareFlow.tsx:52 | on one date, different confidences give different clipboard texts |
| `SaveShare.ShareAction` | tick_detection_app/src/components/SaveShareFlow.tsx:43-56 | with Web Share it shares the fixed title, the confidence-and-date text and the page URL; without it, it copies that text followed by the app signature and shows the clipboard notice |
| `SaveShare.SaveShareFlow.constructor` | tick_detection_app/src/components/SaveShareFlow.tsx:15-17 | the flow starts on step 1, not saving, not saved |
| `SaveShare.SaveShareFlow.HandleSave` | tick_detection_app/src/components/SaveShareFlow.tsx:28-30 | a save click sets saving and schedules one timer |
| `SaveShare.SaveShareFlow.SaveTimerFired` | tick_detection_app/src/components/SaveShareFlow.tsx:31-35 | the timer clears saving, marks the detection saved and moves to step 2 |
| `SaveShare.SaveShareFlow.HandleShare` | tick_detection_app/src/components/SaveShareFlow.tsx:43-56 | returns the share action for the flow's confidence and changes no state |
| `SaveShare.SaveShareFlow.HandleExportPdf` | tick_detection_app/src/components/SaveShareFlow.tsx:38-41 | returns the export notice and changes no state |
| `SaveShare.SaveShareFlow.Progress` | tick_detection_app/src/components/SaveShareFlow.tsx:212 | the progress bar value for the current step |
| `Identification.AfterFileSelect` | tick_detection_app/src/components/TickIdentificationPage.tsx:31-41 | a chosen file replaces the image; no file changes nothing; nothing else changes |
| `Identification.Initial` | tick_detection_app/src/components/TickIdentificationPage.tsx:22-28 | the session starts on the upload screen, where choosing a file is the only possible event, with confidence 82, no detections and the removal tab |
| `Identification.IsTickDetected` | tick_detection_app/src/components/TickIdentificationPage.tsx:79 | a text is a tick exactly when `不是` occurs in it at no index, through `Text.IncludesIff` |
| `Identification.HasImage` | tick_detection_app/src/components/TickIdentificationPage.tsx:44 | an image is present only when `selectedImage` is set, and the empty string counts as absent, as at line 644 too |
| `Identification.AfterStart` | tick_detection_app/src/components/TickIdentificationPage.tsx:43-46 | without an image nothing changes; with one, only `isProcessing` becomes true |
| `Identification.AfterResponse` | tick_detection_app/src/components/TickIdentificationPage.tsx:64-101 | on every path the result is shown and processing ends. A negative answer sets count and confidence to 0. A positive answer sets count 1 and confidence 85. A failure leaves both unchanged. Image, flow and tab are kept |
| `Identification.AfterReset` | tick_detection_app/src/components/TickIdentificationPage.tsx:104-116 | every field returns to its initial value except the active tab, which is kept |
| `Identification.AfterActionSelect` | tick_detection_app/src/components/TickIdentificationPage.tsx:118-120 | only the current flow changes, to the chosen action |
| `Identification.AfterFlowComplete` | tick_detection_app/src/components/TickIdentificationPage.tsx:122-125 | only the current flow changes, to none |
| `Identification.AfterTabClick` | tick_detection_app/src/components/TickIdentificationPage.tsx:802-806 | only the active tab changes |
| `Identification.ViewOf` | tick_detection_app/src/components/TickIdentificationPage.tsx:639-865 | each of the five screens is shown exactly under its condition, in the source's order, and a negative count falls through to the upload screen. The save flow gets the session's confidence, the analysis screen its processing flag, and the tabbed result its confidence badge (line 768) and the active tab's content |
| `Identification.Offered` | tick_detection_app/src/components/TickIdentificationPage.tsx:695-856 | Analyse is offered only for an image with no result and no request in flight. Save & Share and the tabs only over a positive result, with tab ids from the tab list. The flow's Back and Continue only inside the save flow. Continue is offered on either step of the flow, a superset of the source, which renders it only on step 2 (`SaveShareFlow.tsx:140-150`); it leads to the same session as Back |
| `Identification.Step` | tick_detection_app/src/components/TickIdentificationPage.tsx:31-125 | each field changes only through its own handlers: the image by a file choice or a reset; count, confidence and result flag by a response or a reset; processing starts only on Analyse; the flow only through the flow buttons or a reset; the tab only by a tab click |
| `Identification.ModalSignal` | tick_detection_app/src/components/TickIdentificationPage.tsx:86-111 | only responses and resets report the modal state, and they never report it as open |
| `Identification.ModalSignals` | tick_detection_app/src/components/TickIdentificationPage.tsx:86-111 | every modal report in a trace is "closed" |
| `Identification.InitialInv` | tick_detection_app/src/components/TickIdentificationPage.tsx:22-28 | the initial session satisfies the session invariant |
| `Identification.RunKeepsInv` | tick_detection_app/src/components/TickIdentificationPage.tsx:31-125 | along any valid trace the session invariant holds. Counts are 0 or 1, and 1 means confidence 85. Without a result, count is 0 and confidence 82. A result or a request implies an image. A request means no result and no flow. A flow means the save flow over a positive result. The tab is always a real tab |
| `Identification.ReachableInv` | tick_detection_app/src/components/TickIdentificationPage.tsx:22-125 | every session reachable from the initial one satisfies the invariant |
| `Identification.NoSecondRequestInFlight` | tick_detection_app/src/components/TickIdentificationPage.tsx:681-720 | while a request is in flight the spinner is shown and only its response can happen |
| `Identification.FailureShowsNoTicks` | tick_detection_app/src/components/TickIdentificationPage.tsx:94-101 | a failed request leads to the "No ticks detected" screen; the session keeps confidence 82, which that screen does not display |
| `Identification.NegativeResponseShowsNoTicks` | tick_detection_app/src/components/TickIdentificationPage.tsx:79-93 | an answer containing the negative marker leads to the "No ticks detected" screen; the session's confidence becomes 0, which that screen does not display |
| `Identification.PositiveResponseShowsTabs` | tick_detection_app/src/components/TickIdentificationPage.tsx:79-86 | an answer without the marker shows the tabbed result at confidence 85 with a tab that renders content |
| `Identification.SaveFlowRoundTrip` | tick_detection_app/src/components/TickIdentificationPage.tsx:118-125 | opening Save & Share from the result shows the save flow at 85%, and closing it restores the session exactly |
| `Identification.ResetShowsUpload` | tick_detection_app/src/components/TickIdentificationPage.tsx:104-116 | after a reset the upload screen is shown, whatever the state was |
| `Identification.SaveFlowNeedsTick` | tick_detection_app/src/components/TickIdentificationPage.tsx:786-789 | in a reachable session, the save flow is only shown over a positive result |
| `Identification.NegativeScenario` | tick_detection_app/src/components/TickIdentificationPage.tsx:43-101 | choose, analyse, answer "不是,这是叶子": the screen is "No ticks detected", with only the reset offered |
| `Identification.PositiveScenario` | tick_detection_app/src/components/TickIdentificationPage.tsx:43-101 | choose, analyse, answer "这是麻痹蜱": the tabbed result at 85% on the removal tab |
| `Identification.IdentificationPage.constructor` | tick_detection_app/src/components/TickIdentificationPage.tsx:22-28 | the page starts in the initial session |
| `Identification.IdentificationPage.HandleFileSelect` | tick_detection_app/src/components/TickIdentificationPage.tsx:31-41 | the new session is `AfterFileSelect` of the old one |
| `Identification.IdentificationPage.ProcessImage` | tick_detection_app/src/components/TickIdentificationPage.tsx:43-62 | without an image it returns no request and changes nothing. With one it starts processing and returns a POST of `image.jpeg` (`image/jpeg`) in the field `file` to the host's detection URL |
| `Identification.IdentificationPage.FinishProcessing` | tick_detection_app/src/components/TickIdentificationPage.tsx:64-101 | the new session is `AfterResponse` of the old one, and the modal is reported closed |
| `Identification.IdentificationPage.ResetSelection` | tick_detection_app/src/components/TickIdentificationPage.tsx:104-116 | the new session is `AfterReset` of the old one, and the modal is reported closed |
| `Identification.IdentificationPage.HandleActionSelect` | tick_detection_app/src/components/TickIdentificationPage.tsx:118-120 | the new session is `AfterActionSelect` of the old one |
| `Identification.IdentificationPage.HandleFlowComplete` | tick_detection_app/src/components/TickIdentificationPage.tsx:122-125 | the new session is `AfterFlowComplete` of the old one; the save flow's back button does the same (line 640) |
| `Identification.IdentificationPage.SetActiveTab` | tick_detection_app/src/components/TickIdentificationPage.tsx:802-806 | the new session is `AfterTabClick` of the old one |
| `Navigation.ClickTarget` | tick_detection_app/src/components/Navigation.tsx:46-47 | a click navigates to the item's id exactly when the bar is not dimmed |
| `Navigation.NavItemsDistinct` | tick_detection_app/src/components/Navigation.tsx:8-36 | there are three items with distinct ids, captioned Trail, Detect and Emergency in that order |
| `Navigation.Highlighted` | tick_detection_app/src/components/Navigation.tsx:49 | an item is highlighted on its own page, and otherwise only the Detect item can be |
| `Navigation.Render` | tick_detection_app/src/components/Navigation.tsx:43-61 | one button per item, in order, with its id and caption; highlighted exactly under the highlight rule; disabled exactly when dimmed |
| `Navigation.DimmedClasses` | tick_detection_app/src/components/Navigation.tsx:39-52 | a dimmed bar is at 50% opacity with the not-allowed cursor; an active one at 100% with the pointer |
| `Navigation.BarOpacityClass` | tick_detection_app/src/components/Navigation.tsx:39-41 | the bar is at `opacity-50` exactly when dimmed, and at `opacity-100` exactly when not |
| `Navigation.CursorClass` | tick_detection_app/src/components/Navigation.tsx:52 | the buttons show `cursor-not-allowed` exactly when dimmed, and `cursor-pointer` exactly when not |
| `Navigation.HighlightPerItem` | tick_detection_app/src/components/Navigation.tsx:49 | Trail and Emergency are highlighted only on their own page, and Detect on every page whose id contains "identification" |
| `Navigation.AtMostOneHighlighted` | tick_detection_app/src/components/Navigation.tsx:49 | no two items are highlighted at once |
| `TopBar.PageTitle` | tick_detection_app/src/components/TopBar.tsx:9-26 | a page without a title of its own gets "Tick Identification" |
| `TopBar.TitlesOfTitledPages` | tick_detection_app/src/components/TopBar.tsx:9-26 | the six titled pages have their fixed titles |
| `TopBar.BackButton` | tick_detection_app/src/components/TopBar.tsx:43-46 | the back button is shown exactly on a sub-page with a navigation callback, and it goes to `riskmaps` |
| `TopBar.IsSubPage` | tick_detection_app/src/components/TopBar.tsx:28 | every sub-page has a title of its own and is not the back target |
| `TopBar.Render` | tick_detection_app/src/components/TopBar.tsx:43-55 | the bar shows the page title and the back button, and the title is centred exactly off the sub-pages |
| `TopBar.BackLeadsToMainPage` | tick_detection_app/src/components/TopBar.tsx:45 | going back lands on a titled page that is not a sub-page, titled "Trail Risk Assessment" |
| `TopBar.SubPagesAreTitled` | tick_detection_app/src/components/TopBar.tsx:28 | every sub-page has a title of its own |
| `TopBar.CenteredIffNoBack` | tick_detection_app/src/components/TopBar.tsx:43-53 | with a callback, the title is centred exactly when there is no back button |
| `AppShell.RenderCurrentPage` | tick_detection_app/src/App.tsx:25-44 | a known id renders the page with that id, and any other string renders Welcome |
| `AppShell.RouterInverse` | tick_detection_app/src/App.tsx:25-44 | every page's id is known and routes back to that page |
| `AppShell.PageId` | tick_detection_app/src/App.tsx:26-40 | every page's id is one of the router's case labels, and only the Welcome page has the id `welcome` |
| `AppShell.Layout` | tick_detection_app/src/App.tsx:76-99 | top bar and navigation are shown exactly off Welcome; the content is the routed page; only the identification page gets the modal callback; navigation is dimmed by the modal flag |
| `AppShell.ChromeVisible` | tick_detection_app/src/App.tsx:76-92 | bars are hidden only where Welcome is rendered; for a known id they are shown exactly when the page is not Welcome |
| `AppShell.ReceivesModalCallback` | tick_detection_app/src/App.tsx:30 | the modal callback goes exactly to the page whose id is `identification` |
| `AppShell.UnknownPageShowsWelcomeWithChrome` | tick_detection_app/src/App.tsx:41-42 | an unknown id shows Welcome's content together with the top bar and the navigation |
| `AppShell.DimmedIsModalOpen` | tick_detection_app/src/App.tsx:94-98 | the navigation buttons are disabled, and clicks ignored, exactly while the modal flag is set |
| `AppShell.InAppTargetsAreKnown` | tick_detection_app/src/components/Navigation.tsx:8-36 | every navigation item's id, and the top bar's back target (`TopBar.tsx:45`), is a page id the router knows |
| `AppShell.WelcomeTargetIsKnown` | tick_detection_app/src/components/WelcomePage.tsx:42 | the Welcome page's start button leads to a known id, which routes to the identification page |
| `AppShell.RiskMapTargetsAreKnown` | tick_detection_app/src/components/RiskMapsPage.tsx:50-96 | each of the three risk-map cards leads to a known id that is a sub-page with a back button |
| `AppShell.ModalAfterAllFalse` | tick_detection_app/src/App.tsx:21-23 | a closed modal that only receives "closed" reports stays closed |
| `AppShell.ModalAfter` | tick_detection_app/src/App.tsx:21-23 | after a series of reports the flag holds the last one; with none it is unchanged |
| `AppShell.ModalNeverOpens` | tick_detection_app/src/App.tsx:21-23 | whatever happens on the identification page, the modal flag stays false and no navigation button is disabled |
| `AppShell.App.constructor` | tick_detection_app/src/App.tsx:14-15 | the app starts on Welcome with the modal closed |
| `AppShell.App.HandleNavigate` | tick_detection_app/src/App.tsx:17-19 | only the current page changes, to the requested id |
| `AppShell.App.HandleModalStateChange` | tick_detection_app/src/App.tsx:21-23 | only the modal flag changes, to the reported value |

## Left out

- **Browser I/O is returned as values.** `FileReader` decoding, `fetch` of the data URL, the `FormData` upload and JSON parsing are not modelled. `ProcessImage` returns the request it would send, and `FinishProcessing` takes the service's outcome: either the `result` text or a failure. A non-OK status, a network error and malformed JSON all become that failure.
- **Dialling and sharing are returned as values.** `window.location.href` dialling, `navigator.share`, `navigator.clipboard.writeText` and `alert` are returned as `Dial` effects and `Action` values. Whether the browser supports Web Share is a parameter.
- **The 2-second `setTimeout` in the save flow is an explicit `TimerFired` event.** Time itself is not modelled.
- **The date is a parameter.** `toLocaleDateString('en-AU')` and `toLocaleTimeString` depend on the clock and the locale, so the share functions take the date string as given. The detection record's time and location are only displayed; its species and notes are never used.
- **React remounting is not modelled.** Each `Pager` is modelled as an independent object that starts on page 1. When a new one replaces an old one, its page is not tied to what the old one showed.
  - `EmergencyProtocolPage.tsx` declares its walkthroughs at module level (lines 18 and 188). They are remounted, and so reset to page 1, only when the user switches tab.
  - `TickIdentificationPage.tsx` declares its copies inside the page component (lines 128 and 298). They are remounted on a tab switch and also on every re-render of the page.
- **Leaving a page discards its state, and this is not modelled.** When `App` routes to another page (`App.tsx:26-42`), React unmounts the old page and its state is lost:
  - the whole identification session, even mid-request, since the navigation is never dimmed;
  - the emergency page's `activeTab`.

  Coming back starts from the initial session or the removal tab. `AppShell.App.HandleNavigate` changes only the page id: it is not connected to `Identification.IdentificationPage` or `Protocol.ProtocolTabs`, so the model does not show this reset.
- **The identification page's own copies of the walkthroughs are not modelled separately.** They are at `TickIdentificationPage.tsx:128-509`. They have the same buttons, targets and numbers as those in `EmergencyProtocolPage.tsx`, and are modelled by the same `Protocol` module.
- **A timer still pending after the save flow is closed is not modelled.** Its React state updates would go to an unmounted component.
- **`SaveShare.Step`: the save-timer count is ghost bookkeeping.** The source has no such counter. It exists so that the "at most one pending save" invariant can be stated.
- **Presentational content is not modelled:**
  - styling;
  - the image-source label ("Proxy Image", "S3 Image", "Local Image");
  - the bounding-box overlay;
  - the tick-chart text;
  - the camera button, which only shows an `alert`;
  - the Welcome, risk-maps and sub-map pages, beyond their ids as navigation targets.
- **The `health` endpoint is a constant only.** It is declared in `config/api.ts:10`, but no core file calls it.
- **`main.py` is not part of this model.** It is the detection service behind `/detect-tick`. Its answer is the `Outcome` parameter.
- **`Text.NatToString` covers only integers below 10^21.** From 10^21 up, JavaScript's `${n}` switches to exponent notation ("1e+21"), and it prints fractions with a decimal point. `Text.NatToString` prints every non-negative integer in full decimal. The app renders only the steps 1 and 2 and the confidence 85 this way.
- `Identification.Offered` offers `FlowCompleted` on both steps of the save flow. The session does not see the flow's own step, and the source renders Continue only on step 2 (`SaveShareFlow.tsx:140-150`). Both `FlowCompleted` and `FlowBackClicked` lead to `AfterFlowComplete`, so the set of reachable sessions is the same.
- **`console.log` and `console.error` are not modelled.** They are logging without effect on the state.
