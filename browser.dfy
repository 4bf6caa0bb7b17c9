/** The browser-action script of `playWithBrowser` (src/playwithbrowser.ts):
    a list of actions, each tagged by its `Action` and carrying the fields of
    its parameter type.  The three scroll actions share one parameter type,
    as in the source. */
module Browser {
  import opened Wrappers

  datatype WaitSelectorParams = WaitSelectorParams(waitSelector: string, timeout: Option<int>)
  datatype WaitParams = WaitParams(timeout: int)
  datatype ClickParams = ClickParams(selector: string)
  datatype ScrollParams = ScrollParams(selector: Option<string>, value: int)
  datatype FillParams = FillParams(selector: string, value: string)
  datatype ExecuteParams = ExecuteParams(execute: string)
  datatype ScreenShotParams = ScreenShotParams(fullScreenShot: Option<string>, particularScreenShot: Option<string>)

  /** One action; the constructor is the `Action` tag. */
  datatype BrowserAction =
    | WaitSelector(waitSelectorParams: WaitSelectorParams)
    | Wait(waitParams: WaitParams)
    | Click(clickParams: ClickParams)
    | ScrollX(scrollXParams: ScrollParams)
    | ScrollY(scrollYParams: ScrollParams)
    | ScrollTo(scrollToParams: ScrollParams)
    | Fill(fillParams: FillParams)
    | Execute(executeParams: ExecuteParams)
    | ScreenShot(screenShotParams: ScreenShotParams)

  /** `PlayWithBrowser`: the actions in the order they run. */
  type Script = seq<BrowserAction>
}
