/** The UI store (src/features/main/mainSlice.ts): theme, sidebar and loading flag. */
module MainSlice {

  datatype Theme = Light | Dark

  datatype MainState = MainState(theme: Theme, sidebarOpen: bool, loading: bool)

  const Initial := MainState(Light, false, false)

  function SetTheme(s: MainState, t: Theme): (r: MainState)
    ensures r.theme == t && r.sidebarOpen == s.sidebarOpen && r.loading == s.loading
  {
    s.(theme := t)
  }

  function ToggleSidebar(s: MainState): (r: MainState)
    ensures r.sidebarOpen != s.sidebarOpen && r.theme == s.theme && r.loading == s.loading
  {
    s.(sidebarOpen := !s.sidebarOpen)
  }

  function SetLoading(s: MainState, b: bool): (r: MainState)
    ensures r.loading == b && r.theme == s.theme && r.sidebarOpen == s.sidebarOpen
  {
    s.(loading := b)
  }

  /** Toggling the sidebar twice is no change. */
  lemma ToggleTwiceIsIdentity(s: MainState)
    ensures ToggleSidebar(ToggleSidebar(s)) == s
  {
  }

  /** The three reducers touch different fields, so each pair commutes. */
  lemma ReducersCommute(s: MainState, t: Theme, b: bool)
    ensures SetTheme(ToggleSidebar(s), t) == ToggleSidebar(SetTheme(s, t))
    ensures SetLoading(ToggleSidebar(s), b) == ToggleSidebar(SetLoading(s, b))
    ensures SetLoading(SetTheme(s, t), b) == SetTheme(SetLoading(s, b), t)
  {
  }

  /** The store; each reducer assigns or negates one field in place. */
  class MainStore {
    var theme: Theme
    var sidebarOpen: bool
    var loading: bool

    function State(): MainState
      reads this
    {
      MainState(theme, sidebarOpen, loading)
    }

    constructor ()
      ensures State() == Initial
    {
      theme, sidebarOpen, loading := Light, false, false;
    }

    method OnSetTheme(t: Theme)
      modifies this
      ensures State() == SetTheme(old(State()), t)
    {
      theme := t;
    }

    method OnToggleSidebar()
      modifies this
      ensures State() == ToggleSidebar(old(State()))
    {
      sidebarOpen := !sidebarOpen;
    }

    method OnSetLoading(b: bool)
      modifies this
      ensures State() == SetLoading(old(State()), b)
    {
      loading := b;
    }
  }
}
