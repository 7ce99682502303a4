/**
 The portal shell (src/UdmePortal/StudentPortal.jsx): the collapsible
 sidebar, the selected menu entry and chat, and the "coming soon" notice
 for menu entries that have no screen.
 */
module Portal {

  datatype Shell = Shell(sidebarOpen: bool, menu: string, chat: string, noticeOpen: bool)

  const Initial: Shell := Shell(true, "Home", "global", false)

  /** The keys of the menu-to-screen map. */
  predicate HasScreen(menu: string) {
    menu == "Home" || menu == "Messages" || menu == "Modules"
  }

  /** The entries the sidebar offers (src/Sidebar/SideBar.jsx). */
  const SidebarItems: seq<string> := ["Home", "Messages", "Modules", "Grades"]

  /** `toggleSidebar`: flips the sidebar; nothing else changes. */
  function ToggleSidebar(s: Shell): (r: Shell)
    ensures r.sidebarOpen == !s.sidebarOpen
    ensures r == s.(sidebarOpen := r.sidebarOpen)
  {
    s.(sidebarOpen := !s.sidebarOpen)
  }

  /** Toggling twice is the identity. */
  lemma ToggleTwice(s: Shell)
    ensures ToggleSidebar(ToggleSidebar(s)) == s
  {
  }

  /** `handleSelectChat`: shows the Messages screen on the given conversation. */
  function SelectChat(s: Shell, chat: string): (r: Shell)
    ensures r.menu == "Messages" && r.chat == chat
    ensures r.sidebarOpen == s.sidebarOpen && r.noticeOpen == s.noticeOpen
  {
    s.(menu := "Messages", chat := chat)
  }

  /**
   `handleMenuSelect`: an entry with a screen becomes the selected menu,
   resets the chat to "global" and closes the notice; any other entry only
   opens the notice.
   */
  function SelectMenu(s: Shell, menu: string): (r: Shell)
    ensures HasScreen(menu) ==> r == s.(menu := menu, chat := "global", noticeOpen := false)
    ensures !HasScreen(menu) ==> r == s.(noticeOpen := true)
  {
    if HasScreen(menu) then s.(menu := menu, chat := "global", noticeOpen := false)
    else s.(noticeOpen := true)
  }

  /** "Grades" is offered by the sidebar but has no screen: it only opens the notice. */
  lemma GradesOpensNotice(s: Shell)
    ensures SidebarItems[3] == "Grades"
    ensures SelectMenu(s, SidebarItems[3]) == s.(noticeOpen := true)
  {
  }

  /** The notice's overlay and Close button. Closing the "coming soon" notice: only the notice closes, and the screen behind it stays. */
  function CloseNotice(s: Shell): (r: Shell)
    ensures !r.noticeOpen
    ensures r.menu == s.menu && r.chat == s.chat && r.sidebarOpen == s.sidebarOpen
    ensures ContentToRender(r) == ContentToRender(s)
  {
    s.(noticeOpen := false)
  }

  datatype Screen = HomeScreen | MessagesScreen(chat: string) | ModulesScreen

  /** `contentToRender`: the screen of the selected menu, falling back to Home. */
  function ContentToRender(s: Shell): (r: Screen)
    ensures s.menu == "Messages" ==> r == MessagesScreen(s.chat)
    ensures s.menu == "Modules" ==> r == ModulesScreen
    ensures s.menu != "Messages" && s.menu != "Modules" ==> r == HomeScreen
  {
    if s.menu == "Messages" then MessagesScreen(s.chat)
    else if s.menu == "Modules" then ModulesScreen
    else HomeScreen
  }

  datatype Event = Toggle | ChooseChat(chat: string) | ChooseMenu(menu: string) | DismissNotice

  function Step(s: Shell, e: Event): Shell {
    match e
    case Toggle => ToggleSidebar(s)
    case ChooseChat(c) => SelectChat(s, c)
    case ChooseMenu(m) => SelectMenu(s, m)
    case DismissNotice => CloseNotice(s)
  }

  function Run(s: Shell, es: seq<Event>): Shell
    decreases |es|
  {
    if es == [] then s else Run(Step(s, es[0]), es[1..])
  }

  /**
   The selected menu is always a key of the screen map, whatever the user
   selects, so the Home fallback is reached only by the Home entry itself.
   */
  lemma {:induction false} MenuAlwaysHasScreen(s: Shell, es: seq<Event>)
    requires HasScreen(s.menu)
    ensures HasScreen(Run(s, es).menu)
    ensures var r := Run(s, es); ContentToRender(r) == HomeScreen ==> r.menu == "Home"
    decreases |es|
  {
    if es != [] {
      MenuAlwaysHasScreen(Step(s, es[0]), es[1..]);
    }
  }

  /** From the start in particular. */
  lemma ReachableMenusHaveScreens(es: seq<Event>)
    ensures HasScreen(Run(Initial, es).menu)
  {
    MenuAlwaysHasScreen(Initial, es);
  }
}
