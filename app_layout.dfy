/**
 * The sidebar of the application shell: which sections the signed-in
 * operator sees, and which entry and section are highlighted for a path.
 */
module AppLayout {
  import opened JsStrings
  import opened AuthStore

  datatype MenuEntry = MenuEntry(key: string, title: string)
  datatype MenuSection = MenuSection(key: string, title: string, children: seq<MenuEntry>)

  const Home := MenuSection("home", "Home",
    [MenuEntry("/", "Dashboard"), MenuEntry("/home/app-properties", "Apps Properties")])
  const ProjectX := MenuSection("projectx", "ProjectX",
    [MenuEntry("/projectx/inquiry-purchase", "Inquiry Purchase"),
     MenuEntry("/projectx/psp-metrics", "PSP Metrics")])
  const Agents := MenuSection("agents", "Agents",
    [MenuEntry("/agents/inquiry-purchase", "Inquiry Purchase")])
  const Ledger := MenuSection("ledger", "Ledger",
    [MenuEntry("/ledger/transactions", "Transactions"), MenuEntry("/ledger/accounts", "Accounts")])

  /** Any one of these permission prefixes unlocks the Agents section. */
  const AgentPrefixes := ["saman", "sepehr", "behpardakht", "ap"]

  /** Position of a section in the fixed sidebar order. */
  function Rank(s: MenuSection): nat
  {
    if s.key == "home" then 0
    else if s.key == "projectx" then 1
    else if s.key == "agents" then 2
    else 3
  }

  lemma SectionsDistinct()
    ensures Rank(Home) == 0 && Rank(ProjectX) == 1 && Rank(Agents) == 2 && Rank(Ledger) == 3
    ensures Home != ProjectX && Home != Agents && Home != Ledger
    ensures ProjectX != Agents && ProjectX != Ledger && Agents != Ledger
  {
    assert Home.key != ProjectX.key && Home.key != Agents.key && Home.key != Ledger.key;
    assert ProjectX.key != Agents.key && ProjectX.key != Ledger.key && Agents.key != Ledger.key;
  }

  /** The sections shown for the three permission answers, in sidebar order. */
  function Menu(projectx: bool, agents: bool, ledger: bool): seq<MenuSection>
  {
    var withProjectX := if projectx then [Home, ProjectX] else [Home];
    var withAgents := if agents then withProjectX + [Agents] else withProjectX;
    if ledger then withAgents + [Ledger] else withAgents
  }

  /** Each gated section is shown exactly when its permission answer is yes. */
  lemma MenuMembership(projectx: bool, agents: bool, ledger: bool)
    ensures Home in Menu(projectx, agents, ledger)
    ensures ProjectX in Menu(projectx, agents, ledger) <==> projectx
    ensures Agents in Menu(projectx, agents, ledger) <==> agents
    ensures Ledger in Menu(projectx, agents, ledger) <==> ledger
  {
    SectionsDistinct();
  }

  /** Home comes first, only the four sections appear, and they keep the sidebar order. */
  lemma MenuOrder(projectx: bool, agents: bool, ledger: bool)
    ensures 1 <= |Menu(projectx, agents, ledger)| <= 4 && Menu(projectx, agents, ledger)[0] == Home
    ensures forall i :: 0 <= i < |Menu(projectx, agents, ledger)| ==>
      Menu(projectx, agents, ledger)[i] in [Home, ProjectX, Agents, Ledger]
    ensures forall i, j :: 0 <= i < j < |Menu(projectx, agents, ledger)| ==>
      Rank(Menu(projectx, agents, ledger)[i]) < Rank(Menu(projectx, agents, ledger)[j])
  {
    SectionsDistinct();
  }

  /** Builds the sidebar by successive, permission-gated appends. */
  method MenuItems(store: Store) returns (items: seq<MenuSection>)
    ensures |items| >= 1 && items[0] == Home
    ensures ProjectX in items <==> store.HasPermission("projectx")
    ensures Agents in items <==> store.HasAnyPermission(AgentPrefixes)
    ensures Ledger in items <==> store.HasPermission("yal")
    ensures forall i :: 0 <= i < |items| ==> items[i] in [Home, ProjectX, Agents, Ledger]
    ensures forall i, j :: 0 <= i < j < |items| ==> Rank(items[i]) < Rank(items[j])
    ensures |items| <= 4
  {
    var projectx := store.HasPermission("projectx");
    var agents := store.HasAnyPermission(AgentPrefixes);
    var ledger := store.HasPermission("yal");
    items := [Home];
    if projectx {
      items := items + [ProjectX];
      assert items == [Home, ProjectX];
    }
    if agents {
      items := items + [Agents];
    }
    if ledger {
      items := items + [Ledger];
    }
    assert items == Menu(projectx, agents, ledger);
    MenuMembership(projectx, agents, ledger);
    MenuOrder(projectx, agents, ledger);
  }

  /** The highlighted menu entry: the current path itself. */
  function SelectedKeys(pathname: string): (r: seq<string>)
    ensures r == [pathname]
  {
    if pathname == "/" then ["/"] else [pathname]
  }

  /** Path prefix and the section it opens, in the order they are tried. */
  const OpenRules: seq<(string, string)> :=
    [("/home", "home"), ("/projectx", "projectx"), ("/agents", "agents"), ("/ledger", "ledger")]

  /** A path starts with at most one of the rule prefixes, so their order does not matter. */
  lemma OpenRulesExclusive(pathname: string)
    ensures forall i, j :: 0 <= i < j < |OpenRules| ==>
      !(StartsWith(pathname, OpenRules[i].0) && StartsWith(pathname, OpenRules[j].0))
  {
  }

  /** The expanded sidebar section for the current path. */
  function OpenKeys(pathname: string): (r: seq<string>)
    ensures forall i :: 0 <= i < |OpenRules| && StartsWith(pathname, OpenRules[i].0) ==>
      r == [OpenRules[i].1]
    ensures (forall i :: 0 <= i < |OpenRules| ==> !StartsWith(pathname, OpenRules[i].0)) ==>
      r == ["home"]
  {
    OpenRulesExclusive(pathname);
    assert OpenRules[0].0 == "/home" && OpenRules[1].0 == "/projectx";
    assert OpenRules[2].0 == "/agents" && OpenRules[3].0 == "/ledger";
    if StartsWith(pathname, "/home") then ["home"]
    else if StartsWith(pathname, "/projectx") then ["projectx"]
    else if StartsWith(pathname, "/agents") then ["agents"]
    else if StartsWith(pathname, "/ledger") then ["ledger"]
    else ["home"]
  }
}
