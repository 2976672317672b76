/**
 * `GitBlitTopMenu`: the "GitBlit" menu in Gerrit's top bar, and a "Browse" entry added to
 * Gerrit's "Projects" menu. Users who are not signed in see only the repository list.
 */
module GitBlitTopMenu {
  import opened Wrappers
  import opened JavaStrings

  /** `GITBLIT_TOPMENU_NAME`. */
  const TopMenuName: string := "GitBlit"

  /** `GerritTopMenu.PROJECTS`. */
  const ProjectsMenuName: string := "Projects"

  /** Gerrit's `MenuItem(name, url, id)` and `MenuEntry(name, items)`. */
  datatype MenuItem = MenuItem(name: string, url: string, id: string)
  datatype MenuEntry = MenuEntry(name: string, items: seq<MenuItem>)

  /** The plugin's section of the Gerrit configuration. */
  type PluginConfig = map<string, string>

  /** `cfg.getString(key, defaultValue)`. */
  function Setting(cfg: PluginConfig, key: string, defaultValue: string): string {
    if key in cfg then cfg[key] else defaultValue
  }

  /** The three entries the constructor builds. */
  datatype TopMenu = TopMenu(full: MenuEntry, restricted: MenuEntry, extraProject: MenuEntry)

  /** `GitBlitTopMenu(pluginName, pluginUrl, userProvider, cfgProvider)`. */
  function NewTopMenu(pluginUrl: string, cfg: PluginConfig): (m: TopMenu)
    ensures m.restricted.name == TopMenuName && m.full.name == TopMenuName
    ensures m.extraProject.name == ProjectsMenuName && |m.extraProject.items| == 1
    ensures |m.restricted.items| == 1 && m.restricted.items[0].url == WithTrailingSlash(pluginUrl) + "repositories/"
    ensures 2 <= |m.full.items| <= 3 && m.full.items[0] == m.restricted.items[0]
    ensures m.full.items[1].url == WithTrailingSlash(pluginUrl) + "activity/"
    ensures |m.full.items| == 3 <==> "search" in cfg && cfg["search"] != ""
    ensures |m.full.items| == 3 ==>
              m.full.items[2] == MenuItem(cfg["search"], WithTrailingSlash(pluginUrl) + "lucene/", "")
    ensures m.restricted.items[0].name == (if "repositories" in cfg then cfg["repositories"] else "Repositories")
    ensures m.full.items[1].name == (if "activity" in cfg then cfg["activity"] else "Activity")
    ensures m.extraProject.items[0] ==
              MenuItem(if "browse" in cfg then cfg["browse"] else "Browse", WithTrailingSlash(pluginUrl) + "summary?r=${projectName}", "")
    ensures forall i :: i in m.full.items + m.restricted.items + m.extraProject.items ==> i.id == ""
  {
    var base := WithTrailingSlash(pluginUrl);
    var repositories := MenuItem(Setting(cfg, "repositories", "Repositories"), base + "repositories/", "");
    var activity := MenuItem(Setting(cfg, "activity", "Activity"), base + "activity/", "");
    var search := if "search" in cfg && cfg["search"] != "" then [MenuItem(cfg["search"], base + "lucene/", "")] else [];
    var browse := MenuItem(Setting(cfg, "browse", "Browse"), base + "summary?r=${projectName}", "");
    TopMenu(MenuEntry(TopMenuName, [repositories, activity] + search),
            MenuEntry(TopMenuName, [repositories]),
            MenuEntry(ProjectsMenuName, [browse]))
  }

  /** Every item of every entry points below the base URL, which ends in '/'. */
  lemma ItemsBelowBaseUrl(pluginUrl: string, cfg: PluginConfig)
    ensures var m := NewTopMenu(pluginUrl, cfg);
            forall i :: i in m.full.items + m.restricted.items + m.extraProject.items ==>
              StartsWith(i.url, WithTrailingSlash(pluginUrl))
  {
    var base := WithTrailingSlash(pluginUrl);
    var m := NewTopMenu(pluginUrl, cfg);
    var items := m.full.items + m.restricted.items + m.extraProject.items;
    forall k | 0 <= k < |items|
      ensures StartsWith(items[k].url, base)
    {
      var page := items[k].url[|base|..];
      assert items[k].url == base + page;
      assert (base + page)[..|base|] == base;
    }
  }

  /** `getEntries()`: the full menu for identified users, the restricted one otherwise, then the project entry. */
  function GetEntries(m: TopMenu, isIdentifiedUser: bool): (r: seq<MenuEntry>)
    ensures |r| == 2 && r[1] == m.extraProject
    ensures r[0] == (if isIdentifiedUser then m.full else m.restricted)
  {
    [if isIdentifiedUser then m.full else m.restricted, m.extraProject]
  }

  /** Signing in only adds to the GitBlit menu: what an anonymous user sees comes first for an identified one. */
  lemma SigningInExtendsMenu(pluginUrl: string, cfg: PluginConfig)
    ensures var m := NewTopMenu(pluginUrl, cfg);
            var anonymous := GetEntries(m, false)[0].items;
            var identified := GetEntries(m, true)[0].items;
            |anonymous| < |identified| && identified[..|anonymous|] == anonymous
    ensures var m := NewTopMenu(pluginUrl, cfg);
            GetEntries(m, false)[1] == GetEntries(m, true)[1]
  {
  }
}
