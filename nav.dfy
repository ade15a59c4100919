/** The navigation tabs of the command center: which tab is highlighted for the
    current pathname. */
module NavTabs {
  import opened Text

  datatype Tab = Tab(href: string, caption: string)

  /** The four tabs, in display order. */
  const Tabs: seq<Tab> := [
    Tab("/overview", "总览"),
    Tab("/tasks", "任务"),
    Tab("/projects", "项目"),
    Tab("/command-lab", "指挥联调")
  ]

  /** `isActive(pathname, href)`. */
  predicate IsActive(pathname: string, href: string)
  {
    if href == "/overview" && (pathname == "/overview" || pathname == "/feed") then true
    else if pathname == href then true
    else if href == "/projects" && StartsWith(pathname, "/project/") then true
    else if href == "/tasks" && StartsWith(pathname, "/task/") then true
    else false
  }

  /** A tab is highlighted on its own page; "/overview" also on "/feed", "/projects"
      on every project page and "/tasks" on every task page; nothing else. */
  lemma IsActiveCases(pathname: string, href: string)
    ensures pathname == href ==> IsActive(pathname, href)
    ensures IsActive("/feed", "/overview")
    ensures StartsWith(pathname, "/project/") ==> IsActive(pathname, "/projects")
    ensures StartsWith(pathname, "/task/") ==> IsActive(pathname, "/tasks")
    ensures IsActive(pathname, "/command-lab") <==> pathname == "/command-lab"
  {
  }

  /** Whatever the pathname, at most one of the four tabs is highlighted. */
  lemma AtMostOneTabActive(pathname: string, i: int, j: int)
    requires 0 <= i < |Tabs| && 0 <= j < |Tabs|
    requires IsActive(pathname, Tabs[i].href) && IsActive(pathname, Tabs[j].href)
    ensures i == j
  {
    if StartsWith(pathname, "/project/") {
      NotPrefixed(pathname, "/project/", "/task/", 2);
      ExactNotPrefixed(pathname, "/project/");
    } else if StartsWith(pathname, "/task/") {
      ExactNotPrefixed(pathname, "/task/");
    }
  }

  /** A pathname starting with one prefix does not start with another that differs
      from it at position `k`. */
  lemma NotPrefixed(s: string, p: string, q: string, k: int)
    requires 0 <= k < |p| && k < |q| && p[k] != q[k] && StartsWith(s, p)
    ensures !StartsWith(s, q)
  {
    assert s[..|p|][k] == p[k];
  }

  /** No tab's own href starts with a page prefix. */
  lemma ExactNotPrefixed(s: string, p: string)
    requires p == "/project/" || p == "/task/"
    requires StartsWith(s, p)
    ensures s != "/overview" && s != "/feed" && s != "/tasks" && s != "/projects" && s != "/command-lab"
  {
    assert s[..|p|] == p;
    assert s[1] == p[1] && s[|p| - 1] == p[|p| - 1] == '/';
  }
}
